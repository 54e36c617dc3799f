/**
 * One server's play history, copied page by page from a cursor. Each page commits its plays and the
 * cursor together, so a pass may die after any page; the next one reads again from behind the cursor.
 */
module PlayLedger {
  import opened Options

  datatype Kind = Movie | Episode | Track
  datatype Play = Play(historyId: int, ratingKey: string, kind: Kind, title: string, section: Option<string>,
                       account: int, device: Option<int>, viewedAt: int)

  /** A row of the server's listing: one that cannot be read as a play is counted and skipped. */
  datatype Row = Row(at: int, play: Option<Play>)

  /** What one request for a page comes back with; a size that is missing ends the paging. */
  datatype Reply = Refused(reason: string) | Page(rows: seq<Row>, size: Option<nat>, total: nat)

  const OVERLAP_SECONDS := 172_800

  /** The plays by history id, and the newest instant a pass has committed. */
  datatype Store = Store(plays: map<int, Play>, cursor: Option<int>)

  // ---------------------------------------------------------------- one page

  /** `parseHistory`: the rows that are plays, in order. */
  function Entries(rows: seq<Row>): (entries: seq<Play>)
    ensures forall play :: play in entries <==> exists row :: row in rows && row.play == Some(play)
  {
    if |rows| == 0 then []
    else
      var front := Entries(rows[..|rows| - 1]);
      var last := rows[|rows| - 1];
      assert forall row :: row in rows <==> row in rows[..|rows| - 1] || row == last;
      front + if last.play.Some? then [last.play.value] else []
  }

  predicate Excludes(excluded: set<string>, play: Play) {
    play.section.Some? && play.section.value in excluded
  }

  /** `INSERT OR IGNORE` on the history id, in order. */
  function Inserted(plays: map<int, Play>, batch: seq<Play>): map<int, Play> {
    if |batch| == 0 then plays
    else
      var before := Inserted(plays, batch[..|batch| - 1]);
      var play := batch[|batch| - 1];
      if play.historyId in before then before else before[play.historyId := play]
  }

  function Newest(entries: seq<Play>): (newest: int)
    requires |entries| > 0
    ensures exists play :: play in entries && play.viewedAt == newest
    ensures forall play | play in entries :: play.viewedAt <= newest
  {
    var last := entries[|entries| - 1];
    assert entries == entries[..|entries| - 1] + [last];
    if |entries| == 1 then last.viewedAt
    else
      var front := Newest(entries[..|entries| - 1]);
      if front > last.viewedAt then front else last.viewedAt
  }

  function KeptOf(rows: seq<Row>, excluded: set<string>): seq<Play> {
    Filter((play: Play) => !Excludes(excluded, play), Entries(rows))
  }

  /** One page's session: its kept plays inserted and the cursor set to its newest, kept or not. */
  function Committed(s: Store, rows: seq<Row>, excluded: set<string>): Store {
    Store(Inserted(s.plays, KeptOf(rows, excluded)),
          if |Entries(rows)| > 0 then Some(Newest(Entries(rows))) else s.cursor)
  }

  // ---------------------------------------------------------------- one pass

  /** How a pass over the pages ended: whether it reached the end, and how many rows it had read by then. */
  datatype Outcome = Outcome(store: Store, complete: bool, read: nat, total: nat)

  predicate Ends(page: Reply, start: nat)
    requires page.Page?
  {
    page.size.None? || page.size.value == 0 || start + page.size.value >= page.total
  }

  /** `pageAll` over a history listing; a pass whose replies run out has died there. */
  function Paged(s: Store, replies: seq<Reply>, start: nat, excluded: set<string>): Outcome
    decreases |replies|
  {
    if |replies| == 0 || replies[0].Refused? then Outcome(s, false, start, 0)
    else
      var page := replies[0];
      var next := Committed(s, page.rows, excluded);
      if Ends(page, start) then Outcome(next, true, start + |page.rows|, page.total)
      else Paged(next, replies[1..], start + page.size.value, excluded)
  }

  /** A page that does not say its size, or says it is empty, ends the pass: nothing behind it is asked for. */
  lemma EmptyPageEnds(s: Store, page: Reply, rest: seq<Reply>, start: nat, excluded: set<string>)
    requires page.Page? && (page.size.None? || page.size == Some(0))
    ensures Paged(s, [page] + rest, start, excluded) == Paged(s, [page], start, excluded)
    ensures Paged(s, [page], start, excluded).complete
  {
    hide Committed;
  }

  function Since(cursor: Option<int>, lookback: int): int {
    if cursor.Some? then cursor.value - OVERLAP_SECONDS else lookback
  }

  // ---------------------------------------------------------------- the tables

  datatype Item = Item(section: Option<string>, present: bool, seenAt: int)

  function InSections(items: map<string, Item>, sections: set<string>): set<string> {
    set key | key in items && items[key].section.Some? && items[key].section.value in sections
  }

  function Purged(plays: map<int, Play>, sections: set<string>, keys: set<string>): map<int, Play> {
    map id | id in plays && !Excludes(sections, plays[id]) && plays[id].ratingKey !in keys :: plays[id]
  }

  /** A play goes with a library when its own row names it, or its item's does. */
  predicate Drops(items: map<string, Item>, play: Play, sections: set<string>) {
    || (play.section.Some? && play.section.value in sections)
    || (play.ratingKey in items && items[play.ratingKey].section.Some?
        && items[play.ratingKey].section.value in sections)
  }

  class Tables {
    var plays: map<int, Play>
    var cursor: Option<int>
    var items: map<string, Item>

    constructor ()
      ensures plays == map[] && cursor == None && items == map[]
    {
      plays, cursor, items := map[], None, map[];
    }

    function History(): Store
      reads this`plays, this`cursor
    {
      Store(plays, cursor)
    }

    method InsertPlays(batch: seq<Play>) returns (inserted: nat)
      modifies this`plays
      ensures plays == Inserted(old(plays), batch)
      ensures inserted == |plays| - |old(plays)|
    {
      inserted := 0;
      for i := 0 to |batch|
        invariant plays == Inserted(old(plays), batch[..i])
        invariant inserted == |plays| - |old(plays)|
      {
        assert batch[..i + 1][..i] == batch[..i];
        if batch[i].historyId !in plays {
          assert plays[batch[i].historyId := batch[i]].Keys == plays.Keys + {batch[i].historyId};
          plays := plays[batch[i].historyId := batch[i]];
          inserted := inserted + 1;
        }
      }
      assert batch[..|batch|] == batch;
    }

    method SetHistoryCursor(at: int)
      modifies this`cursor
      ensures cursor == Some(at)
    {
      cursor := Some(at);
    }

    method KeepPage(rows: seq<Row>, excluded: set<string>)
      modifies this`plays, this`cursor
      ensures History() == Committed(old(History()), rows, excluded)
    {
      var entries := Entries(rows);
      var kept := Filter((play: Play) => !Excludes(excluded, play), entries);
      var inserted := InsertPlays(kept);
      if |entries| > 0 {
        SetHistoryCursor(Newest(entries));
      }
    }

    method PageAll(replies: seq<Reply>, start: nat, excluded: set<string>) returns (complete: bool)
      modifies this`plays, this`cursor
      ensures History() == Paged(old(History()), replies, start, excluded).store
      ensures complete == Paged(old(History()), replies, start, excluded).complete
      decreases |replies|
    {
      hide Committed;
      if |replies| == 0 {
        return false;
      }
      match replies[0]
      case Refused(_) => return false;
      case Page(rows, size, total) =>
        KeepPage(rows, excluded);
        if size.None? || size.value == 0 || start + size.value >= total {
          return true;
        }
        complete := PageAll(replies[1..], start + size.value, excluded);
    }

    /** The ledger part of `syncHistory`: from behind the cursor, or from the lookback when there is none. */
    method SyncHistory(server: int -> seq<Reply>, lookback: int, excluded: set<string>) returns (complete: bool)
      modifies this`plays, this`cursor
      ensures var end := Paged(old(History()), server(Since(old(cursor), lookback)), 0, excluded);
              History() == end.store && complete == end.complete
    {
      var since := if cursor.Some? then cursor.value - OVERLAP_SECONDS else lookback;
      complete := PageAll(server(since), 0, excluded);
    }

    method PurgeSections(sections: set<string>)
      modifies this`plays, this`items
      ensures plays == Purged(old(plays), sections, InSections(old(items), sections))
      ensures items == old(items) - InSections(old(items), sections)
      ensures forall id | id in old(plays) ::
                id in plays <==> !Drops(old(items), old(plays)[id], sections)
      ensures forall id | id in plays :: id in old(plays) && plays[id] == old(plays)[id]
      ensures forall key | key in old(items) ::
                key in items <==> !(old(items)[key].section.Some? && old(items)[key].section.value in sections)
      ensures forall key | key in items :: key in old(items) && items[key] == old(items)[key]
    {
      var gone := InSections(items, sections);
      plays := map id | id in plays && !Excludes(sections, plays[id]) && plays[id].ratingKey !in gone :: plays[id];
      items := items - gone;
    }
  }

  // ---------------------------------------------------------------- what the server holds

  ghost predicate Ascending(ledger: seq<Row>) {
    forall i, j | 0 <= i < j < |ledger| :: ledger[i].at <= ledger[j].at
  }

  /** Rows carry their own instant, and a history id names one play. */
  ghost predicate Honest(ledger: seq<Row>) {
    && (forall i | 0 <= i < |ledger| && ledger[i].play.Some? :: ledger[i].play.value.viewedAt == ledger[i].at)
    && (forall i, j | 0 <= i < |ledger| && 0 <= j < |ledger| && ledger[i].play.Some? && ledger[j].play.Some?
                      && ledger[i].play.value.historyId == ledger[j].play.value.historyId ::
                         ledger[i].play == ledger[j].play)
  }

  /** What the listing answers from: `viewedAt>=` is inclusive. */
  function Held(ledger: seq<Row>, since: int): seq<Row> {
    Filter((row: Row) => row.at >= since, ledger)
  }

  predicate NextRows(rows: seq<Row>, held: seq<Row>, start: nat) {
    start + |rows| <= |held| && rows == held[start..start + |rows|]
  }

  /**
   * A reply read off a ledger that had grown as far as `total` rows of the listing by then: the next
   * rows from `start`, none only at the end.
   */
  ghost predicate ReadsFrom(reply: Reply, held: seq<Row>, start: nat) {
    reply.Page? ==>
      && reply.size == Some(|reply.rows|)
      && start + |reply.rows| <= reply.total <= |held|
      && NextRows(reply.rows, held, start)
      && (|reply.rows| == 0 ==> start == reply.total)
  }

  ghost predicate AllReadFrom(replies: seq<Reply>, held: seq<Row>, start: nat)
    decreases |replies|
  {
    |replies| == 0
    || (ReadsFrom(replies[0], held, start)
        && (replies[0].Page? && !Ends(replies[0], start)
            ==> AllReadFrom(replies[1..], held, start + |replies[0].rows|)))
  }

  /** Libraries and items a play may have been dropped for. */
  datatype Dropped = Dropped(sections: set<string>, keys: set<string>)

  predicate Spared(dropped: Dropped, play: Play) {
    !Excludes(dropped.sections, play) && play.ratingKey !in dropped.keys
  }

  predicate StoredIn(plays: map<int, Play>, play: Play) {
    play.historyId in plays && plays[play.historyId] == play
  }

  /** A row that has to be stored: a play nobody dropped. */
  predicate Wanted(dropped: Dropped, row: Row) {
    row.play.Some? && Spared(dropped, row.play.value)
  }

  ghost predicate AllStored(plays: map<int, Play>, rows: seq<Row>, dropped: Dropped) {
    forall i | 0 <= i < |rows| && Wanted(dropped, rows[i]) :: StoredIn(plays, rows[i].play.value)
  }

  /** Every wanted play from one instant up to another is stored. */
  ghost predicate CoveredFrom(plays: map<int, Play>, ledger: seq<Row>, floor: int, upto: int, dropped: Dropped) {
    forall i | 0 <= i < |ledger| && Wanted(dropped, ledger[i]) && floor <= ledger[i].at < upto ::
      StoredIn(plays, ledger[i].play.value)
  }

  /** Whatever is stored is one of the server's plays. */
  ghost predicate FromLedger(plays: map<int, Play>, ledger: seq<Row>) {
    forall id | id in plays ::
      plays[id].historyId == id && exists i :: 0 <= i < |ledger| && ledger[i].play == Some(plays[id])
  }

  // ---------------------------------------------------------------- inserting

  lemma {:induction false} InsertedMeans(plays: map<int, Play>, batch: seq<Play>)
    ensures var after := Inserted(plays, batch);
            && (forall id | id in plays :: id in after && after[id] == plays[id])
            && (forall play | play in batch :: play.historyId in after)
            && (forall id | id in after && id !in plays :: after[id] in batch && after[id].historyId == id)
    decreases |batch|
  {
    if |batch| > 0 {
      assert batch == batch[..|batch| - 1] + [batch[|batch| - 1]];
      InsertedMeans(plays, batch[..|batch| - 1]);
    }
  }

  /** Reading plays again inserts nothing and changes nothing. */
  lemma {:induction false} InsertingAgainIsFree(plays: map<int, Play>, batch: seq<Play>)
    requires forall play | play in batch :: play.historyId in plays
    ensures Inserted(plays, batch) == plays
    decreases |batch|
  {
    if |batch| > 0 {
      assert batch == batch[..|batch| - 1] + [batch[|batch| - 1]];
      InsertingAgainIsFree(plays, batch[..|batch| - 1]);
    }
  }

  /** A page whose plays are all stored, or dropped, is read again at the cost of the cursor alone. */
  lemma RereadingIsFree(s: Store, rows: seq<Row>, excluded: set<string>)
    requires forall row | row in rows && row.play.Some? && !Excludes(excluded, row.play.value) ::
               row.play.value.historyId in s.plays
    ensures Committed(s, rows, excluded).plays == s.plays
    ensures Committed(Committed(s, rows, excluded), rows, excluded) == Committed(s, rows, excluded)
  {
    InsertingAgainIsFree(s.plays, KeptOf(rows, excluded));
  }

  // ---------------------------------------------------------------- the listing keeps order

  lemma {:induction false} HeldMeans(ledger: seq<Row>, since: int)
    requires Ascending(ledger)
    ensures Ascending(Held(ledger, since))
    decreases |ledger|
  {
    if |ledger| > 0 {
      HeldMeans(ledger[1..], since);
      var rest := Held(ledger[1..], since);
      assert forall row | row in ledger[1..] :: ledger[0].at <= row.at;
      assert forall i | 0 <= i < |rest| :: rest[i] in ledger[1..];
    }
  }

  /** A row of the ledger from `since` on, earlier than one already read, was read before it. */
  lemma EarlierWasRead(ledger: seq<Row>, since: int, i: nat, n: nat, newest: int)
    requires Ascending(ledger) && i < |ledger| && since <= ledger[i].at < newest
    requires n <= |Held(ledger, since)|
    requires exists j :: 0 <= j < n && Held(ledger, since)[j].at == newest
    ensures exists k :: 0 <= k < n && Held(ledger, since)[k] == ledger[i]
  {
    var held := Held(ledger, since);
    HeldMeans(ledger, since);
    assert ledger[i] in held;
    var k :| 0 <= k < |held| && held[k] == ledger[i];
    var j :| 0 <= j < n && held[j].at == newest;
    assert k < j;
  }

  // ---------------------------------------------------------------- one page keeps what a pass promises

  lemma CommittedStores(s: Store, ledger: seq<Row>, rows: seq<Row>, excluded: set<string>, dropped: Dropped)
    requires Honest(ledger) && FromLedger(s.plays, ledger) && excluded <= dropped.sections
    requires forall row | row in rows :: row in ledger
    ensures var after := Committed(s, rows, excluded).plays;
            && FromLedger(after, ledger) && AllStored(after, rows, dropped)
            && (forall id | id in s.plays :: id in after && after[id] == s.plays[id])
  {
    var kept := KeptOf(rows, excluded);
    var after := Inserted(s.plays, kept);
    InsertedMeans(s.plays, kept);
    forall id | id in after
      ensures after[id].historyId == id && exists i :: 0 <= i < |ledger| && ledger[i].play == Some(after[id])
    {
      if id !in s.plays {
        var row :| row in rows && row.play == Some(after[id]);
        var i :| 0 <= i < |ledger| && ledger[i] == row;
      }
    }
    forall i | 0 <= i < |rows| && Wanted(dropped, rows[i]) ensures StoredIn(after, rows[i].play.value) {
      var play := rows[i].play.value;
      assert rows[i] in rows;
      assert play in kept;
      var stored := after[play.historyId];
      var j :| 0 <= j < |ledger| && ledger[j].play == Some(stored);
      var k :| 0 <= k < |ledger| && ledger[k] == rows[i];
    }
  }

  /** What holds between two pages of a pass that began at `since`. */
  ghost predicate MidPass(s: Store, ledger: seq<Row>, floor: int, since: int, start: nat, dropped: Dropped)
  {
    && start <= |Held(ledger, since)|
    && FromLedger(s.plays, ledger)
    && AllStored(s.plays, Held(ledger, since)[..start], dropped)
    && CoveredFrom(s.plays, ledger, floor, since, dropped)
  }

  /** The coverage a store keeps at rest: up to, and not including, its cursor. */
  ghost predicate AtRest(s: Store, ledger: seq<Row>, floor: int, dropped: Dropped) {
    s.cursor.Some? ==> CoveredFrom(s.plays, ledger, floor, s.cursor.value, dropped)
  }

  lemma CoverageLasts(before: map<int, Play>, after: map<int, Play>, ledger: seq<Row>, floor: int, upto: int,
                      dropped: Dropped)
    requires forall id | id in before :: id in after && after[id] == before[id]
    requires CoveredFrom(before, ledger, floor, upto, dropped)
    ensures CoveredFrom(after, ledger, floor, upto, dropped)
  {
  }

  lemma PageKeepsPromises(s: Store, ledger: seq<Row>, floor: int, since: int, start: nat, page: Reply,
                          excluded: set<string>, dropped: Dropped)
    requires Ascending(ledger) && Honest(ledger) && excluded <= dropped.sections
    requires MidPass(s, ledger, floor, since, start, dropped) && AtRest(s, ledger, floor, dropped)
    requires page.Page? && ReadsFrom(page, Held(ledger, since), start)
    ensures var after := Committed(s, page.rows, excluded);
            && MidPass(after, ledger, floor, since, start + |page.rows|, dropped)
            && AtRest(after, ledger, floor, dropped)
            && (s.cursor.Some? ==> after.cursor.Some?)
  {
    hide Ascending, Honest, Held, AtRest, CoveredFrom, MidPass, Inserted, KeptOf, Newest;
    var rows := page.rows;
    PageIsRead(s, ledger, floor, since, start, rows, excluded, dropped);
    var after := Committed(s, rows, excluded);
    CommittedCursor(s, rows, excluded);
    hide MidPass, Ascending, Honest, Held, AtRest, CoveredFrom, Committed, Entries, NextRows;
    if |Entries(rows)| > 0 {
      CursorIsCovered(after, ledger, floor, since, start + |rows|, start, rows, dropped);
      SettledAt(after, ledger, floor, dropped);
    } else {
      NothingRead(s, ledger, floor, rows, excluded, dropped);
    }
  }

  lemma CommittedCursor(s: Store, rows: seq<Row>, excluded: set<string>)
    ensures Committed(s, rows, excluded).cursor == if |Entries(rows)| > 0 then Some(Newest(Entries(rows))) else s.cursor
  {
  }

  /** A page with no play on it leaves the cursor, and what it covers, as they were. */
  lemma NothingRead(s: Store, ledger: seq<Row>, floor: int, rows: seq<Row>, excluded: set<string>, dropped: Dropped)
    requires |Entries(rows)| == 0 && AtRest(s, ledger, floor, dropped)
    ensures AtRest(Committed(s, rows, excluded), ledger, floor, dropped)
            && Committed(s, rows, excluded).cursor == s.cursor
  {
    InsertedMeans(s.plays, KeptOf(rows, excluded));
    if s.cursor.Some? {
      CoverageLasts(s.plays, Committed(s, rows, excluded).plays, ledger, floor, s.cursor.value, dropped);
    }
  }

  lemma SettledAt(s: Store, ledger: seq<Row>, floor: int, dropped: Dropped)
    requires s.cursor.Some? && CoveredFrom(s.plays, ledger, floor, s.cursor.value, dropped)
    ensures AtRest(s, ledger, floor, dropped)
  {
  }

  lemma PageIsRead(s: Store, ledger: seq<Row>, floor: int, since: int, start: nat, rows: seq<Row>,
                   excluded: set<string>, dropped: Dropped)
    requires Honest(ledger) && excluded <= dropped.sections && MidPass(s, ledger, floor, since, start, dropped)
    requires NextRows(rows, Held(ledger, since), start)
    ensures MidPass(Committed(s, rows, excluded), ledger, floor, since, start + |rows|, dropped)
  {
    var after := Committed(s, rows, excluded);
    assert forall row | row in rows :: row in Held(ledger, since);
    assert forall row | row in rows :: row in ledger;
    hide Held;
    CommittedStores(s, ledger, rows, excluded, dropped);
    hide Committed, AllStored, CoveredFrom, FromLedger, Honest;
    CoverageLasts(s.plays, after.plays, ledger, floor, since, dropped);
    PagesAddUp(s.plays, after.plays, Held(ledger, since), start, rows, dropped);
  }

  lemma PagesAddUp(before: map<int, Play>, after: map<int, Play>, held: seq<Row>, start: nat, rows: seq<Row>,
                   dropped: Dropped)
    requires NextRows(rows, held, start)
    requires forall id | id in before :: id in after && after[id] == before[id]
    requires AllStored(before, held[..start], dropped) && AllStored(after, rows, dropped)
    ensures AllStored(after, held[..start + |rows|], dropped)
  {
    var read := held[..start + |rows|];
    forall i | 0 <= i < |read| && Wanted(dropped, read[i]) ensures StoredIn(after, read[i].play.value) {
      if i < start {
        assert held[..start][i] == read[i];
      } else {
        assert rows[i - start] == read[i];
      }
    }
  }

  /** The page's newest play is the new cursor, and everything before it has been read. */
  lemma CursorIsCovered(s: Store, ledger: seq<Row>, floor: int, since: int, n: nat, start: nat, rows: seq<Row>,
                        dropped: Dropped)
    requires Ascending(ledger) && Honest(ledger) && MidPass(s, ledger, floor, since, n, dropped)
    requires start + |rows| == n && NextRows(rows, Held(ledger, since), start) && |Entries(rows)| > 0
    ensures CoveredFrom(s.plays, ledger, floor, Newest(Entries(rows)), dropped)
  {
    var held, newest := Held(ledger, since), Newest(Entries(rows));
    var play :| play in Entries(rows) && play.viewedAt == newest;
    var row :| row in rows && row.play == Some(play);
    var j :| 0 <= j < |rows| && rows[j] == row;
    assert held[start + j] == row && row in held && row in ledger;
    assert row.at == newest by {
      var at :| 0 <= at < |ledger| && ledger[at] == row;
    }
    hide Entries;
    forall i | 0 <= i < |ledger| && Wanted(dropped, ledger[i]) && floor <= ledger[i].at < newest
      ensures StoredIn(s.plays, ledger[i].play.value)
    {
      if ledger[i].at >= since {
        EarlierWasRead(ledger, since, i, n, newest);
        var k :| 0 <= k < n && held[k] == ledger[i];
        assert held[..n][k] == ledger[i];
      }
    }
  }

  /** What a pass leaves behind wherever it stopped: all it read is stored, and its cursor is covered. */
  ghost predicate Promised(end: Outcome, ledger: seq<Row>, floor: int, since: int, dropped: Dropped) {
    && MidPass(end.store, ledger, floor, since, end.read, dropped)
    && AtRest(end.store, ledger, floor, dropped)
    && (end.complete ==> end.read == end.total)
  }

  lemma FirstReply(s: Store, replies: seq<Reply>, start: nat, excluded: set<string>, held: seq<Row>)
    requires AllReadFrom(replies, held, start)
    ensures |replies| == 0 || replies[0].Refused? ==> Paged(s, replies, start, excluded) == Outcome(s, false, start, 0)
    ensures |replies| > 0 && replies[0].Page? ==>
              var next, read := Committed(s, replies[0].rows, excluded), start + |replies[0].rows|;
              && ReadsFrom(replies[0], held, start)
              && (Ends(replies[0], start)
                  ==> Paged(s, replies, start, excluded) == Outcome(next, true, read, replies[0].total))
              && (!Ends(replies[0], start) ==>
                    AllReadFrom(replies[1..], held, read)
                    && Paged(s, replies, start, excluded) == Paged(next, replies[1..], read, excluded))
  {
    hide Committed;
  }

  /** A whole pass, dying wherever it does: its promises hold after the last page it committed. */
  lemma {:induction false} PassKeepsPromises(s: Store, ledger: seq<Row>, floor: int, since: int, replies: seq<Reply>,
                                             start: nat, excluded: set<string>, dropped: Dropped)
    requires Ascending(ledger) && Honest(ledger) && excluded <= dropped.sections
    requires MidPass(s, ledger, floor, since, start, dropped) && AtRest(s, ledger, floor, dropped)
    requires AllReadFrom(replies, Held(ledger, since), start)
    ensures Promised(Paged(s, replies, start, excluded), ledger, floor, since, dropped)
    ensures s.cursor.Some? ==> Paged(s, replies, start, excluded).store.cursor.Some?
    decreases |replies|
  {
    hide Committed, MidPass, AtRest, Held, Ascending, Honest, Paged, AllReadFrom;
    FirstReply(s, replies, start, excluded, Held(ledger, since));
    if |replies| > 0 && replies[0].Page? {
      PageKeepsPromises(s, ledger, floor, since, start, replies[0], excluded, dropped);
      if !Ends(replies[0], start) {
        PassKeepsPromises(Committed(s, replies[0].rows, excluded), ledger, floor, since, replies[1..],
                          start + |replies[0].rows|, excluded, dropped);
      }
    }
  }
}
