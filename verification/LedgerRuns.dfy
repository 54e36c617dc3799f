/** Any sequence of history passes and purges against one growing ledger, and what is stored after it. */
module LedgerRuns {
  import opened Options
  import opened PlayLedger

  /** A pass, with what the server answered it until it ended or died, or a purge between two passes. */
  datatype Step =
    | Pass(replies: seq<Reply>, lookback: int, excluded: set<string>)
    | Purge(sections: set<string>, keys: set<string>)

  /** The tables, and the instant the first pass to commit anything began from. */
  datatype Ran = Ran(store: Store, floor: Option<int>)

  function Take(r: Ran, step: Step): Ran {
    match step
    case Pass(replies, lookback, excluded) =>
      var end := Paged(r.store, replies, 0, excluded).store;
      Ran(end, if r.floor.None? && end.cursor.Some? then Some(Since(r.store.cursor, lookback)) else r.floor)
    case Purge(sections, keys) =>
      r.(store := r.store.(plays := Purged(r.store.plays, sections, keys)))
  }

  function Run(steps: seq<Step>): Ran {
    if |steps| == 0 then Ran(Store(map[], None), None)
    else Take(Run(steps[..|steps| - 1]), steps[|steps| - 1])
  }

  /** What a step leaves out of its own accord. */
  predicate DropsWithin(step: Step, dropped: Dropped) {
    match step
    case Pass(_, _, excluded) => excluded <= dropped.sections
    case Purge(sections, keys) => sections <= dropped.sections && keys <= dropped.keys
  }

  /** Every reply of a step is read off the ledger, however far it had grown by then. */
  ghost predicate Reads(r: Ran, step: Step, ledger: seq<Row>) {
    step.Pass? ==> AllReadFrom(step.replies, Held(ledger, Since(r.store.cursor, step.lookback)), 0)
  }

  ghost predicate AllRead(steps: seq<Step>, ledger: seq<Row>, dropped: Dropped) {
    forall n | 0 <= n < |steps| :: Reads(Run(steps[..n]), steps[n], ledger) && DropsWithin(steps[n], dropped)
  }

  ghost predicate Kept(r: Ran, ledger: seq<Row>, dropped: Dropped) {
    && FromLedger(r.store.plays, ledger)
    && (r.floor.Some? <==> r.store.cursor.Some?)
    && (r.floor.Some? ==> CoveredFrom(r.store.plays, ledger, r.floor.value, r.store.cursor.value, dropped))
  }

  /** What a pass may rely on when it begins. */
  lemma PassBegins(r: Ran, ledger: seq<Row>, dropped: Dropped, lookback: int, floor: int)
    requires Kept(r, ledger, dropped) && floor == if r.floor.Some? then r.floor.value else lookback
    ensures var since := Since(r.store.cursor, lookback);
            MidPass(r.store, ledger, floor, since, 0, dropped) && AtRest(r.store, ledger, floor, dropped)
  {
    hide Held;
    assert Held(ledger, Since(r.store.cursor, lookback))[..0] == [];
  }

  lemma PassIsKept(r: Ran, step: Step, ledger: seq<Row>, dropped: Dropped)
    requires Ascending(ledger) && Honest(ledger) && step.Pass?
    requires Kept(r, ledger, dropped) && Reads(r, step, ledger) && DropsWithin(step, dropped)
    ensures Kept(Take(r, step), ledger, dropped)
    ensures Promised(Paged(r.store, step.replies, 0, step.excluded), ledger,
                     if r.floor.Some? then r.floor.value
                       else step.lookback, Since(r.store.cursor, step.lookback), dropped)
  {
    hide Paged, Held, AllReadFrom, CoveredFrom, AllStored, Ascending, Honest, FromLedger;
    var since := Since(r.store.cursor, step.lookback);
    var floor := if r.floor.Some? then r.floor.value else step.lookback;
    PassBegins(r, ledger, dropped, step.lookback, floor);
    PassKeepsPromises(r.store, ledger, floor, since, step.replies, 0, step.excluded, dropped);
  }

  lemma PurgeIsKept(r: Ran, step: Step, ledger: seq<Row>, dropped: Dropped)
    requires step.Purge? && Kept(r, ledger, dropped) && DropsWithin(step, dropped)
    ensures Kept(Take(r, step), ledger, dropped)
  {
  }

  /**
   * Coverage: after any passes and purges, each pass dying after any of its pages, every play nobody
   * dropped, from the first committed floor up to but not including the cursor, is stored as the server
   * has it; and nothing else is stored.
   */
  lemma {:induction false} RunsCover(steps: seq<Step>, ledger: seq<Row>, dropped: Dropped)
    requires Ascending(ledger) && Honest(ledger) && AllRead(steps, ledger, dropped)
    ensures Kept(Run(steps), ledger, dropped)
    decreases |steps|
  {
    if |steps| > 0 {
      var last := |steps| - 1;
      var front := steps[..last];
      forall n | 0 <= n < last ensures Reads(Run(front[..n]), front[n], ledger) && DropsWithin(front[n], dropped) {
        assert front[..n] == steps[..n];
      }
      RunsCover(front, ledger, dropped);
      assert Reads(Run(steps[..last]), steps[last], ledger);
      hide Kept, Ascending, Honest, Reads, DropsWithin, Take;
      assert Run(steps) == Take(Run(front), steps[last]);
      if steps[last].Pass? {
        PassIsKept(Run(front), steps[last], ledger, dropped);
      } else {
        PurgeIsKept(Run(front), steps[last], ledger, dropped);
      }
    }
  }

  /** The listing of a ledger is a prefix of its listing after it has grown. */
  lemma {:induction false} ListingGrows(view: seq<Row>, more: seq<Row>, since: int)
    ensures Held(view, since) <= Held(view + more, since)
    decreases |view|
  {
    if |view| > 0 {
      assert (view + more)[1..] == view[1..] + more;
      ListingGrows(view[1..], more, since);
    }
  }

  /**
   * A pass that ran to its end has stored every play nobody dropped that the server held, when it last
   * answered, from behind the cursor on.
   */
  lemma CompletePassStoresAll(steps: seq<Step>, last: Step, ledger: seq<Row>, view: seq<Row>, dropped: Dropped)
    requires Ascending(ledger) && Honest(ledger) && AllRead(steps, ledger, dropped)
    requires last.Pass? && Reads(Run(steps), last, ledger) && DropsWithin(last, dropped) && view <= ledger
    requires var r := Run(steps);
             var end := Paged(r.store, last.replies, 0, last.excluded);
             end.complete && |Held(view, Since(r.store.cursor, last.lookback))| <= end.total
    ensures var r := Run(steps);
            forall i | 0 <= i < |view| && Wanted(dropped, view[i])
              && (if r.store.cursor.Some? then r.store.cursor.value - 172_800 else last.lookback) <= view[i].at ::
              StoredIn(Take(r, last).store.plays, view[i].play.value)
  {
    hide Paged, AllReadFrom, CoveredFrom, Run, Wanted, StoredIn, Reads;
    var r := Run(steps);
    var since := Since(r.store.cursor, last.lookback);
    var end := Paged(r.store, last.replies, 0, last.excluded);
    RunsCover(steps, ledger, dropped);
    PassIsKept(r, last, ledger, dropped);
    ViewIsStored(end, ledger, view, if r.floor.Some? then r.floor.value else last.lookback, since, dropped);
  }

  lemma ViewIsStored(end: Outcome, ledger: seq<Row>, view: seq<Row>, floor: int, since: int, dropped: Dropped)
    requires Promised(end, ledger, floor, since, dropped) && end.complete
    requires view <= ledger && |Held(view, since)| <= end.total
    ensures forall i | 0 <= i < |view| && Wanted(dropped, view[i]) && since <= view[i].at ::
              StoredIn(end.store.plays, view[i].play.value)
  {
    hide AtRest, CoveredFrom, FromLedger, StoredIn, Spared;
    var held, listed := Held(ledger, since), Held(view, since);
    assert ledger == view + ledger[|view|..];
    ListingGrows(view, ledger[|view|..], since);
    forall i | 0 <= i < |view| && Wanted(dropped, view[i]) && since <= view[i].at
      ensures StoredIn(end.store.plays, view[i].play.value)
    {
      assert view[i] in listed;
      var k :| 0 <= k < |listed| && listed[k] == view[i];
      assert held[..end.read][k] == view[i];
    }
  }

  /** A pass may leave the cursor behind where it was, but never by more than the overlap. */
  lemma CursorDipsWithinOverlap(r: Ran, step: Step, ledger: seq<Row>)
    requires step.Pass? && Honest(ledger) && Reads(r, step, ledger) && r.store.cursor.Some?
    ensures Take(r, step).store.cursor.Some?
    ensures Take(r, step).store.cursor.value >= r.store.cursor.value - 172_800
  {
    hide AllReadFrom, Paged, Held;
    PagesStayAbove(r.store, ledger, Since(r.store.cursor, step.lookback), step.replies, 0, step.excluded);
  }

  lemma {:induction false} PagesStayAbove(s: Store, ledger: seq<Row>, since: int, replies: seq<Reply>, start: nat,
                                          excluded: set<string>)
    requires Honest(ledger) && AllReadFrom(replies, Held(ledger, since), start)
    requires s.cursor.Some? && s.cursor.value >= since
    ensures var end := Paged(s, replies, start, excluded).store.cursor;
            end.Some? && end.value >= since
    decreases |replies|
  {
    hide Paged, AllReadFrom, Committed, Held;
    FirstReply(s, replies, start, excluded, Held(ledger, since));
    if |replies| > 0 && replies[0].Page? {
      PageStaysAbove(s, ledger, since, replies[0], start, excluded);
      if !Ends(replies[0], start) {
        PagesStayAbove(Committed(s, replies[0].rows, excluded), ledger, since, replies[1..], start + |replies[0].rows|,
                       excluded);
      }
    }
  }

  lemma PageStaysAbove(s: Store, ledger: seq<Row>, since: int, page: Reply, start: nat, excluded: set<string>)
    requires Honest(ledger) && page.Page? && ReadsFrom(page, Held(ledger, since), start)
    requires s.cursor.Some? && s.cursor.value >= since
    ensures var after := Committed(s, page.rows, excluded).cursor;
            after.Some? && after.value >= since
  {
    hide Inserted, KeptOf;
    var rows := page.rows;
    if |Entries(rows)| > 0 {
      var play :| play in Entries(rows) && play.viewedAt == Newest(Entries(rows));
      var row :| row in rows && row.play == Some(play);
      assert row in Held(ledger, since);
      hide Held;
      var i :| 0 <= i < |ledger| && ledger[i] == row;
    }
  }

  // ---------------------------------------------------------------- where a pass leaves the cursor

  predicate PlayRead(held: seq<Row>, n: nat, k: int) {
    0 <= k < n <= |held| && held[k].play.Some?
  }

  ghost predicate NewestOf(held: seq<Row>, n: nat, k: int) {
    PlayRead(held, n, k) && forall j :: PlayRead(held, n, j) ==> held[j].at <= held[k].at
  }

  /** The cursor is the newest play among the rows read so far, or what it was when none was a play. */
  ghost predicate CursorTells(cursor: Option<int>, was: Option<int>, held: seq<Row>, n: nat) {
    if exists k :: PlayRead(held, n, k) then
      exists k :: NewestOf(held, n, k) && cursor == Some(held[k].at)
    else cursor == was
  }

  lemma PageTells(cursor: Option<int>, was: Option<int>, held: seq<Row>, start: nat, rows: seq<Row>, ledger: seq<Row>)
    requires Ascending(held) && Honest(ledger) && (forall row | row in held :: row in ledger)
    requires NextRows(rows, held, start) && CursorTells(cursor, was, held, start)
    ensures CursorTells(if |Entries(rows)| > 0 then Some(Newest(Entries(rows))) else cursor, was, held, start + |rows|)
  {
    hide Entries, Newest, Honest, CursorTells, Ascending, NextRows;
    if |Entries(rows)| > 0 {
      var i := NewestRow(rows, held, start, ledger);
      NewestTells(was, held, start, |rows|, start + i);
    } else {
      NoPlaysTell(cursor, was, held, start, rows);
    }
  }

  lemma NoPlaysTell(cursor: Option<int>, was: Option<int>, held: seq<Row>, start: nat, rows: seq<Row>)
    requires NextRows(rows, held, start) && |Entries(rows)| == 0 && CursorTells(cursor, was, held, start)
    ensures CursorTells(cursor, was, held, start + |rows|)
  {
    forall k | start <= k < start + |rows| ensures held[k].play.None? {
      assert rows[k - start] == held[k] && rows[k - start] in rows;
    }
    hide Entries;
    SameRead(cursor, was, held, start, start + |rows|);
  }

  lemma SameRead(cursor: Option<int>, was: Option<int>, held: seq<Row>, n: nat, m: nat)
    requires n <= m <= |held| && (forall k | n <= k < m :: held[k].play.None?) && CursorTells(cursor, was, held, n)
    ensures CursorTells(cursor, was, held, m)
  {
    assert forall j :: PlayRead(held, m, j) <==> PlayRead(held, n, j);
    if k :| NewestOf(held, n, k) && cursor == Some(held[k].at) {
      assert NewestOf(held, m, k);
    }
  }

  /** The play a page's newest instant belongs to. */
  lemma NewestRow(rows: seq<Row>, held: seq<Row>, start: nat, ledger: seq<Row>) returns (i: nat)
    requires Honest(ledger) && (forall row | row in held :: row in ledger)
    requires NextRows(rows, held, start) && |Entries(rows)| > 0
    ensures i < |rows| && start + |rows| <= |held| && held[start + i].play.Some?
            && held[start + i].at == Newest(Entries(rows))
    ensures forall j | start <= j < start + |rows| && held[j].play.Some? :: held[j].at <= Newest(Entries(rows))
  {
    var entries := Entries(rows);
    var newest := Newest(entries);
    var play :| play in entries && play.viewedAt == newest;
    var row :| row in rows && row.play == Some(play);
    i :| 0 <= i < |rows| && rows[i] == row;
    hide Entries, Newest, Honest;
    assert held[start + i] == row;
    HonestRow(ledger, row);
    forall j | start <= j < start + |rows| && held[j].play.Some? ensures held[j].at <= newest {
      assert rows[j - start] == held[j] && held[j].play.value in entries;
      HonestRow(ledger, held[j]);
    }
  }

  lemma NewestTells(was: Option<int>, held: seq<Row>, start: nat, more: nat, newest: int)
    requires Ascending(held) && start + more <= |held| && PlayRead(held, start + more, newest) && newest >= start
    requires forall j | start <= j < start + more && held[j].play.Some? :: held[j].at <= held[newest].at
    ensures CursorTells(Some(held[newest].at), was, held, start + more)
  {
    assert NewestOf(held, start + more, newest);
  }

  lemma HonestRow(ledger: seq<Row>, row: Row)
    requires Honest(ledger) && row in ledger && row.play.Some?
    ensures row.at == row.play.value.viewedAt
  {
    var i :| 0 <= i < |ledger| && ledger[i] == row;
  }

  lemma {:induction false} PagesTell(s: Store, was: Option<int>, ledger: seq<Row>, held: seq<Row>, replies: seq<Reply>,
                                     start: nat, excluded: set<string>)
    requires Ascending(held) && Honest(ledger) && (forall row | row in held :: row in ledger)
    requires AllReadFrom(replies, held, start) && CursorTells(s.cursor, was, held, start)
    ensures var end := Paged(s, replies, start, excluded); CursorTells(end.store.cursor, was, held, end.read)
    decreases |replies|
  {
    hide Paged, AllReadFrom, Committed, CursorTells, Ascending, Honest, Entries, Newest, NextRows;
    FirstReply(s, replies, start, excluded, held);
    if |replies| > 0 && replies[0].Page? {
      PageTells(s.cursor, was, held, start, replies[0].rows, ledger);
      CommittedCursor(s, replies[0].rows, excluded);
      if !Ends(replies[0], start) {
        PagesTell(Committed(s, replies[0].rows, excluded), was, ledger, held, replies[1..], start + |replies[0].rows|,
                  excluded);
      }
    }
  }

  /** A pass leaves the cursor at the newest play it read, and where it was when it read none. */
  lemma CursorIsNewestRead(r: Ran, step: Step, ledger: seq<Row>)
    requires step.Pass? && Ascending(ledger) && Honest(ledger) && Reads(r, step, ledger)
    ensures CursorTells(Take(r, step).store.cursor, r.store.cursor, Held(ledger, Since(r.store.cursor, step.lookback)),
                        Paged(r.store, step.replies, 0, step.excluded).read)
  {
    var held := Held(ledger, Since(r.store.cursor, step.lookback));
    HeldMeans(ledger, Since(r.store.cursor, step.lookback));
    hide AllReadFrom, Paged, Ascending, Honest;
    PagesTell(r.store, r.store.cursor, ledger, held, step.replies, 0, step.excluded);
  }

  /** It dips exactly when a pass read some play and every play it read is older than the cursor was. */
  lemma CursorDipsExactly(r: Ran, step: Step, ledger: seq<Row>)
    requires step.Pass? && Ascending(ledger) && Honest(ledger) && Reads(r, step, ledger) && r.store.cursor.Some?
    ensures var held := Held(ledger, Since(r.store.cursor, step.lookback));
            var read := Paged(r.store, step.replies, 0, step.excluded).read;
            var after := Take(r, step).store.cursor;
            && after.Some?
            && (after.value < r.store.cursor.value
                <==> (exists k :: PlayRead(held, read, k))
                     && forall k :: PlayRead(held, read, k) ==> held[k].at < r.store.cursor.value)
  {
    CursorIsNewestRead(r, step, ledger);
    hide Take, Reads, Ascending, Honest, Held, Paged;
  }

  /**
   * A pass that ran to its end never leaves the cursor behind, while the listing it was told the size of
   * still holds a play as new as the cursor.
   */
  lemma CompletePassKeepsUp(r: Ran, step: Step, ledger: seq<Row>, view: seq<Row>, i: nat)
    requires step.Pass? && Ascending(ledger) && Honest(ledger) && Reads(r, step, ledger) && r.store.cursor.Some?
    requires view <= ledger && i < |view| && view[i].play.Some? && view[i].at >= r.store.cursor.value
    requires var end := Paged(r.store, step.replies, 0, step.excluded);
             end.complete && |Held(view, Since(r.store.cursor, step.lookback))| <= end.total
    ensures Take(r, step).store.cursor.Some? && Take(r, step).store.cursor.value >= r.store.cursor.value
  {
    var since := Since(r.store.cursor, step.lookback);
    var held, listed := Held(ledger, since), Held(view, since);
    assert ledger == view + ledger[|view|..];
    ListingGrows(view, ledger[|view|..], since);
    assert view[i] in listed;
    var k :| 0 <= k < |listed| && listed[k] == view[i];
    CompletePassReadsAll(r.store, held, step.replies, 0, step.excluded);
    CursorDipsExactly(r, step, ledger);
    hide Take, Paged, Ascending, Honest, Held, AllReadFrom;
    assert held[k] == view[i] && PlayRead(held, Paged(r.store, step.replies, 0, step.excluded).read, k);
  }

  lemma {:induction false} CompletePassReadsAll(s: Store, held: seq<Row>, replies: seq<Reply>, start: nat,
                                                excluded: set<string>)
    requires AllReadFrom(replies, held, start) && start <= |held|
    ensures var end := Paged(s, replies, start, excluded);
            end.read <= |held| && (end.complete ==> end.read == end.total)
    decreases |replies|
  {
    hide Paged, AllReadFrom, Committed;
    FirstReply(s, replies, start, excluded, held);
    if |replies| > 0 && replies[0].Page? && !Ends(replies[0], start) {
      CompletePassReadsAll(Committed(s, replies[0].rows, excluded), held, replies[1..], start + |replies[0].rows|,
                           excluded);
    }
  }

  /** It does dip: a pass that reads one older play again and dies before the next page leaves it there. */
  lemma CursorDips(s: Store, play: Play)
    requires s.cursor.Some? && play.viewedAt < s.cursor.value
    ensures var page := Page([Row(play.viewedAt, Some(play))], Some(1), 2);
            Paged(s, [page], 0, {}).store.cursor == Some(play.viewedAt)
  {
    var rows := [Row(play.viewedAt, Some(play))];
    var page := Page(rows, Some(1), 2);
    assert rows[..0] == [] && Entries(rows) == [play];
    assert [page][1..] == [];
    assert Paged(s, [page], 0, {}) == Paged(Committed(s, rows, {}), [], 1, {});
  }

  // ---------------------------------------------------------------- when a pass is over

  /** A pass is complete exactly when its replies got to the end of the listing as it was last told. */
  lemma {:induction false} AnsweredPassCompletes(s: Store, held: seq<Row>, replies: seq<Reply>, start: nat,
                                                 excluded: set<string>)
    requires AllReadFrom(replies, held, start) && start <= |held|
    ensures Paged(s, replies, start, excluded).complete
            <==> GetsToTheEnd(replies, start)
    decreases |replies|
  {
    hide AllReadFrom, Committed;
    FirstReply(s, replies, start, excluded, held);
    hide Paged;
    if |replies| > 0 && replies[0].Page? {
      if start + |replies[0].rows| == replies[0].total {
        assert EndsAt(replies, start, 0);
      } else {
        var next := start + |replies[0].rows|;
        AnsweredPassCompletes(Committed(s, replies[0].rows, excluded), held, replies[1..], next, excluded);
        EndsLater(replies, start);
      }
    }
  }

  lemma EndsLater(replies: seq<Reply>, start: nat)
    requires |replies| > 0 && replies[0].Page? && start + |replies[0].rows| < replies[0].total
    ensures GetsToTheEnd(replies, start) <==> GetsToTheEnd(replies[1..], start + |replies[0].rows|)
  {
    var next := start + |replies[0].rows|;
    if n :| 0 <= n < |replies[1..]| && EndsAt(replies[1..], next, n) {
      assert EndsAt(replies, start, n + 1);
    }
    if n :| 0 <= n < |replies| && EndsAt(replies, start, n) {
      assert EndsAt(replies[1..], next, n - 1);
    }
  }

  ghost predicate GetsToTheEnd(replies: seq<Reply>, start: nat) {
    exists n :: 0 <= n < |replies| && EndsAt(replies, start, n)
  }

  /** The reply that got to the total it named, every one before it having answered with rows and fallen short. */
  predicate EndsAt(replies: seq<Reply>, start: nat, n: int)
    requires 0 <= n < |replies|
    decreases n
  {
    replies[0].Page?
    && if n == 0 then start + |replies[0].rows| == replies[0].total
       else start + |replies[0].rows| < replies[0].total && EndsAt(replies[1..], start + |replies[0].rows|, n - 1)
  }

  // ---------------------------------------------------------------- excluded libraries

  ghost predicate NoneOf(plays: map<int, Play>, section: string) {
    forall id | id in plays :: plays[id].section != Some(section)
  }

  /** A step that leaves a library out, or drops it, stores none of it. */
  predicate Skips(step: Step, section: string) {
    match step
    case Pass(_, _, excluded) => section in excluded
    case Purge(_, _) => true
  }

  lemma {:induction false} PagesSkip(s: Store, replies: seq<Reply>, start: nat, excluded: set<string>, section: string)
    requires NoneOf(s.plays, section) && section in excluded
    ensures NoneOf(Paged(s, replies, start, excluded).store.plays, section)
    decreases |replies|
  {
    hide Committed;
    if |replies| > 0 && replies[0].Page? {
      PageSkips(s, replies[0].rows, excluded, section);
      PagesSkip(Committed(s, replies[0].rows, excluded), replies[1..],
                start + if replies[0].size.Some? then replies[0].size.value else 0, excluded, section);
    }
  }

  lemma PageSkips(s: Store, rows: seq<Row>, excluded: set<string>, section: string)
    requires NoneOf(s.plays, section) && section in excluded
    ensures NoneOf(Committed(s, rows, excluded).plays, section)
  {
    InsertedMeans(s.plays, KeptOf(rows, excluded));
    hide Inserted, Entries;
  }

  lemma {:induction false} SkippedStaysOut(steps: seq<Step>, n: nat, section: string)
    requires n <= |steps| && NoneOf(Run(steps[..n]).store.plays, section)
    requires forall i | n <= i < |steps| :: Skips(steps[i], section)
    ensures NoneOf(Run(steps).store.plays, section)
    decreases |steps| - n
  {
    if n == |steps| {
      assert steps[..n] == steps;
    } else {
      var before, step := Run(steps[..n]), steps[n];
      assert steps[..n + 1][..n] == steps[..n] && steps[..n + 1][n] == step;
      assert Run(steps[..n + 1]) == Take(before, step);
      if step.Pass? {
        PagesSkip(before.store, step.replies, 0, step.excluded, section);
      }
      SkippedStaysOut(steps, n + 1, section);
    }
  }

  /** Once a library is purged, and every later pass leaves it out, none of its plays is stored again. */
  lemma PurgedStaysOut(steps: seq<Step>, n: nat, section: string)
    requires n < |steps| && steps[n].Purge? && section in steps[n].sections
    requires forall i | n < i < |steps| :: Skips(steps[i], section)
    ensures NoneOf(Run(steps).store.plays, section)
  {
    assert steps[..n + 1][..n] == steps[..n] && steps[..n + 1][n] == steps[n];
    assert Run(steps[..n + 1]) == Take(Run(steps[..n]), steps[n]);
    SkippedStaysOut(steps, n + 1, section);
  }
}
