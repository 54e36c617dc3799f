/**
 * One viewing is one play: a completion logged again before the item could have run through is the
 * viewing before it, marked once more. Every view of the plays reads what this keeps.
 */
module Viewings {
  import opened Options
  import opened PlayLedger

  datatype Quality = Sd | P720 | P1080 | K4

  /** A stored play; a server's history id names one of its plays. */
  datatype Viewing = Viewing(host: string, historyId: int, ratingKey: string, kind: Kind, title: string,
                             account: int, viewedAt: int)

  /** What the library knows of an item; an empty title counts as unknown. */
  datatype Known = Known(
    kind: Kind, title: string, parentKey: Option<string>, parentTitle: string, grandparentKey: Option<string>,
    grandparentTitle: string, year: Option<int>, quality: Option<Quality>, durationMs: Option<int>, present: bool)

  type ItemId = (string, string)

  function ItemOf(play: Viewing): ItemId {
    (play.host, play.ratingKey)
  }

  // ---------------------------------------------------------------- the play before

  predicate SameViewer(p: Viewing, q: Viewing) {
    ItemOf(p) == ItemOf(q) && p.account == q.account
  }

  /** The window's order; within one server it is total. */
  predicate Before(p: Viewing, q: Viewing) {
    p.viewedAt < q.viewedAt || (p.viewedAt == q.viewedAt && p.historyId < q.historyId)
  }

  predicate Earlier(p: Viewing, q: Viewing) {
    SameViewer(p, q) && Before(p, q)
  }

  /** `LAG(viewed_at)`: the row before by time in the partition, kept or not. */
  function Previous(plays: seq<Viewing>, play: Viewing): Option<Viewing> {
    if |plays| == 0 then None
    else
      var last := plays[|plays| - 1];
      var found := Previous(plays[..|plays| - 1], play);
      if Earlier(last, play) && (found.None? || Before(found.value, last)) then Some(last) else found
  }

  lemma {:induction false} PreviousMeans(plays: seq<Viewing>, play: Viewing)
    ensures var found := Previous(plays, play);
            && (found.Some? ==> found.value in plays && Earlier(found.value, play))
            && (forall q | q in plays && Earlier(q, play) :: found.Some? && !Before(found.value, q))
    decreases |plays|
  {
    if |plays| > 0 {
      var front, last := plays[..|plays| - 1], plays[|plays| - 1];
      assert plays == front + [last];
      PreviousMeans(front, play);
    }
  }

  // ---------------------------------------------------------------- what is kept

  function Runtime(items: map<ItemId, Known>, play: Viewing): Option<int> {
    if ItemOf(play) in items then items[ItemOf(play)].durationMs else None
  }

  predicate Counts(plays: seq<Viewing>, items: map<ItemId, Known>, play: Viewing) {
    var previous := Previous(plays, play);
    previous.None? || Runtime(items, play).None?
    || (play.viewedAt - previous.value.viewedAt) * 1000 >= Runtime(items, play).value
  }

  /** The base every view reads, before any filter. */
  function Viewed(plays: seq<Viewing>, items: map<ItemId, Known>): seq<Viewing> {
    Filter((play: Viewing) => Counts(plays, items, play), plays)
  }

  /** An earlier completion of the same item by the same viewer: instants in seconds, then the history id. */
  predicate SeenBefore(p: Viewing, q: Viewing) {
    && p.host == q.host && p.ratingKey == q.ratingKey && p.account == q.account
    && (p.viewedAt < q.viewedAt || (p.viewedAt == q.viewedAt && p.historyId < q.historyId))
  }

  /** The item's runtime, in milliseconds, when the library knows one. */
  predicate RunsFor(items: map<ItemId, Known>, play: Viewing, millis: int) {
    (play.host, play.ratingKey) in items && items[(play.host, play.ratingKey)].durationMs == Some(millis)
  }

  /** A play is kept exactly when each earlier one of the item by its viewer is at least the runtime behind it. */
  lemma KeptExactly(plays: seq<Viewing>, items: map<ItemId, Known>, q: Viewing)
    ensures q in Viewed(plays, items)
            <==> q in plays && forall p, millis | p in plays && SeenBefore(p, q) && RunsFor(items, q, millis) ::
                                 (q.viewedAt - p.viewedAt) * 1000 >= millis
  {
    PreviousMeans(plays, q);
    assert forall p :: Earlier(p, q) <==> SeenBefore(p, q);
    var previous := Previous(plays, q);
    if previous.Some? && Runtime(items, q).Some? {
      assert RunsFor(items, q, Runtime(items, q).value);
    }
    hide Previous;
  }

  /** Two kept plays of one item by one viewer are at least its runtime apart. */
  lemma KeptPlaysAreApart(plays: seq<Viewing>, items: map<ItemId, Known>, p: Viewing, q: Viewing, millis: int)
    requires p in Viewed(plays, items) && q in Viewed(plays, items) && SeenBefore(p, q) && RunsFor(items, q, millis)
    ensures (q.viewedAt - p.viewedAt) * 1000 >= millis
  {
    KeptExactly(plays, items, q);
  }

  /** A run of plays, each the one before the next and too soon for it, from a kept head to a given play. */
  ghost predicate Chain(plays: seq<Viewing>, items: map<ItemId, Known>, chain: seq<Viewing>, end: Viewing) {
    && |chain| > 0 && chain[|chain| - 1] == end
    && chain[0] in Viewed(plays, items)
    && forall i | 0 < i < |chain| :: Follows(plays, items, chain[i - 1], chain[i])
  }

  ghost predicate Follows(plays: seq<Viewing>, items: map<ItemId, Known>, earlier: Viewing, later: Viewing) {
    && Previous(plays, later) == Some(earlier)
    && exists millis :: RunsFor(items, later, millis) && (later.viewedAt - earlier.viewedAt) * 1000 < millis
  }

  /** A play that does not count follows the one before it. */
  lemma DroppedFollows(plays: seq<Viewing>, items: map<ItemId, Known>, play: Viewing)
    requires !Counts(plays, items, play)
    ensures Follows(plays, items, Previous(plays, play).value, play)
  {
    assert RunsFor(items, play, Runtime(items, play).value);
  }

  /** Every play leads back to a kept one through gaps shorter than the runtime. */
  lemma {:induction false} EveryPlayHasAHead(plays: seq<Viewing>, items: map<ItemId, Known>, play: Viewing)
    returns (chain: seq<Viewing>)
    requires play in plays
    ensures Chain(plays, items, chain, play)
    ensures SameViewer(chain[0], play)
    decreases |EarlierPlays(plays, play)|
  {
    if Counts(plays, items, play) {
      chain := [play];
    } else {
      PreviousMeans(plays, play);
      var previous := Previous(plays, play).value;
      FewerBefore(plays, previous, play);
      var front := EveryPlayHasAHead(plays, items, previous);
      DroppedFollows(plays, items, play);
      chain := front + [play];
      forall i | 0 < i < |chain| ensures Follows(plays, items, chain[i - 1], chain[i]) {
        if i < |front| {
          assert Follows(plays, items, front[i - 1], front[i]);
        }
      }
    }
  }

  ghost function EarlierPlays(plays: seq<Viewing>, play: Viewing): set<Viewing> {
    set q | q in plays && Earlier(q, play)
  }

  lemma FewerBefore(plays: seq<Viewing>, previous: Viewing, play: Viewing)
    requires previous in plays && Earlier(previous, play)
    ensures |EarlierPlays(plays, previous)| < |EarlierPlays(plays, play)|
  {
    var fewer, more := EarlierPlays(plays, previous), EarlierPlays(plays, play);
    assert fewer <= more - {previous};
    assert |more - {previous}| == |more| - 1;
    SubsetSize(fewer, more - {previous});
  }

  /** Counting the kept plays again keeps them all. */
  lemma DedupeIsIdempotent(plays: seq<Viewing>, items: map<ItemId, Known>)
    ensures Viewed(Viewed(plays, items), items) == Viewed(plays, items)
  {
    var kept := Viewed(plays, items);
    forall play | play in kept ensures Counts(kept, items, play) {
      PreviousMeans(kept, play);
      var previous := Previous(kept, play);
      if previous.Some? && Runtime(items, play).Some? {
        KeptPlaysAreApart(plays, items, previous.value, play, Runtime(items, play).value);
      }
    }
    AllKept((play: Viewing) => Counts(kept, items, play), kept);
  }

  lemma {:induction false} AllKept(keep: Viewing -> bool, plays: seq<Viewing>)
    requires forall play | play in plays :: keep(play)
    ensures Filter(keep, plays) == plays
    decreases |plays|
  {
    if |plays| > 0 {
      assert forall play | play in plays[1..] :: play in plays;
      AllKept(keep, plays[1..]);
      assert plays[0] in plays;
    }
  }

  /** An item has a kept play exactly when it has a play at all: no viewer's first is ever dropped. */
  lemma PlayedMeansViewed(plays: seq<Viewing>, items: map<ItemId, Known>, item: ItemId)
    ensures (exists play :: play in Viewed(plays, items) && ItemOf(play) == item)
            <==> (exists play :: play in plays && ItemOf(play) == item)
  {
    if play :| play in plays && ItemOf(play) == item {
      var chain := EveryPlayHasAHead(plays, items, play);
      assert ItemOf(chain[0]) == item;
    }
  }

  // ---------------------------------------------------------------- never played

  predicate InWindow(since: Option<int>, play: Viewing) {
    since.None? || play.viewedAt >= since.value
  }

  /** The `played` table: items with any play in the window, deduped or not. */
  function PlayedItems(plays: seq<Viewing>, since: Option<int>): set<ItemId> {
    set play | play in plays && InWindow(since, play) :: ItemOf(play)
  }

  /** What groups an item of the library: a film is itself, an episode its show, a track its album. */
  function LibraryGroup(item: ItemId, known: Known): Option<(string, Kind, string)> {
    match known.kind
    case Movie => Some((item.0, Movie, item.1))
    case Episode => if known.grandparentKey.Some? then Some((item.0, Episode, known.grandparentKey.value)) else None
    case Track => if known.parentKey.Some? then Some((item.0, Track, known.parentKey.value)) else None
  }

  predicate Candidate(items: map<ItemId, Known>, host: Option<string>, item: ItemId) {
    item in items && items[item].present && (host.None? || item.0 == host.value)
  }

  /** `unplayed`: groups of present items of which none was played in the window. */
  function Unplayed(plays: seq<Viewing>, items: map<ItemId, Known>, since: Option<int>,
                    host: Option<string>): set<(string, Kind, string)> {
    var played := PlayedItems(plays, since);
    set item | item in items && Candidate(items, host, item)
               && LibraryGroup(item, items[item]).Some?
               && (forall other | other in items && Candidate(items, host, other)
                                  && LibraryGroup(other, items[other]) == LibraryGroup(item, items[item]) ::
                                     other !in played)
      :: LibraryGroup(item, items[item]).value
  }

  ghost predicate InGroup(items: map<ItemId, Known>, host: Option<string>, item: ItemId,
                          group: (string, Kind, string)) {
    item in items && Candidate(items, host, item) && LibraryGroup(item, items[item]) == Some(group)
  }

  ghost predicate HasViewing(plays: seq<Viewing>, items: map<ItemId, Known>, since: Option<int>, item: ItemId) {
    exists play :: play in Viewed(plays, items) && InWindow(since, play) && ItemOf(play) == item
  }

  /** A group is unplayed exactly when it has present members and none of them was played. */
  lemma UnplayedMeans(plays: seq<Viewing>, items: map<ItemId, Known>, since: Option<int>, host: Option<string>,
                      group: (string, Kind, string))
    ensures group in Unplayed(plays, items, since, host)
            <==> (exists item :: InGroup(items, host, item, group))
                 && (forall item :: InGroup(items, host, item, group) ==> item !in PlayedItems(plays, since))
  {
    var played := PlayedItems(plays, since);
    hide PlayedItems, LibraryGroup, Candidate;
    if item :| InGroup(items, host, item, group) &&
               forall other :: InGroup(items, host, other, group) ==> other !in played {
      forall other | other in items && Candidate(items, host, other)
        && LibraryGroup(other, items[other]) == LibraryGroup(item, items[item])
        ensures other !in played
      {
        assert InGroup(items, host, other, group);
      }
    }
    if group in Unplayed(plays, items, since, host) {
      var item :| item in items && Candidate(items, host, item) && LibraryGroup(item, items[item]) == Some(group)
                  && forall other | other in items && Candidate(items, host, other)
                       && LibraryGroup(other, items[other]) == LibraryGroup(item, items[item]) :: other !in played;
      assert InGroup(items, host, item, group);
    }
  }

  /**
   * Over all time the never-played list and the plays complement each other: a group of the library is
   * listed exactly when no member has a play in the base the ranked views read.
   */
  lemma NeverPlayedComplementsPlays(plays: seq<Viewing>, items: map<ItemId, Known>, host: Option<string>,
                                    group: (string, Kind, string))
    requires exists item :: InGroup(items, host, item, group)
    ensures group in Unplayed(plays, items, None, host)
            <==> forall item :: InGroup(items, host, item, group) ==> !HasViewing(plays, items, None, item)
  {
    UnplayedMeans(plays, items, None, host, group);
    forall item ensures item in PlayedItems(plays, None) <==> HasViewing(plays, items, None, item) {
      PlayedMeansViewed(plays, items, item);
      if HasViewing(plays, items, None, item) {
        var play :| play in Viewed(plays, items) && ItemOf(play) == item;
      }
      if item in PlayedItems(plays, None) {
        var play :| play in plays && ItemOf(play) == item;
      }
    }
  }

  // ---------------------------------------------------------------- inside a window

  /** Every play of the item in the window marks a viewing again that an earlier play began. */
  ghost predicate OnlyRemarked(plays: seq<Viewing>, items: map<ItemId, Known>, since: int, item: ItemId) {
    forall play | play in plays && InWindow(Some(since), play) && ItemOf(play) == item ::
      exists earlier :: Follows(plays, items, earlier, play)
  }

  /** An item has no viewing in a window exactly when every play of it there only remarks an earlier one. */
  lemma ViewingsInWindow(plays: seq<Viewing>, items: map<ItemId, Known>, since: int, item: ItemId)
    ensures HasViewing(plays, items, Some(since), item) <==> !OnlyRemarked(plays, items, since, item)
  {
    forall play | play in plays
      ensures Counts(plays, items, play) <==> forall earlier :: !Follows(plays, items, earlier, play) {
      if !Counts(plays, items, play) {
        DroppedFollows(plays, items, play);
      }
    }
    hide Counts, Follows;
  }

  /**
   * Inside a window the two lists need not complement each other. They fail for a group exactly when a
   * member was played there and every play there of every member only remarks an earlier one.
   */
  lemma WindowBreaksTheComplement(plays: seq<Viewing>, items: map<ItemId, Known>, since: int, host: Option<string>,
                                  group: (string, Kind, string))
    requires exists item :: InGroup(items, host, item, group)
    ensures var listed := group in Unplayed(plays, items, Some(since), host);
            var unviewed := forall item ::
                            InGroup(items, host, item, group) ==> !HasViewing(plays, items, Some(since), item);
            (listed != unviewed)
            <==> (exists item :: InGroup(items, host, item, group) && item in PlayedItems(plays, Some(since)))
                 && (forall item :: InGroup(items, host, item, group) ==> OnlyRemarked(plays, items, since, item))
  {
    UnplayedMeans(plays, items, Some(since), host, group);
    forall item
      ensures HasViewing(plays, items, Some(since), item) <==> !OnlyRemarked(plays, items, since, item)
      ensures HasViewing(plays, items, Some(since), item) ==> item in PlayedItems(plays, Some(since))
    {
      ViewingsInWindow(plays, items, since, item);
    }
    hide Unplayed, InGroup, PlayedItems, HasViewing, OnlyRemarked;
  }

  const FILM: ItemId := ("h", "k")

  /** A film of 100 seconds, marked at 0 and again at 50, read from 10 on. */
  function MarkedTwice(): seq<Viewing> {
    [Viewing("h", 1, "k", Movie, "t", 1, 0), Viewing("h", 2, "k", Movie, "t", 1, 50)]
  }

  function OneFilm(): map<ItemId, Known> {
    map[FILM := Known(Movie, "t", None, "", None, "", None, None, Some(100_000), true)]
  }

  /** It was played there, has no viewing there, and is not listed as never played. */
  lemma MarkedTwiceIsNowhere()
    ensures FILM in PlayedItems(MarkedTwice(), Some(10))
    ensures !HasViewing(MarkedTwice(), OneFilm(), Some(10), FILM)
    ensures InGroup(OneFilm(), None, FILM, ("h", Movie, "k"))
    ensures ("h", Movie, "k") !in Unplayed(MarkedTwice(), OneFilm(), Some(10), None)
  {
    var plays, items := MarkedTwice(), OneFilm();
    OnlyTheSecondMark(plays[1]);
    SecondMarkFollows();
    ViewingsInWindow(plays, items, 10, FILM);
    UnplayedMeans(plays, items, Some(10), None, ("h", Movie, "k"));
    assert InGroup(items, None, FILM, ("h", Movie, "k"));
    hide Unplayed, HasViewing, Follows, MarkedTwice, PlayedItems, InGroup;
  }

  lemma OnlyTheSecondMark(second: Viewing)
    requires second == MarkedTwice()[1]
    ensures ItemOf(second) == FILM && FILM in PlayedItems(MarkedTwice(), Some(10))
    ensures forall play | play in MarkedTwice() && InWindow(Some(10), play) :: play == second
  {
    assert second in MarkedTwice();
  }

  lemma SecondMarkFollows()
    ensures Follows(MarkedTwice(), OneFilm(), MarkedTwice()[0], MarkedTwice()[1])
  {
    var plays := MarkedTwice();
    assert plays[..1] == [plays[0]];
    assert Previous(plays, plays[1]) == Some(plays[0]);
    assert RunsFor(OneFilm(), plays[1], 100_000);
  }

  /** A play lost so has a kept head from before the window, led to through markings each too soon after the last. */
  lemma LostPlaysBeganEarlier(plays: seq<Viewing>, items: map<ItemId, Known>, since: int, play: Viewing)
    returns (chain: seq<Viewing>)
    requires play in plays && InWindow(Some(since), play) && OnlyRemarked(plays, items, since, ItemOf(play))
    ensures Chain(plays, items, chain, play)
    ensures ItemOf(chain[0]) == ItemOf(play) && chain[0].viewedAt < since
  {
    chain := EveryPlayHasAHead(plays, items, play);
    ViewingsInWindow(plays, items, since, ItemOf(play));
  }
}
