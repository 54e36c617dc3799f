/** What the plays page adds up, and that its parts agree: every total is the sum of its groups. */
module PlayViews {
  import opened Options
  import opened PlayLedger
  import opened Text
  import opened Viewings

  // ---------------------------------------------------------------- counting by a key

  /** `GROUP BY`'s keys, in the order they are first met. */
  function Distinct<R, K(==)>(key: R -> K, rows: seq<R>): seq<K> {
    if |rows| == 0 then []
    else
      var front := Distinct(key, rows[..|rows| - 1]);
      if key(rows[|rows| - 1]) in front then front else front + [key(rows[|rows| - 1])]
  }

  /** `COUNT(*)` of one group. */
  function Count<R, K(==)>(key: R -> K, rows: seq<R>, group: K): nat {
    if |rows| == 0 then 0
    else Count(key, rows[..|rows| - 1], group) + if key(rows[|rows| - 1]) == group then 1 else 0
  }

  function CountOf<R, K(==)>(key: R -> K, rows: seq<R>): K -> int {
    (k: K) => Count(key, rows, k)
  }

  /** How often a group comes again after its first time. */
  function RepeatsOf<R, K(==)>(key: R -> K, rows: seq<R>): K -> int {
    (k: K) => Count(key, rows, k) - 1
  }

  function Sum<K>(of: K -> int, keys: seq<K>): int {
    if |keys| == 0 then 0 else Sum(of, keys[..|keys| - 1]) + of(keys[|keys| - 1])
  }

  ghost predicate NoRepeat<K(!new)>(keys: seq<K>) {
    forall i, j | 0 <= i < j < |keys| :: keys[i] != keys[j]
  }

  lemma {:induction false} DistinctMeans<R, K(!new)>(key: R -> K, rows: seq<R>)
    ensures NoRepeat(Distinct(key, rows))
    ensures forall row | row in rows :: key(row) in Distinct(key, rows)
    ensures forall group | group in Distinct(key, rows) :: exists i :: 0 <= i < |rows| && key(rows[i]) == group
    ensures |Distinct(key, rows)| <= |rows|
    decreases |rows|
  {
    if |rows| > 0 {
      var front, last := rows[..|rows| - 1], rows[|rows| - 1];
      assert rows == front + [last];
      DistinctMeans(key, front);
      forall group | group in Distinct(key, rows) ensures exists i :: 0 <= i < |rows| && key(rows[i]) == group {
        if group in Distinct(key, front) {
          var i :| 0 <= i < |front| && key(front[i]) == group;
          assert rows[i] == front[i];
        } else {
          assert key(rows[|rows| - 1]) == group;
        }
      }
    }
  }

  lemma {:induction false} SumOfZeros<K>(of: K -> int, keys: seq<K>)
    requires forall key | key in keys :: of(key) == 0
    ensures Sum(of, keys) == 0
    decreases |keys|
  {
    if |keys| > 0 {
      var front := keys[..|keys| - 1];
      assert keys[|keys| - 1] in keys && forall key | key in front :: key in keys;
      SumOfZeros(of, front);
    }
  }

  /** One more row raises the count of its own group by one, and the sum with it if the group is listed. */
  lemma {:induction false} SumGrows<R, K(!new)>(key: R -> K, front: seq<R>, row: R, keys: seq<K>)
    requires NoRepeat(keys)
    ensures Sum(CountOf(key, front + [row]), keys)
            == Sum(CountOf(key, front), keys) + if key(row) in keys then 1 else 0
    decreases |keys|
  {
    assert (front + [row])[..|front|] == front;
    if |keys| > 0 {
      var rest, last := keys[..|keys| - 1], keys[|keys| - 1];
      assert keys == rest + [last];
      SumGrows(key, front, row, rest);
      assert last !in rest;
    }
  }

  /** Counts over keys that do not repeat add up to the rows they list. */
  lemma {:induction false} CountsAddUp<R, K(!new)>(key: R -> K, rows: seq<R>, keys: seq<K>)
    requires NoRepeat(keys)
    ensures 0 <= Sum(CountOf(key, rows), keys) <= |rows|
    ensures Sum(CountOf(key, rows), keys) == |rows| <==> forall row | row in rows :: key(row) in keys
    decreases |rows|
  {
    if |rows| == 0 {
      SumOfZeros(CountOf(key, rows), keys);
    } else {
      var front, last := rows[..|rows| - 1], rows[|rows| - 1];
      assert rows == front + [last];
      CountsAddUp(key, front, keys);
      SumGrows(key, front, last, keys);
    }
  }

  /** Every total is the sum of its groups. */
  lemma GroupsAddUp<R, K(!new)>(key: R -> K, rows: seq<R>)
    ensures Sum(CountOf(key, rows), Distinct(key, rows)) == |rows|
  {
    DistinctMeans(key, rows);
    CountsAddUp(key, rows, Distinct(key, rows));
  }

  // ---------------------------------------------------------------- the columns of the base

  datatype Bucket = In4k | In1080p | In720p | InOther
  datatype Filters = Filters(since: Option<int>, host: Option<string>, kind: Option<Kind>, quality: Option<Bucket>)

  type Library = map<ItemId, Known>

  /** A label's place on the ladder; none ranks below every one. */
  function RankOf(quality: Option<Quality>): nat {
    match quality
    case None => 0
    case Some(Sd) => 1
    case Some(P720) => 2
    case Some(P1080) => 3
    case Some(K4) => 4
  }

  const OTHER_RANK_MAX := 1

  function BucketOf(rank: nat): Bucket {
    if rank == 4 then In4k else if rank == 3 then In1080p else if rank == 2 then In720p else InOther
  }

  function QualityOf(items: Library, play: Viewing): Option<Quality> {
    if ItemOf(play) in items then items[ItemOf(play)].quality else None
  }

  function Label(bucket: Bucket): Option<Quality> {
    match bucket
    case In4k => Some(K4)
    case In1080p => Some(P1080)
    case In720p => Some(P720)
    case InOther => None
  }

  /** `conditions`: "other" says it is about video, a named quality only compares the item's label. */
  predicate PassesQuality(items: Library, quality: Option<Bucket>, play: Viewing) {
    match quality
    case None => true
    case Some(InOther) => play.kind != Track && RankOf(QualityOf(items, play)) <= OTHER_RANK_MAX
    case Some(named) => QualityOf(items, play) == Label(named)
  }

  predicate Passes(items: Library, f: Filters, play: Viewing) {
    && InWindow(f.since, play)
    && (f.host.Some? ==> play.host == f.host.value)
    && (f.kind.Some? ==> play.kind == f.kind.value)
    && PassesQuality(items, f.quality, play)
  }

  /** `baseTable`: the plays a request asks for, a viewing logged twice counted once. */
  function Base(plays: seq<Viewing>, items: Library, f: Filters): seq<Viewing> {
    Filter((play: Viewing) => Passes(items, f, play) && Counts(plays, items, play), plays)
  }

  function Titled(title: string, other: string): string {
    if title != "" then title else other
  }

  /** An item whose show, album or own title is not known stands alone. */
  function GroupKey(items: Library, year: int -> string, play: Viewing): string {
    var alone := "item:" + play.host + ":" + play.ratingKey;
    var known := if ItemOf(play) in items then Some(items[ItemOf(play)]) else None;
    match play.kind
    case Movie =>
      var title := Titled(if known.Some? then known.value.title else "", play.title);
      if title == "" then alone
      else "movie:" + Lower(title) + ":" + if known.Some? && known.value.year.Some? then year(known.value.year.value)
        else ""
    case Episode =>
      if known.None? || known.value.grandparentTitle == "" then alone else "show:" + Lower(known.value.grandparentTitle)
    case Track =>
      if known.None? || known.value.parentTitle == "" then alone
      else "album:" + Lower(known.value.parentTitle) + ":" + Lower(known.value.grandparentTitle)
  }

  /** A group that is not a lone item holds plays of one kind. */
  lemma GroupsHoldOneKind(items: Library, year: int -> string, p: Viewing, q: Viewing)
    requires GroupKey(items, year, p) == GroupKey(items, year, q) && !StartsWith(GroupKey(items, year, p), "item:")
    ensures p.kind == q.kind
  {
    var key := GroupKey(items, year, p);
    assert p.kind == Movie ==> key[0] == 'm';
    assert q.kind == Movie ==> key[0] == 'm';
    assert p.kind == Episode ==> key[0] == 's';
    assert q.kind == Episode ==> key[0] == 's';
    assert p.kind == Track ==> key[0] == 'a';
    assert q.kind == Track ==> key[0] == 'a';
  }

  // ---------------------------------------------------------------- the overview

  datatype Point = Point(start: string, plays: nat)

  datatype Overview = Overview(
    plays: nat, titles: nat, viewers: nat,
    byKind: map<Kind, nat>, byQuality: map<Bucket, nat>, byHost: seq<nat>, timeline: seq<Point>)

  function KindOf(play: Viewing): Kind { play.kind }
  function AccountOf(play: Viewing): int { play.account }
  function HostOf(play: Viewing): string { play.host }

  function Videos(rows: seq<Viewing>): seq<Viewing> {
    Filter((play: Viewing) => play.kind != Track, rows)
  }

  function PlayBucket(items: Library): Viewing -> Bucket {
    (play: Viewing) => BucketOf(RankOf(QualityOf(items, play)))
  }

  /** A start's plays, one host after another: the groups of (start, host) that have it. */
  function PointAt(slot: Viewing -> string, rows: seq<Viewing>, start: string): Point {
    var cell := Full(slot, HostOf);
    var cells := Scoped(GroupPart, Distinct(cell, rows), start);
    var plays := Sum(CountOf(cell, rows), cells);
    Point(start, if plays < 0 then 0 else plays)
  }

  function OverviewOf(items: Library, year: int -> string, slot: Viewing -> string, hosts: seq<string>,
                      rows: seq<Viewing>): Overview {
    var starts := Distinct(slot, rows);
    Overview(
      |rows|,
      |Distinct((play: Viewing) => GroupKey(items, year, play), rows)|,
      |Distinct(AccountOf, rows)|,
      map[Movie := Count(KindOf, rows, Movie), Episode := Count(KindOf, rows, Episode),
          Track := Count(KindOf, rows, Track)],
      map bucket | bucket in {In4k, In1080p, In720p, InOther} :: Count(PlayBucket(items), Videos(rows), bucket),
      seq(|hosts|, i requires 0 <= i < |hosts| => Count(HostOf, rows, hosts[i])),
      seq(|starts|, i requires 0 <= i < |starts| => PointAt(slot, rows, starts[i])))
  }

  lemma {:induction false} SumSame<K>(p: K -> int, q: K -> int, keys: seq<K>)
    requires forall key | key in keys :: p(key) == q(key)
    ensures Sum(p, keys) == Sum(q, keys)
    decreases |keys|
  {
    if |keys| > 0 {
      var front := keys[..|keys| - 1];
      assert keys[|keys| - 1] in keys && forall key | key in front :: key in keys;
      SumSame(p, q, front);
    }
  }

  // ---------------------------------------------------------------- groups inside groups

  /** The rows of one group. */
  function Scoped<R(!new), G(==)>(group: R -> G, rows: seq<R>, g: G): seq<R> {
    Filter((row: R) => group(row) == g, rows)
  }

  function GroupPart<G, S>(pair: (G, S)): G { pair.0 }

  function Pairs<G, S>(g: G, keys: seq<S>): (pairs: seq<(G, S)>)
    ensures |pairs| == |keys| && forall i | 0 <= i < |keys| :: pairs[i] == (g, keys[i])
  {
    seq(|keys|, i requires 0 <= i < |keys| => (g, keys[i]))
  }

  function Full<R, G, S>(group: R -> G, sub: R -> S): R -> (G, S) {
    (row: R) => (group(row), sub(row))
  }

  lemma ScopedSnoc<R(!new), G>(group: R -> G, rows: seq<R>, row: R, g: G)
    ensures Scoped(group, rows + [row], g)
            == if group(row) == g then Scoped(group, rows, g) + [row] else Scoped(group, rows, g)
  {
    FilterSnoc((r: R) => group(r) == g, rows, row);
    assert Scoped(group, rows, g) + [] == Scoped(group, rows, g);
  }

  /** Grouping by two keys and keeping one group is keeping the group and grouping by the other key. */
  lemma {:induction false} CountScoped<R(!new), G(!new), S(!new)>(group: R -> G, sub: R -> S, rows: seq<R>, g: G, s: S)
    ensures Count(Full(group, sub), rows, (g, s)) == Count(sub, Scoped(group, rows, g), s)
    decreases |rows|
  {
    if |rows| > 0 {
      var front, last := rows[..|rows| - 1], rows[|rows| - 1];
      assert rows == front + [last];
      CountScoped(group, sub, front, g, s);
      ScopedSnoc(group, front, last, g);
      var scoped := Scoped(group, front, g);
      assert (scoped + [last])[..|scoped|] == scoped;
    }
  }

  lemma {:induction false} DistinctScoped<R(!new), G(!new), S(!new)>(group: R -> G, sub: R -> S, rows: seq<R>, g: G)
    ensures Scoped(GroupPart, Distinct(Full(group, sub), rows), g) == Pairs(g, Distinct(sub, Scoped(group, rows, g)))
    decreases |rows|
  {
    if |rows| > 0 {
      var front, last := rows[..|rows| - 1], rows[|rows| - 1];
      var first := GroupPart;
      assert rows == front + [last];
      DistinctScoped(group, sub, front, g);
      ScopedSnoc(group, front, last, g);
      var scoped, distinct := Scoped(group, front, g), Distinct(Full(group, sub), front);
      ScopedSnoc(first, distinct, (group(last), sub(last)), g);
      assert (scoped + [last])[..|scoped|] == scoped;
      OneMorePair(group, sub, front, last, g);
    }
  }

  lemma OneMorePair<R(!new), G(!new), S(!new)>(group: R -> G, sub: R -> S, front: seq<R>, last: R, g: G)
    requires Scoped(GroupPart, Distinct(Full(group, sub), front), g) == Pairs(g, Distinct(sub, Scoped(group, front, g)))
    ensures group(last) == g ==>
              ((g, sub(last)) in Distinct(Full(group, sub), front)
               <==> sub(last) in Distinct(sub, Scoped(group, front, g)))
  {
    var distinct, keys := Distinct(Full(group, sub), front), Distinct(sub, Scoped(group, front, g));
    var pairs := Pairs(g, keys);
    assert forall s :: (g, s) in pairs <==> s in keys by {
      forall s | s in keys ensures (g, s) in pairs {
        var i :| 0 <= i < |keys| && keys[i] == s;
        assert pairs[i] == (g, s);
      }
    }
    assert forall k :: k in Scoped(GroupPart, distinct, g) <==> k in distinct && GroupPart(k) == g;
    assert (g, sub(last)) in distinct <==> (g, sub(last)) in pairs;
  }

  // ---------------------------------------------------------------- ranked titles and one title's page

  /** What one viewer's plays of one item are grouped by. */
  function ViewerItem(play: Viewing): (int, ItemId) {
    (play.account, ItemOf(play))
  }

  /** `MAX` of a column over rows, and over the rows of one group. */
  function Highest(column: Viewing -> int, rows: seq<Viewing>): Option<int> {
    if |rows| == 0 then None
    else
      var front, last := Highest(column, rows[..|rows| - 1]), column(rows[|rows| - 1]);
      if front.Some? && front.value > last then front else Some(last)
  }

  /** It is the column of some row and of no row exceeded, and there is none only of no rows. */
  lemma {:induction false} HighestMeans(column: Viewing -> int, rows: seq<Viewing>)
    ensures var highest := Highest(column, rows);
            && (highest.None? <==> rows == [])
            && (highest.Some? ==> exists row :: row in rows && column(row) == highest.value)
            && (forall row | row in rows :: highest.Some? && column(row) <= highest.value)
    decreases |rows|
  {
    if |rows| > 0 {
      var front, last := rows[..|rows| - 1], rows[|rows| - 1];
      assert rows == front + [last];
      HighestMeans(column, front);
      assert last in rows && forall row | row in front :: row in rows;
    }
  }

  function HighestIn<G(==)>(column: Viewing -> int, group: Viewing -> G, rows: seq<Viewing>, g: G): Option<int> {
    if |rows| == 0 then None
    else
      var front, last := HighestIn(column, group, rows[..|rows| - 1], g), rows[|rows| - 1];
      if group(last) != g || (front.Some? && front.value > column(last)) then front else Some(column(last))
  }

  function ViewedAt(play: Viewing): int { play.viewedAt }

  function PlayRank(items: Library): Viewing -> int {
    (play: Viewing) => RankOf(QualityOf(items, play))
  }

  function Seconds<G, S>(pairs: seq<(G, S)>): (seconds: seq<S>)
    ensures |seconds| == |pairs|
  {
    seq(|pairs|, i requires 0 <= i < |pairs| => pairs[i].1)
  }

  datatype Figures = Figures(
    plays: nat, viewers: nat, items: nat, rewatches: int, latest: Option<int>, quality: Option<int>, hosts: seq<string>)

  /** A ranked row: one group's figures out of aggregates over the whole base. */
  function Ranked(items: Library, group: Viewing -> string, rows: seq<Viewing>, g: string): Figures {
    var perItem := Full(group, ViewerItem);
    Figures(
      Count(group, rows, g),
      |Scoped(GroupPart, Distinct(Full(group, AccountOf), rows), g)|,
      |Scoped(GroupPart, Distinct(Full(group, ItemOf), rows), g)|,
      Sum(RepeatsOf(perItem, rows),
          Scoped(GroupPart, Distinct(perItem, rows), g)),
      HighestIn(ViewedAt, group, rows, g),
      HighestIn(PlayRank(items), group, rows, g),
      Seconds(Scoped(GroupPart, Distinct(Full(group, HostOf), rows), g)))
  }

  /** The same title's own page, which aggregates the rows of the group alone. */
  function TitlePage(items: Library, scoped: seq<Viewing>): Figures {
    Figures(
      |scoped|,
      |Distinct(AccountOf, scoped)|,
      |Distinct(ItemOf, scoped)|,
      Sum(RepeatsOf(ViewerItem, scoped), Distinct(ViewerItem, scoped)),
      Highest(ViewedAt, scoped),
      Highest(PlayRank(items), scoped),
      Distinct(HostOf, scoped))
  }

  lemma {:induction false} RepeatsAddUp<R, K(!new)>(key: R -> K, rows: seq<R>, keys: seq<K>)
    ensures Sum(RepeatsOf(key, rows), keys) == Sum(CountOf(key, rows), keys) - |keys|
    decreases |keys|
  {
    if |keys| > 0 {
      RepeatsAddUp(key, rows, keys[..|keys| - 1]);
    }
  }

  /** Rewatches are the plays left when each viewer's first of each item is taken out. */
  lemma RewatchesAreRepeats(items: Library, rows: seq<Viewing>)
    ensures TitlePage(items, rows).rewatches == |rows| - |Distinct(ViewerItem, rows)|
    ensures TitlePage(items, rows).rewatches >= 0
  {
    RepeatsAddUp(ViewerItem, rows, Distinct(ViewerItem, rows));
    GroupsAddUp(ViewerItem, rows);
    DistinctMeans(ViewerItem, rows);
  }

  lemma {:induction false} SumOverPairs<G, S>(of: ((G, S)) -> int, each: S -> int, g: G, keys: seq<S>)
    requires forall s | s in keys :: of((g, s)) == each(s)
    ensures Sum(of, Pairs(g, keys)) == Sum(each, keys)
    decreases |keys|
  {
    if |keys| > 0 {
      var front := keys[..|keys| - 1];
      assert keys[|keys| - 1] in keys && forall key | key in front :: key in keys;
      assert Pairs(g, keys)[..|keys| - 1] == Pairs(g, front);
      SumOverPairs(of, each, g, front);
    }
  }

  lemma {:induction false} CountIsLength<G(!new)>(group: Viewing -> G, rows: seq<Viewing>, g: G)
    ensures Count(group, rows, g) == |Scoped(group, rows, g)|
    decreases |rows|
  {
    if |rows| > 0 {
      var front, last := rows[..|rows| - 1], rows[|rows| - 1];
      assert rows == front + [last];
      CountIsLength(group, front, g);
      ScopedSnoc(group, front, last, g);
    }
  }

  lemma {:induction false} HighestScoped<G(!new)>(column: Viewing -> int, group: Viewing -> G, rows: seq<Viewing>, g: G)
    ensures HighestIn(column, group, rows, g) == Highest(column, Scoped(group, rows, g))
    decreases |rows|
  {
    if |rows| > 0 {
      var front, last := rows[..|rows| - 1], rows[|rows| - 1];
      assert rows == front + [last];
      HighestScoped(column, group, front, g);
      ScopedSnoc(group, front, last, g);
      HighestSnoc(column, Scoped(group, front, g), last);
      hide Scoped, Highest;
    }
  }

  lemma HighestSnoc(column: Viewing -> int, rows: seq<Viewing>, last: Viewing)
    ensures var front := Highest(column, rows);
            Highest(column, rows + [last])
            == if front.Some? && front.value > column(last) then front else Some(column(last))
  {
    assert (rows + [last])[..|rows|] == rows;
  }

  lemma RewatchesAgree(items: Library, group: Viewing -> string, rows: seq<Viewing>, g: string)
    ensures Ranked(items, group, rows, g).rewatches == TitlePage(items, Scoped(group, rows, g)).rewatches
  {
    var scoped, perItem := Scoped(group, rows, g), Full(group, ViewerItem);
    DistinctScoped(group, ViewerItem, rows, g);
    forall s | s in Distinct(ViewerItem, scoped)
      ensures RepeatsOf(perItem, rows)((g, s)) == RepeatsOf(ViewerItem, scoped)(s) {
      CountScoped(group, ViewerItem, rows, g, s);
    }
    SumOverPairs(RepeatsOf(perItem, rows), RepeatsOf(ViewerItem, scoped), g, Distinct(ViewerItem, scoped));
  }

  /** A title's page shows the figures its ranked row shows, its best quality and its servers among them. */
  lemma TitlePageAgrees(items: Library, group: Viewing -> string, rows: seq<Viewing>, g: string)
    ensures TitlePage(items, Scoped(group, rows, g)) == Ranked(items, group, rows, g)
  {
    CountIsLength(group, rows, g);
    HighestScoped(ViewedAt, group, rows, g);
    HighestScoped(PlayRank(items), group, rows, g);
    DistinctScoped(group, AccountOf, rows, g);
    DistinctScoped(group, ItemOf, rows, g);
    DistinctScoped(group, HostOf, rows, g);
    RewatchesAgree(items, group, rows, g);
    hide Distinct, Scoped, Count, Sum, Highest, HighestIn, PlayRank;
    assert Seconds(Pairs(g, Distinct(HostOf, Scoped(group, rows, g)))) == Distinct(HostOf, Scoped(group, rows, g));
  }

  // ---------------------------------------------------------------- conservation

  lemma {:induction false} CountSame<R, K(!new), J(!new)>(key: R -> K, other: R -> J, rows: seq<R>, k: K, j: J)
    requires forall row | row in rows :: key(row) == k <==> other(row) == j
    ensures Count(key, rows, k) == Count(other, rows, j)
    decreases |rows|
  {
    if |rows| > 0 {
      var front, last := rows[..|rows| - 1], rows[|rows| - 1];
      assert rows == front + [last];
      CountSame(key, other, front, k, j);
    }
  }

  lemma FourAddUp(key: Viewing -> Bucket, rows: seq<Viewing>)
    ensures Count(key, rows, In4k) + Count(key, rows, In1080p) + Count(key, rows, In720p) + Count(key, rows, InOther)
            == |rows|
  {
    var keys := [In4k, In1080p, In720p, InOther];
    CountsAddUp(key, rows, keys);
    assert keys[..3] == [In4k, In1080p, In720p] && keys[..3][..2] == [In4k, In1080p] && keys[..3][..2][..1] == [In4k];
    assert keys[..3][..2][..1][..0] == [];
    assert forall row | row in rows ::
           key(row) == keys[0] || key(row) == keys[1] || key(row) == keys[2] || key(row) == keys[3];
  }

  lemma KindsAddUp(rows: seq<Viewing>)
    ensures Count(KindOf, rows, Movie) + Count(KindOf, rows, Episode) + Count(KindOf, rows, Track) == |rows|
  {
    var keys := [Movie, Episode, Track];
    CountsAddUp(KindOf, rows, keys);
    assert keys[..2] == [Movie, Episode] && keys[..2][..1] == [Movie] && keys[..2][..1][..0] == [];
    assert forall row | row in rows :: KindOf(row) == keys[0] || KindOf(row) == keys[1] || KindOf(row) == keys[2];
  }

  lemma PointCounts(slot: Viewing -> string, rows: seq<Viewing>, start: string)
    ensures PointAt(slot, rows, start) == Point(start, Count(slot, rows, start))
  {
    var scoped, cell := Scoped(slot, rows, start), Full(slot, HostOf);
    DistinctScoped(slot, HostOf, rows, start);
    forall host | host in Distinct(HostOf, scoped)
      ensures CountOf(cell, rows)((start, host)) == CountOf(HostOf, scoped)(host) {
      CountScoped(slot, HostOf, rows, start, host);
    }
    SumOverPairs(CountOf(cell, rows), CountOf(HostOf, scoped), start, Distinct(HostOf, scoped));
    GroupsAddUp(HostOf, scoped);
    CountIsLength(slot, rows, start);
  }

  function PointPlays(points: seq<Point>): nat {
    if |points| == 0 then 0 else PointPlays(points[..|points| - 1]) + points[|points| - 1].plays
  }

  lemma {:induction false} PointsSum(slot: Viewing -> string, rows: seq<Viewing>, starts: seq<string>,
                                     points: seq<Point>)
    requires |points| == |starts| && forall i | 0 <= i < |starts| :: points[i] == PointAt(slot, rows, starts[i])
    ensures PointPlays(points) == Sum(CountOf(slot, rows), starts)
    decreases |starts|
  {
    if |starts| > 0 {
      var front := starts[..|starts| - 1];
      PointsSum(slot, rows, front, points[..|starts| - 1]);
      PointCounts(slot, rows, starts[|starts| - 1]);
    }
  }

  /** The chart loses no play: its points add up to the total, whatever the buckets are. */
  lemma TimelineAddsUp(items: Library, year: int -> string, slot: Viewing -> string, hosts: seq<string>,
                       rows: seq<Viewing>)
    ensures PointPlays(OverviewOf(items, year, slot, hosts, rows).timeline) == |rows|
  {
    hide PointAt, Distinct;
    PointsSum(slot, rows, Distinct(slot, rows), OverviewOf(items, year, slot, hosts, rows).timeline);
    GroupsAddUp(slot, rows);
  }

  /** Kinds and video qualities partition what they cover; hosts do exactly when every play's host is listed. */
  lemma OverviewAddsUp(items: Library, year: int -> string, slot: Viewing -> string, hosts: seq<string>,
                       rows: seq<Viewing>)
    requires NoRepeat(hosts)
    ensures var o := OverviewOf(items, year, slot, hosts, rows);
            && o.byKind[Movie] + o.byKind[Episode] + o.byKind[Track] == o.plays
            && o.byQuality[In4k] + o.byQuality[In1080p] + o.byQuality[In720p] + o.byQuality[InOther] == |Videos(rows)|
            && o.byKind[Movie] + o.byKind[Episode] == |Videos(rows)|
            && (Sum((i: int) => if 0 <= i < |o.byHost| then o.byHost[i] else 0, seq(|hosts|, i => i)) == o.plays
                <==> forall row | row in rows :: row.host in hosts)
  {
    hide PointAt, Distinct, PlayBucket;
    var o := OverviewOf(items, year, slot, hosts, rows);
    KindsAddUp(rows);
    FourAddUp(PlayBucket(items), Videos(rows));
    VideosAre(rows);
    HostsSum(rows, hosts, o.byHost);
    CountsAddUp(HostOf, rows, hosts);
  }

  function KeysIn<R(==), K(==)>(key: R -> K, rows: seq<R>): set<K> {
    set row | row in rows :: key(row)
  }

  /** As many groups as there are different keys. */
  lemma {:induction false} DistinctCounts<R, K(!new)>(key: R -> K, rows: seq<R>)
    ensures |Distinct(key, rows)| == |KeysIn(key, rows)|
    decreases |rows|
  {
    if |rows| > 0 {
      var front, last := rows[..|rows| - 1], rows[|rows| - 1];
      assert rows == front + [last];
      DistinctCounts(key, front);
      DistinctMeans(key, front);
      assert KeysIn(key, rows) == KeysIn(key, front) + {key(last)};
    }
  }

  /** Titles and viewers are counted once each. */
  lemma OverviewCounts(items: Library, year: int -> string, slot: Viewing -> string, hosts: seq<string>,
                       rows: seq<Viewing>)
    ensures var o := OverviewOf(items, year, slot, hosts, rows);
            && o.titles == |set row | row in rows :: GroupKey(items, year, row)|
            && o.viewers == |set row | row in rows :: row.account|
  {
    hide PointAt, Distinct, PlayBucket, GroupKey;
    var title := (play: Viewing) => GroupKey(items, year, play);
    DistinctCounts(title, rows);
    DistinctCounts(AccountOf, rows);
    assert KeysIn(title, rows) == set row | row in rows :: GroupKey(items, year, row);
    assert KeysIn(AccountOf, rows) == set row | row in rows :: row.account;
  }

  lemma {:induction false} VideosAre(rows: seq<Viewing>)
    ensures |Videos(rows)| == |rows| - Count(KindOf, rows, Track)
    decreases |rows|
  {
    if |rows| > 0 {
      var front, last := rows[..|rows| - 1], rows[|rows| - 1];
      assert rows == front + [last];
      FilterSnoc((play: Viewing) => play.kind != Track, front, last);
      VideosAre(front);
    }
  }

  lemma {:induction false} HostsSum(rows: seq<Viewing>, hosts: seq<string>, counts: seq<nat>)
    requires |counts| == |hosts| && forall i | 0 <= i < |hosts| :: counts[i] == Count(HostOf, rows, hosts[i])
    ensures Sum((i: int) => if 0 <= i < |counts| then counts[i] else 0, seq(|hosts|, i => i))
            == Sum(CountOf(HostOf, rows), hosts)
    decreases |hosts|
  {
    if |hosts| > 0 {
      var n := |hosts| - 1;
      HostsSum(rows, hosts[..n], counts[..n]);
      assert seq(|hosts|, i => i)[..n] == seq(n, i => i);
      SumSame((i: int) => if 0 <= i < |counts| then counts[i] else 0,
              (i: int) => if 0 <= i < |counts[..n]| then counts[..n][i] else 0, seq(n, i => i));
    }
  }

  // ---------------------------------------------------------------- quality filters

  /** Rows that pass a filter with its quality left open. */
  function AnyQuality(f: Filters): Filters {
    f.(quality := None)
  }

  predicate LabelledTrack(items: Library, bucket: Bucket, play: Viewing) {
    bucket != InOther && play.kind == Track && QualityOf(items, play) == Label(bucket)
  }

  function LabelledTracks(items: Library, bucket: Bucket, rows: seq<Viewing>): seq<Viewing> {
    Filter((play: Viewing) => LabelledTrack(items, bucket, play), rows)
  }

  function Narrowed(items: Library, bucket: Bucket, rows: seq<Viewing>): seq<Viewing> {
    Filter((play: Viewing) => PassesQuality(items, Some(bucket), play), rows)
  }

  lemma {:induction false} Refiltered(all: Viewing -> bool, some: Viewing -> bool, rest: Viewing -> bool,
                                      plays: seq<Viewing>)
    requires forall play | play in plays :: some(play) <==> all(play) && rest(play)
    ensures Filter(rest, Filter(all, plays)) == Filter(some, plays)
    decreases |plays|
  {
    if |plays| > 0 {
      assert forall play | play in plays[1..] :: play in plays;
      Refiltered(all, some, rest, plays[1..]);
      assert plays[0] in plays;
      var kept := Filter(all, plays[1..]);
      assert ([plays[0]] + kept)[1..] == kept;
    }
  }

  /** A quality filter narrows the base it is left open in: no viewing is judged again inside the filter. */
  lemma QualityNarrowsBase(plays: seq<Viewing>, items: Library, f: Filters, bucket: Bucket)
    ensures Base(plays, items, f.(quality := Some(bucket)))
            == Narrowed(items, bucket, Base(plays, items, AnyQuality(f)))
  {
    var open, named := AnyQuality(f), f.(quality := Some(bucket));
    Refiltered((play: Viewing) => Passes(items, open, play) && Counts(plays, items, play),
               (play: Viewing) => Passes(items, named, play) && Counts(plays, items, play),
               (play: Viewing) => PassesQuality(items, Some(bucket), play), plays);
  }

  /** One row is in a bucket's column, or under its filter as a labelled track, or neither. */
  lemma PassesMeans(items: Library, bucket: Bucket, play: Viewing)
    ensures PassesQuality(items, Some(bucket), play)
            <==> (play.kind != Track && PlayBucket(items)(play) == bucket) || LabelledTrack(items, bucket, play)
  {
  }

  lemma {:induction false} FilterCounts(items: Library, bucket: Bucket, rows: seq<Viewing>)
    ensures |Narrowed(items, bucket, rows)|
            == Count(PlayBucket(items), Videos(rows), bucket) + |LabelledTracks(items, bucket, rows)|
    decreases |rows|
  {
    if |rows| > 0 {
      var front, last := rows[..|rows| - 1], rows[|rows| - 1];
      assert rows == front + [last];
      hide PassesQuality, LabelledTrack, Narrowed, Videos, PlayBucket, LabelledTracks, Count;
      FilterCounts(items, bucket, front);
      PassesMeans(items, bucket, last);
      NarrowedSnoc(items, bucket, front, last);
      LabelledSnoc(items, bucket, front, last);
      VideoCountSnoc(items, bucket, front, last);
    }
  }

  lemma VideoCountSnoc(items: Library, bucket: Bucket, front: seq<Viewing>, last: Viewing)
    ensures Count(PlayBucket(items), Videos(front + [last]), bucket)
            == Count(PlayBucket(items), Videos(front), bucket)
               + if last.kind != Track && PlayBucket(items)(last) == bucket then 1 else 0
  {
    var videos := Videos(front);
    VideosSnoc(front, last);
    assert (videos + [last])[..|videos|] == videos;
    hide Videos, PlayBucket;
  }

  lemma LabelledSnoc(items: Library, bucket: Bucket, front: seq<Viewing>, last: Viewing)
    ensures |LabelledTracks(items, bucket, front + [last])|
            == |LabelledTracks(items, bucket, front)| + if LabelledTrack(items, bucket, last) then 1 else 0
  {
    FilterSnoc((play: Viewing) => LabelledTrack(items, bucket, play), front, last);
  }

  lemma NarrowedSnoc(items: Library, bucket: Bucket, front: seq<Viewing>, last: Viewing)
    ensures |Narrowed(items, bucket, front + [last])|
            == |Narrowed(items, bucket, front)| + if PassesQuality(items, Some(bucket), last) then 1 else 0
  {
    FilterSnoc((play: Viewing) => PassesQuality(items, Some(bucket), play), front, last);
  }

  lemma VideosSnoc(front: seq<Viewing>, last: Viewing)
    ensures Videos(front + [last]) == if last.kind != Track then Videos(front) + [last] else Videos(front)
  {
    FilterSnoc((play: Viewing) => play.kind != Track, front, last);
    assert Videos(front) + [] == Videos(front);
  }

  /**
   * A quality column counts what the total says under that quality's filter, exactly when no track in
   * the base carries that label; "other" always does.
   */
  lemma ColumnIsFilteredTotal(plays: seq<Viewing>, items: Library, f: Filters, bucket: Bucket)
    ensures var rows := Base(plays, items, AnyQuality(f));
            |Base(plays, items, f.(quality := Some(bucket)))| == Count(PlayBucket(items), Videos(rows), bucket)
            <==> bucket == InOther
                 || forall play | play in rows && play.kind == Track :: QualityOf(items, play) != Label(bucket)
  {
    var rows := Base(plays, items, AnyQuality(f));
    QualityNarrowsBase(plays, items, f, bucket);
    FilterCounts(items, bucket, rows);
    hide Base, PlayBucket;
    var tracks := LabelledTracks(items, bucket, rows);
    if |tracks| > 0 {
      assert tracks[0] in tracks;
    }
    if play :| play in rows && play.kind == Track && QualityOf(items, play) == Label(bucket) && bucket != InOther {
      assert play in tracks;
    }
  }

  const ALBUM_TRACK := Viewing("h", 1, "k", Track, "t", 1, 0)

  function LabelledAlbum(): Library {
    map[ItemOf(ALBUM_TRACK) := Known(Track, "t", None, "", None, "", None, Some(K4), None, true)]
  }

  /** One play of a track the library labels 4k: the column has none, the filtered total has it. */
  lemma LabelledTrackIsCounted()
    ensures var f := Filters(None, None, None, None);
            && |Base([ALBUM_TRACK], LabelledAlbum(), f.(quality := Some(In4k)))| == 1
            && Count(PlayBucket(LabelledAlbum()), Videos(Base([ALBUM_TRACK], LabelledAlbum(), f)), In4k) == 0
  {
    var plays, items, open := [ALBUM_TRACK], LabelledAlbum(), Filters(None, None, None, None);
    var named := open.(quality := Some(In4k));
    assert plays[..0] == [];
    assert Counts(plays, items, ALBUM_TRACK);
    FilterOne((play: Viewing) => Passes(items, open, play) && Counts(plays, items, play), ALBUM_TRACK);
    FilterOne((play: Viewing) => Passes(items, named, play) && Counts(plays, items, play), ALBUM_TRACK);
    FilterOne((play: Viewing) => play.kind != Track, ALBUM_TRACK);
  }

  lemma FilterOne(keep: Viewing -> bool, play: Viewing)
    ensures Filter(keep, [play]) == if keep(play) then [play] else []
  {
    FilterSnoc(keep, [], play);
    assert [] + [play] == [play];
  }
}
