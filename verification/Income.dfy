/**
 * Monthly income rebuilt from the member log: one step per row, the events it lists, and the replay of
 * those events that tells where everyone stood before a moment. A tier's price is any function.
 */
module Income {
  import opened Options

  datatype PaidTier = Bronze | Silver | Gold | Youth

  datatype Action =
    | SignedUp | Restored | TierReset | InviteIssued | Canceled | Banned
    | CancellationScheduled | PaymentFailed | PaymentReceived | Unlisted

  /** A row of the log, with the tier its detail names. */
  datatype LogRow = LogRow(id: int, at: int, email: string, action: Action, named: Option<PaidTier>)

  datatype Kind = Signup | Upgrade | Downgrade | Cancel | CancelScheduled | Failed | Outage

  datatype Event = Event(at: int, kind: Kind, email: Option<string>, tier: Option<PaidTier>, fromTier: Option<PaidTier>,
                         delta: int)

  datatype State = State(paying: bool, tier: Option<PaidTier>, inferred: bool)

  const EMPTY := State(false, None, false)

  type Prices = PaidTier -> int

  function PriceOf(price: Prices, tier: Option<PaidTier>): int {
    if tier.None? then 0 else price(tier.value)
  }

  function OrElse(tier: Option<PaidTier>, other: Option<PaidTier>): Option<PaidTier> {
    if tier.Some? then tier else other
  }

  // ---------------------------------------------------------------- one row

  function MemberEvent(row: LogRow, kind: Kind, tier: Option<PaidTier>, delta: int): Option<Event> {
    Some(Event(row.at, kind, Some(row.email), tier, None, delta))
  }

  function TierChange(price: Prices, row: LogRow, was: PaidTier, now: PaidTier): Option<Event> {
    var delta := price(now) - price(was);
    Some(Event(row.at, if delta > 0 then Upgrade else Downgrade, Some(row.email), Some(now), Some(was), delta))
  }

  /** `stepMember`: the new standing, and the event to list, if any. */
  function Step(price: Prices, state: State, row: LogRow): (State, Option<Event>) {
    match row.action
    case SignedUp | Restored =>
      var tier := OrElse(row.named, state.tier);
      var known := state.paying && !state.inferred;
      if known && state.tier.Some? && row.named.Some? && row.named != state.tier then
        (State(true, row.named, false), TierChange(price, row, state.tier.value, row.named.value))
      else if known then
        (State(true, tier, false), if row.action.Restored? then MemberEvent(row, Signup, tier, 0) else None)
      else
        (State(true, tier, false), MemberEvent(row, Signup, tier, PriceOf(price, tier)))
    case TierReset | InviteIssued =>
      if row.named.None? then (state, None)
      else if state.paying && state.tier.Some? && row.named != state.tier then
        (state.(tier := row.named), TierChange(price, row, state.tier.value, row.named.value))
      else (state.(tier := row.named), None)
    case Canceled | Banned =>
      if !state.paying then (state, None)
      else (State(false, state.tier, false), MemberEvent(row, Cancel, state.tier, -PriceOf(price, state.tier)))
    case CancellationScheduled => (state, MemberEvent(row, CancelScheduled, state.tier, 0))
    case PaymentFailed => (state, MemberEvent(row, Failed, state.tier, 0))
    case PaymentReceived => (if state.paying then state else state.(paying := true, inferred := true), None)
    case Unlisted => (state, None)
  }

  /** What a member adds to the monthly income. */
  function Standing(price: Prices, state: State): int {
    if state.paying then PriceOf(price, state.tier) else 0
  }

  function DeltaOf(event: Option<Event>): int {
    if event.Some? then event.value.delta else 0
  }

  /** What a row moves the standing by without listing it, or lists without moving it. */
  function Gap(price: Prices, state: State, row: LogRow): int {
    if row.action.PaymentReceived? && !state.paying then PriceOf(price, state.tier)
    else if (row.action.SignedUp? || row.action.Restored?) && state.paying && state.inferred
      then -PriceOf(price, state.tier)
    else if (row.action.SignedUp? || row.action.Restored? || row.action.TierReset? || row.action.InviteIssued?)
            && state.paying && state.tier.None? then PriceOf(price, row.named)
    else 0
  }

  /** Each row moves the standing by the delta it lists, and by its gap. */
  lemma StepMoves(price: Prices, state: State, row: LogRow)
    ensures var (next, event) := Step(price, state, row);
            Standing(price, next) == Standing(price, state) + DeltaOf(event) + Gap(price, state, row)
  {
  }

  predicate ChangesTier(state: State, row: LogRow) {
    && state.paying && state.tier.Some? && row.named.Some? && row.named != state.tier
    && (row.action.TierReset? || row.action.InviteIssued?
        || ((row.action.SignedUp? || row.action.Restored?) && !state.inferred))
  }

  /** What is listed says which way the member moved, between which tiers, and by how much. */
  lemma EventsTellTheMove(price: Prices, state: State, row: LogRow)
    ensures var (next, event) := Step(price, state, row);
            && ((event.Some? && event.value.kind in {Upgrade, Downgrade}) <==> ChangesTier(state, row))
            && (ChangesTier(state, row) ==>
                  && next == State(true, row.named, state.inferred)
                  && event.value.tier == row.named && event.value.fromTier == state.tier
                  && event.value.delta == price(row.named.value) - price(state.tier.value)
                  && (event.value.kind == Upgrade <==> event.value.delta > 0))
            && ((event.Some? && event.value.kind == Cancel)
                <==> state.paying && (row.action.Canceled? || row.action.Banned?))
            && (event.Some? && event.value.kind == Cancel ==>
                  !next.paying && event.value.tier == state.tier && event.value.delta == -PriceOf(price, state.tier))
            && (event.Some? && event.value.kind == Signup ==>
                  && next.paying && event.value.tier == next.tier
                  && event.value.delta == if state.paying && !state.inferred then 0 else PriceOf(price, next.tier))
            && (event.Some? && event.value.kind == Failed <==> row.action.PaymentFailed?)
            && (event.Some? && event.value.kind == CancelScheduled <==> row.action.CancellationScheduled?)
            && (row.action.PaymentFailed? || row.action.CancellationScheduled?
                ==> next == state && event.value.delta == 0)
  {
  }

  predicate OpensOrCloses(row: LogRow) {
    row.action.SignedUp? || row.action.Restored? || row.action.Canceled? || row.action.Banned?
  }

  /** One member's rows in order. */
  function Stepped(price: Prices, state: State, rows: seq<LogRow>): State {
    if |rows| == 0 then state else Step(price, Stepped(price, state, rows[..|rows| - 1]), rows[|rows| - 1]).0
  }

  lemma {:induction false} StaysInferred(price: Prices, state: State, rows: seq<LogRow>)
    requires state.paying && state.inferred && forall i | 0 <= i < |rows| :: !OpensOrCloses(rows[i])
    ensures Stepped(price, state, rows).paying && Stepped(price, state, rows).inferred
    decreases |rows|
  {
    if |rows| > 0 {
      StaysInferred(price, state, rows[..|rows| - 1]);
    }
  }

  /**
   * A payment by somebody not known to pay lists nothing, and whatever comes next the sign-up it was for
   * is listed as one, at the full price of its tier; the same sign-up again lists nothing.
   */
  lemma PaymentAwaitsItsSignup(price: Prices, state: State, payment: LogRow, between: seq<LogRow>, signup: LogRow)
    requires payment.action.PaymentReceived? && !state.paying && signup.action.SignedUp? && signup.named.Some?
    requires forall i | 0 <= i < |between| :: !OpensOrCloses(between[i])
    ensures var (paid, unlisted) := Step(price, state, payment);
            var (joined, listed) := Step(price, Stepped(price, paid, between), signup);
            && paid.paying && unlisted.None?
            && listed == Some(Event(signup.at, Signup, Some(signup.email), signup.named, None,
                                    price(signup.named.value)))
            && Step(price, joined, signup) == (joined, None)
  {
    StaysInferred(price, Step(price, state, payment).0, between);
  }

  // ---------------------------------------------------------------- the whole log

  type States = map<string, State>

  function StateAt(states: States, key: string): State {
    if key in states then states[key] else EMPTY
  }

  /** The reduce over the ordered log; `key` folds an address's case. */
  function Walk(price: Prices, key: string -> string, rows: seq<LogRow>): (States, seq<Event>) {
    if |rows| == 0 then (map[], [])
    else
      var (states, out) := Walk(price, key, rows[..|rows| - 1]);
      var row := rows[|rows| - 1];
      var (next, event) := Step(price, StateAt(states, key(row.email)), row);
      (states[key(row.email) := next], if event.Some? then out + [event.value] else out)
  }

  function Before(price: Prices, key: string -> string, rows: seq<LogRow>, i: nat): State
    requires i < |rows|
  {
    StateAt(Walk(price, key, rows[..i]).0, key(rows[i].email))
  }

  function Deltas(key: string -> string, events: seq<Event>, member: string): int {
    if |events| == 0 then 0
    else
      var last := events[|events| - 1];
      Deltas(key, events[..|events| - 1], member)
      + if last.email.Some? && key(last.email.value) == member then last.delta else 0
  }

  function Gaps(price: Prices, key: string -> string, rows: seq<LogRow>, member: string): int {
    if |rows| == 0 then 0
    else
      var last := |rows| - 1;
      Gaps(price, key, rows[..last], member)
      + if key(rows[last].email) == member then Gap(price, Before(price, key, rows, last), rows[last]) else 0
  }

  lemma StepListsItself(price: Prices, state: State, row: LogRow)
    ensures var event := Step(price, state, row).1;
            event.Some? ==> event.value.email == Some(row.email) && event.value.at == row.at
  {
  }

  /** For every log, a member's listed deltas and the gaps of their rows add up to where they stand. */
  lemma {:induction false} DeltasAddUp(price: Prices, key: string -> string, rows: seq<LogRow>, member: string)
    ensures var (states, out) := Walk(price, key, rows);
            Deltas(key, out, member) + Gaps(price, key, rows, member) == Standing(price, StateAt(states, member))
    decreases |rows|
  {
    if |rows| > 0 {
      var front, row := rows[..|rows| - 1], rows[|rows| - 1];
      var (states, out) := Walk(price, key, front);
      var state := StateAt(states, key(row.email));
      DeltasAddUp(price, key, front, member);
      StepMoves(price, state, row);
      StepListsItself(price, state, row);
      var (next, event) := Step(price, state, row);
      hide Step, Gap, Standing;
      if event.Some? {
        assert (out + [event.value])[..|out|] == out;
      }
    }
  }

  /** A member's first row signs them up to a tier, and no payment arrives while they are not paying. */
  ghost predicate OpensWithSignup(price: Prices, key: string -> string, rows: seq<LogRow>, member: string) {
    forall i | 0 <= i < |rows| && key(rows[i].email) == member ::
      && (rows[i].action.PaymentReceived? ==> Before(price, key, rows, i).paying)
      && (Before(price, key, rows, i) == EMPTY && member !in Walk(price, key, rows[..i]).0
          ==> rows[i].action.SignedUp? && rows[i].named.Some?)
  }

  /** Such a member's standing is always known: a tier is on record and nothing was guessed. */
  lemma {:induction false} SignupKeepsTier(price: Prices, key: string -> string, rows: seq<LogRow>, member: string)
    requires OpensWithSignup(price, key, rows, member)
    ensures var states := Walk(price, key, rows).0;
            member in states ==> states[member].tier.Some? && !states[member].inferred
    ensures Gaps(price, key, rows, member) == 0
    decreases |rows|
  {
    if |rows| > 0 {
      var last := |rows| - 1;
      var front := rows[..last];
      OpensBefore(price, key, rows, member, last);
      SignupKeepsTier(price, key, front, member);
    }
  }

  /** The deltas of a member whose log opens with a sign-up telescope to the price of where they stand. */
  lemma DeltasTelescope(price: Prices, key: string -> string, rows: seq<LogRow>, member: string)
    requires OpensWithSignup(price, key, rows, member)
    ensures var (states, out) := Walk(price, key, rows);
            Deltas(key, out, member) == Standing(price, StateAt(states, member))
  {
    DeltasAddUp(price, key, rows, member);
    SignupKeepsTier(price, key, rows, member);
    hide Walk, Gaps, Deltas;
  }

  // ---------------------------------------------------------------- the replay

  function Replayed(state: State, event: Event): State {
    match event.kind
    case Signup => State(true, OrElse(event.tier, state.tier), false)
    case Upgrade | Downgrade => State(true, event.tier, false)
    case Cancel => State(false, state.tier, false)
    case _ => state
  }

  function Replay(key: string -> string, events: seq<Event>): States {
    if |events| == 0 then map[]
    else
      var states := Replay(key, events[..|events| - 1]);
      var event := events[|events| - 1];
      var member := key(if event.email.Some? then event.email.value else "");
      states[member := Replayed(StateAt(states, member), event)]
  }

  /** The replay knows who is paying, and the tier of whoever is. */
  predicate Agrees(replayed: State, state: State) {
    && replayed.paying == state.paying
    && (state.paying ==> replayed.tier == state.tier)
    && (replayed.tier.Some? ==> state.tier.Some?)
  }

  /** A row that changes what a paying member stands at and lists nothing the replay could follow. */
  predicate Silent(state: State, row: LogRow) {
    || (row.action.PaymentReceived? && !state.paying)
    || (state.paying && state.tier.None? && row.named.Some?
        && (row.action.TierReset? || row.action.InviteIssued? || (row.action.SignedUp? && !state.inferred)))
  }

  /** One row keeps the replay in agreement exactly when it is not silent. */
  lemma StepAgrees(price: Prices, replayed: State, state: State, row: LogRow)
    requires Agrees(replayed, state)
    ensures var (next, event) := Step(price, state, row);
            Agrees(if event.Some? then Replayed(replayed, event.value) else replayed, next) <==> !Silent(state, row)
  {
  }

  /** No row of this member is silent, whatever anybody else's are. */
  ghost predicate NoneSilent(price: Prices, key: string -> string, rows: seq<LogRow>, member: string) {
    forall i | 0 <= i < |rows| && key(rows[i].email) == member :: !Silent(Before(price, key, rows, i), rows[i])
  }

  lemma NoneSilentBefore(price: Prices, key: string -> string, rows: seq<LogRow>, member: string, n: nat)
    requires n <= |rows| && NoneSilent(price, key, rows, member)
    ensures NoneSilent(price, key, rows[..n], member)
  {
    forall i | 0 <= i < n && key(rows[i].email) == member
      ensures !Silent(Before(price, key, rows[..n], i), rows[..n][i]) {
      assert rows[..n][..i] == rows[..i];
      assert !Silent(Before(price, key, rows, i), rows[i]);
    }
  }

  /** Whether replaying what the rows list has a member where the rows do. */
  ghost predicate InStep(price: Prices, key: string -> string, rows: seq<LogRow>, member: string) {
    var (states, out) := Walk(price, key, rows);
    Agrees(StateAt(Replay(key, out), member), StateAt(states, member))
  }

  /** One more row keeps a member in step exactly when it is nobody's of theirs, or not silent. */
  lemma RowKeepsStep(price: Prices, key: string -> string, rows: seq<LogRow>, member: string)
    requires |rows| > 0 && InStep(price, key, rows[..|rows| - 1], member)
    ensures var last := |rows| - 1;
            InStep(price, key, rows, member)
            <==> (key(rows[last].email) == member ==> !Silent(Before(price, key, rows, last), rows[last]))
  {
    var last := |rows| - 1;
    var front, row := rows[..last], rows[last];
    var (states, out) := Walk(price, key, front);
    var state := StateAt(states, key(row.email));
    StepListsItself(price, state, row);
    if key(row.email) == member {
      StepAgrees(price, StateAt(Replay(key, out), member), state, row);
    }
    var (next, event) := Step(price, state, row);
    hide Step, Silent, Agrees, Replayed;
    if event.Some? {
      assert (out + [event.value])[..|out|] == out;
    }
  }

  lemma {:induction false} ReplayFollows(price: Prices, key: string -> string, rows: seq<LogRow>, member: string)
    requires NoneSilent(price, key, rows, member)
    ensures InStep(price, key, rows, member)
    decreases |rows|
  {
    if |rows| > 0 {
      NoneSilentBefore(price, key, rows, member, |rows| - 1);
      ReplayFollows(price, key, rows[..|rows| - 1], member);
      hide InStep, Silent;
      RowKeepsStep(price, key, rows, member);
    }
  }

  /** The replay keeps a member in step all the way through a log exactly when no row of theirs is silent. */
  lemma ReplayFollowsExactly(price: Prices, key: string -> string, rows: seq<LogRow>, member: string)
    ensures (forall n | 0 <= n <= |rows| :: InStep(price, key, rows[..n], member))
            <==> NoneSilent(price, key, rows, member)
  {
    hide InStep, Silent;
    if NoneSilent(price, key, rows, member) {
      forall n | 0 <= n <= |rows| ensures InStep(price, key, rows[..n], member) {
        NoneSilentBefore(price, key, rows, member, n);
        ReplayFollows(price, key, rows[..n], member);
      }
    }
    if forall n | 0 <= n <= |rows| :: InStep(price, key, rows[..n], member) {
      forall i | 0 <= i < |rows| && key(rows[i].email) == member ensures !Silent(Before(price, key, rows, i), rows[i]) {
        assert rows[..i + 1][..i] == rows[..i];
        assert InStep(price, key, rows[..i], member) && InStep(price, key, rows[..i + 1], member);
        RowKeepsStep(price, key, rows[..i + 1], member);
        assert Before(price, key, rows[..i + 1], i) == Before(price, key, rows, i);
      }
    }
  }

  /** Opening with a sign-up is enough: such a member's standing is always known. */
  lemma SignupsAreNeverSilent(price: Prices, key: string -> string, rows: seq<LogRow>, member: string)
    requires OpensWithSignup(price, key, rows, member)
    ensures NoneSilent(price, key, rows, member)
  {
    forall i | 0 <= i < |rows| && key(rows[i].email) == member ensures !Silent(Before(price, key, rows, i), rows[i]) {
      OpensBefore(price, key, rows, member, i);
      SignupKeepsTier(price, key, rows[..i], member);
      hide Walk;
    }
  }

  lemma OpensBefore(price: Prices, key: string -> string, rows: seq<LogRow>, member: string, n: nat)
    requires n <= |rows| && OpensWithSignup(price, key, rows, member)
    ensures OpensWithSignup(price, key, rows[..n], member)
  {
    hide Walk;
    forall i | 0 <= i < n && key(rows[i].email) == member
      ensures rows[..n][..i] == rows[..i] && Before(price, key, rows[..n], i) == Before(price, key, rows, i)
    {
      assert rows[..n][..i] == rows[..i];
    }
  }

  // ---------------------------------------------------------------- stable sorting

  function Insert<E>(rank: E -> int, sorted: seq<E>, item: E): seq<E> {
    if |sorted| == 0 || rank(sorted[|sorted| - 1]) <= rank(item) then sorted + [item]
    else Insert(rank, sorted[..|sorted| - 1], item) + [sorted[|sorted| - 1]]
  }

  /** A sort by rank that keeps the order of equals, as JavaScript's does. */
  function StableSort<E>(rank: E -> int, items: seq<E>): seq<E> {
    if |items| == 0 then [] else Insert(rank, StableSort(rank, items[..|items| - 1]), items[|items| - 1])
  }

  ghost predicate InOrder<E>(rank: E -> int, items: seq<E>) {
    forall i, j | 0 <= i < j < |items| :: rank(items[i]) <= rank(items[j])
  }

  function RowTime(row: LogRow): int { row.at }
  function RowId(row: LogRow): int { row.id }

  /** The log in the order it is walked: by instant, then by id. */
  function Ordered(rows: seq<LogRow>): seq<LogRow> {
    StableSort(RowTime, StableSort(RowId, rows))
  }

  lemma {:induction false} SortInOrder<E>(rank: E -> int, items: seq<E>)
    ensures InOrder(rank, StableSort(rank, items))
    decreases |items|
  {
    if |items| > 0 {
      SortInOrder(rank, items[..|items| - 1]);
      InsertInOrder(rank, StableSort(rank, items[..|items| - 1]), items[|items| - 1]);
    }
  }

  lemma OrderedInTime(rows: seq<LogRow>)
    ensures InTime(Ordered(rows))
  {
    SortInOrder(RowTime, StableSort(RowId, rows));
    forall i, j | 0 <= i < j < |Ordered(rows)| ensures Ordered(rows)[i].at <= Ordered(rows)[j].at {
      assert RowTime(Ordered(rows)[i]) <= RowTime(Ordered(rows)[j]);
    }
  }

  lemma {:induction false} InsertKeepsAll<E>(rank: E -> int, sorted: seq<E>, item: E)
    ensures multiset(Insert(rank, sorted, item)) == multiset(sorted) + multiset{item}
    decreases |sorted|
  {
    if |sorted| > 0 && rank(sorted[|sorted| - 1]) > rank(item) {
      var front, last := sorted[..|sorted| - 1], sorted[|sorted| - 1];
      assert sorted == front + [last];
      InsertKeepsAll(rank, front, item);
    }
  }

  lemma {:induction false} SortKeepsAll<E>(rank: E -> int, items: seq<E>)
    ensures multiset(StableSort(rank, items)) == multiset(items)
    decreases |items|
  {
    if |items| > 0 {
      var front, last := items[..|items| - 1], items[|items| - 1];
      assert items == front + [last];
      SortKeepsAll(rank, front);
      InsertKeepsAll(rank, StableSort(rank, front), last);
    }
  }

  /** In order by one rank, and by another among equals. */
  ghost predicate InOrderThen<E>(rank: E -> int, second: E -> int, items: seq<E>) {
    forall i, j | 0 <= i < j < |items| ::
      rank(items[i]) < rank(items[j]) || (rank(items[i]) == rank(items[j]) && second(items[i]) <= second(items[j]))
  }

  lemma {:induction false} InsertThen<E>(rank: E -> int, second: E -> int, sorted: seq<E>, item: E)
    requires InOrderThen(rank, second, sorted) && forall i | 0 <= i < |sorted| :: second(sorted[i]) <= second(item)
    ensures InOrderThen(rank, second, Insert(rank, sorted, item))
    decreases |sorted|
  {
    if |sorted| > 0 && rank(sorted[|sorted| - 1]) > rank(item) {
      var front, last := sorted[..|sorted| - 1], sorted[|sorted| - 1];
      InsertThen(rank, second, front, item);
      var inserted := Insert(rank, front, item);
      forall i | 0 <= i < |inserted|
        ensures rank(inserted[i]) < rank(last)
                || (rank(inserted[i]) == rank(last) && second(inserted[i]) <= second(last))
      {
        InsertMembers(rank, front, item, i);
        if inserted[i] != item {
          var k :| 0 <= k < |front| && front[k] == inserted[i];
          assert sorted[k] == front[k];
        }
      }
    }
  }

  lemma {:induction false} SortThen<E>(rank: E -> int, second: E -> int, items: seq<E>)
    requires InOrder(second, items)
    ensures InOrderThen(rank, second, StableSort(rank, items))
    decreases |items|
  {
    if |items| > 0 {
      var front, last := items[..|items| - 1], items[|items| - 1];
      SortThen(rank, second, front);
      SortKeepsAll(rank, front);
      var sorted := StableSort(rank, front);
      forall i | 0 <= i < |sorted| ensures second(sorted[i]) <= second(last) {
        assert sorted[i] in multiset(sorted) && sorted[i] in front;
        var k :| 0 <= k < |front| && front[k] == sorted[i];
        assert items[k] == front[k];
      }
      InsertThen(rank, second, sorted, last);
    }
  }

  /** The log is walked whole, each row once: by instant, and by id within one. */
  lemma OrderedIsTheLog(rows: seq<LogRow>)
    ensures multiset(Ordered(rows)) == multiset(rows)
    ensures forall i, j | 0 <= i < j < |Ordered(rows)| ::
              var a, b := Ordered(rows)[i], Ordered(rows)[j]; a.at < b.at || (a.at == b.at && a.id <= b.id)
  {
    var byId := StableSort(RowId, rows);
    SortKeepsAll(RowId, rows);
    SortKeepsAll(RowTime, byId);
    SortInOrder(RowId, rows);
    SortThen(RowTime, RowId, byId);
    hide StableSort;
    forall i, j | 0 <= i < j < |Ordered(rows)|
      ensures var a, b := Ordered(rows)[i], Ordered(rows)[j]; a.at < b.at || (a.at == b.at && a.id <= b.id)
    {
      assert RowTime(Ordered(rows)[i]) <= RowTime(Ordered(rows)[j]);
      assert RowTime(Ordered(rows)[i]) == RowTime(Ordered(rows)[j])
             ==> RowId(Ordered(rows)[i]) <= RowId(Ordered(rows)[j]);
    }
  }

  /** The events of one instant, in order. */
  function AtTime(events: seq<Event>, t: int): seq<Event> {
    Filter((event: Event) => event.at == t, events)
  }

  lemma AtTimeSnoc(events: seq<Event>, last: Event, t: int)
    ensures AtTime(events + [last], t) == if last.at == t then AtTime(events, t) + [last] else AtTime(events, t)
  {
    FilterSnoc((event: Event) => event.at == t, events, last);
    assert AtTime(events, t) + [] == AtTime(events, t);
  }

  lemma {:induction false} InsertMembers<E>(rank: E -> int, sorted: seq<E>, item: E, i: nat)
    requires i < |Insert(rank, sorted, item)|
    ensures Insert(rank, sorted, item)[i] == item || Insert(rank, sorted, item)[i] in sorted
    decreases |sorted|
  {
    if |sorted| > 0 && rank(sorted[|sorted| - 1]) > rank(item) {
      var front := sorted[..|sorted| - 1];
      if i < |Insert(rank, front, item)| {
        InsertMembers(rank, front, item, i);
      }
    }
  }

  lemma {:induction false} InsertInOrder<E>(rank: E -> int, sorted: seq<E>, item: E)
    requires InOrder(rank, sorted)
    ensures InOrder(rank, Insert(rank, sorted, item))
    decreases |sorted|
  {
    if |sorted| > 0 && rank(sorted[|sorted| - 1]) > rank(item) {
      var front, last := sorted[..|sorted| - 1], sorted[|sorted| - 1];
      InsertInOrder(rank, front, item);
      var inserted := Insert(rank, front, item);
      forall i | 0 <= i < |inserted| ensures rank(inserted[i]) <= rank(last) {
        InsertMembers(rank, front, item, i);
        if inserted[i] != item {
          var k :| 0 <= k < |front| && front[k] == inserted[i];
          assert sorted[k] == front[k] && rank(sorted[k]) <= rank(sorted[|sorted| - 1]);
        }
      }
    }
  }

  /** Sorting by the instant, or by its opposite, keeps what each instant holds and its order. */
  ghost predicate ByTime(rank: Event -> int) {
    forall x, y :: rank(x) == rank(y) <==> x.at == y.at
  }

  lemma {:induction false} InsertAtTime(rank: Event -> int, sorted: seq<Event>, item: Event, t: int)
    requires ByTime(rank)
    ensures AtTime(Insert(rank, sorted, item), t)
            == if item.at == t then AtTime(sorted, t) + [item] else AtTime(sorted, t)
    decreases |sorted|
  {
    hide AtTime;
    if |sorted| == 0 || rank(sorted[|sorted| - 1]) <= rank(item) {
      AtTimeSnoc(sorted, item, t);
    } else {
      var front, last := sorted[..|sorted| - 1], sorted[|sorted| - 1];
      assert sorted == front + [last];
      InsertAtTime(rank, front, item, t);
      AtTimeSnoc(front, last, t);
      AtTimeSnoc(Insert(rank, front, item), last, t);
      assert item.at != last.at;
    }
  }

  lemma {:induction false} SortMeans(rank: Event -> int, events: seq<Event>, t: int)
    requires ByTime(rank)
    ensures InOrder(rank, StableSort(rank, events))
    ensures AtTime(StableSort(rank, events), t) == AtTime(events, t)
    decreases |events|
  {
    hide AtTime, ByTime;
    if |events| > 0 {
      var front, last := events[..|events| - 1], events[|events| - 1];
      assert events == front + [last];
      SortMeans(rank, front, t);
      InsertInOrder(rank, StableSort(rank, front), last);
      InsertAtTime(rank, StableSort(rank, front), last, t);
      AtTimeSnoc(front, last, t);
    } else {
      assert StableSort(rank, events) == events;
    }
  }

  function Rank(event: Event): int { event.at }
  function Newest(event: Event): int { -event.at }

  /** Two lists in time order that agree at every instant are one list. */
  lemma {:induction false} SameAtEveryInstant(a: seq<Event>, b: seq<Event>)
    requires InOrder(Rank, a) && InOrder(Rank, b)
    requires forall t :: AtTime(a, t) == AtTime(b, t)
    ensures a == b
    decreases |a|
  {
    if |a| == 0 {
      if |b| > 0 {
        HasInstant(b);
        assert false;
      }
    } else {
      assert a[0] in AtTime(a, a[0].at) && a[0] in AtTime(b, a[0].at);
      assert a[0] in b && b[0] in AtTime(b, b[0].at) && b[0] in AtTime(a, b[0].at) && b[0] in a;
      FirstIsEarliest(a, b[0]);
      FirstIsEarliest(b, a[0]);
      SameFirst(a, b);
      forall t ensures AtTime(a[1..], t) == AtTime(b[1..], t) {
        AtTimeTail(a, t);
        AtTimeTail(b, t);
      }
      SameAtEveryInstant(a[1..], b[1..]);
      assert a == [a[0]] + a[1..] && b == [b[0]] + b[1..];
    }
  }

  lemma HasInstant(events: seq<Event>)
    requires |events| > 0
    ensures |AtTime(events, events[0].at)| > 0
  {
  }

  lemma FirstIsEarliest(events: seq<Event>, event: Event)
    requires InOrder(Rank, events) && event in events
    ensures events[0].at <= event.at
  {
    var i :| 0 <= i < |events| && events[i] == event;
    assert i > 0 ==> Rank(events[0]) <= Rank(events[i]);
  }

  lemma AtTimeTail(events: seq<Event>, t: int)
    requires |events| > 0
    ensures AtTime(events[1..], t) == if events[0].at == t then AtTime(events, t)[1..] else AtTime(events, t)
  {
  }

  lemma SameFirst(a: seq<Event>, b: seq<Event>)
    requires |a| > 0 && |b| > 0 && a[0].at == b[0].at && AtTime(a, a[0].at) == AtTime(b, a[0].at)
    ensures a[0] == b[0]
  {
    assert AtTime(a, a[0].at)[0] == a[0] && AtTime(b, a[0].at)[0] == b[0];
  }

  // ---------------------------------------------------------------- the published list, walked back

  predicate Outages(events: seq<Event>) {
    forall event | event in events :: event.email.None?
  }

  /** `toIncomeEvents`: the walk's events and the outages, newest first. */
  function IncomeEvents(price: Prices, key: string -> string, rows: seq<LogRow>, outages: seq<Event>): seq<Event> {
    StableSort(Newest, Walk(price, key, Ordered(rows)).1 + outages)
  }

  predicate Listed(event: Event, boundary: int) {
    event.email.Some? && event.at < boundary
  }

  /** What `statesBefore` walks: the member events before a moment, oldest first. */
  function ListedUpTo(events: seq<Event>, boundary: int): seq<Event> {
    StableSort(Rank, Filter((event: Event) => Listed(event, boundary), events))
  }

  /** `statesBefore`. */
  function StatesBefore(key: string -> string, events: seq<Event>, boundary: int): States {
    Replay(key, ListedUpTo(events, boundary))
  }

  ghost predicate InTime(rows: seq<LogRow>) {
    forall i, j | 0 <= i < j < |rows| :: rows[i].at <= rows[j].at
  }

  /** The rows of an ordered log before a moment. */
  function RowsBefore(rows: seq<LogRow>, boundary: int): (early: seq<LogRow>)
    ensures early <= rows
  {
    if |rows| > 0 && rows[|rows| - 1].at >= boundary then RowsBefore(rows[..|rows| - 1], boundary) else rows
  }

  /** They are all of the rows before it, and none from it on. */
  lemma {:induction false} RowsBeforeMeans(rows: seq<LogRow>, boundary: int)
    requires InTime(rows)
    ensures var n := |RowsBefore(rows, boundary)|;
            && RowsBefore(rows, boundary) == rows[..n]
            && (forall i | 0 <= i < n :: rows[i].at < boundary)
               && (forall i | n <= i < |rows| :: rows[i].at >= boundary)
    decreases |rows|
  {
    if |rows| > 0 && rows[|rows| - 1].at >= boundary {
      RowsBeforeMeans(rows[..|rows| - 1], boundary);
    }
  }

  lemma {:induction false} WalkInOrder(price: Prices, key: string -> string, rows: seq<LogRow>)
    requires InTime(rows)
    ensures var out := Walk(price, key, rows).1;
            && InOrder(Rank, out)
            && (forall i | 0 <= i < |out| :: out[i].email.Some?)
            && (|rows| > 0 ==> forall i | 0 <= i < |out| :: out[i].at <= rows[|rows| - 1].at)
    decreases |rows|
  {
    if |rows| > 0 {
      var front, row := rows[..|rows| - 1], rows[|rows| - 1];
      WalkInOrder(price, key, front);
      var (states, out) := Walk(price, key, front);
      StepListsItself(price, StateAt(states, key(row.email)), row);
      assert |front| > 0 ==> front[|front| - 1].at <= row.at;
      assert |front| == 0 ==> out == [];
      hide Step;
    }
  }

  /** What was listed before a moment is what the rows before it list. */
  lemma {:induction false} ListedBefore(price: Prices, key: string -> string, rows: seq<LogRow>, boundary: int)
    requires InTime(rows)
    ensures Filter((event: Event) => Listed(event, boundary), Walk(price, key, rows).1)
            == Walk(price, key, RowsBefore(rows, boundary)).1
    decreases |rows|
  {
    var listed := (event: Event) => Listed(event, boundary);
    if |rows| > 0 && rows[|rows| - 1].at >= boundary {
      var front, row := rows[..|rows| - 1], rows[|rows| - 1];
      ListedBefore(price, key, front, boundary);
      var (states, out) := Walk(price, key, front);
      var event := Step(price, StateAt(states, key(row.email)), row).1;
      StepListsItself(price, StateAt(states, key(row.email)), row);
      hide Step;
      if event.Some? {
        FilterSnoc(listed, out, event.value);
        assert Filter(listed, out) + [] == Filter(listed, out);
      }
    } else {
      WalkInOrder(price, key, rows);
      AllListed(listed, Walk(price, key, rows).1);
    }
  }

  lemma {:induction false} AllListed(keep: Event -> bool, events: seq<Event>)
    requires forall i | 0 <= i < |events| :: keep(events[i])
    ensures Filter(keep, events) == events
    decreases |events|
  {
    if |events| > 0 {
      AllListed(keep, events[1..]);
    }
  }

  lemma {:induction false} NoneListed(keep: Event -> bool, events: seq<Event>)
    requires forall i | 0 <= i < |events| :: !keep(events[i])
    ensures Filter(keep, events) == []
    decreases |events|
  {
    if |events| > 0 {
      NoneListed(keep, events[1..]);
    }
  }

  lemma {:induction false} FilterConcat(keep: Event -> bool, first: seq<Event>, rest: seq<Event>)
    ensures Filter(keep, first + rest) == Filter(keep, first) + Filter(keep, rest)
    decreases |first|
  {
    if |first| == 0 {
      assert first + rest == rest;
    } else {
      assert (first + rest)[1..] == first[1..] + rest;
      FilterConcat(keep, first[1..], rest);
    }
  }

  /** Filtering before or after keeping one instant is the same. */
  lemma {:induction false} FilterAtTime(keep: Event -> bool, events: seq<Event>, t: int)
    ensures AtTime(Filter(keep, events), t) == Filter(keep, AtTime(events, t))
    decreases |events|
  {
    if |events| > 0 {
      FilterAtTime(keep, events[1..], t);
      AtTimeTail(events, t);
      if keep(events[0]) {
        assert ([events[0]] + Filter(keep, events[1..]))[1..] == Filter(keep, events[1..]);
      }
      if events[0].at == t {
        assert AtTime(events, t) == [events[0]] + AtTime(events[1..], t);
        assert ([events[0]] + AtTime(events[1..], t))[1..] == AtTime(events[1..], t);
      }
    }
  }

  /** Sorting newest first, narrowing, and sorting back leaves each instant as narrowing alone does. */
  lemma SortedThere(keep: Event -> bool, events: seq<Event>, t: int)
    ensures AtTime(StableSort(Rank, Filter(keep, StableSort(Newest, events))), t) == AtTime(Filter(keep, events), t)
  {
    hide AtTime;
    var sorted := StableSort(Newest, events);
    SortMeans(Rank, Filter(keep, sorted), t);
    FilterAtTime(keep, sorted, t);
    SortMeans(Newest, events, t);
    FilterAtTime(keep, events, t);
  }

  /** Newest first and back again, the list is the walk's own. */
  lemma SortedBack(price: Prices, key: string -> string, rows: seq<LogRow>, outages: seq<Event>, boundary: int)
    requires Outages(outages)
    ensures ListedUpTo(IncomeEvents(price, key, rows, outages), boundary)
            == Walk(price, key, RowsBefore(Ordered(rows), boundary)).1
  {
    var listed := (event: Event) => Listed(event, boundary);
    var ordered := Ordered(rows);
    var out := Walk(price, key, ordered).1;
    var published := IncomeEvents(price, key, rows, outages);
    var early := Walk(price, key, RowsBefore(ordered, boundary)).1;
    var kept := Filter(listed, published);
    OrderedInTime(rows);
    ListedBefore(price, key, ordered, boundary);
    WalkInOrder(price, key, RowsBefore(ordered, boundary));
    FilterConcat(listed, out, outages);
    NoneListed(listed, outages);
    assert Filter(listed, out + outages) == early + [] == early;
    hide Walk, RowsBefore, Ordered, AtTime;
    forall t ensures AtTime(StableSort(Rank, kept), t) == AtTime(early, t) {
      SortedThere(listed, out + outages, t);
    }
    SortMeans(Rank, kept, 0);
    SameAtEveryInstant(StableSort(Rank, kept), early);
  }

  /**
   * Walking the published list up to a moment, a member pays or not as the log says they did then, at
   * the tier it says, so long as no row of theirs before it was silent.
   */
  lemma StatesBeforeAgrees(price: Prices, key: string -> string, rows: seq<LogRow>, outages: seq<Event>, boundary: int,
                           member: string)
    requires Outages(outages) && NoneSilent(price, key, RowsBefore(Ordered(rows), boundary), member)
    ensures var replayed := StateAt(StatesBefore(key, IncomeEvents(price, key, rows, outages), boundary), member);
            var state := StateAt(Walk(price, key, RowsBefore(Ordered(rows), boundary)).0, member);
            replayed.paying == state.paying && (state.paying ==> replayed.tier == state.tier)
  {
    SortedBack(price, key, rows, outages, boundary);
    ReplayFollows(price, key, RowsBefore(Ordered(rows), boundary), member);
    hide Walk, IncomeEvents, Replay, Ordered, RowsBefore;
  }

  /**
   * For a member who opens with a sign-up, both readings of the published list are the log's own: at
   * every moment the deltas listed so far add up to the price of where the replay has them, which is
   * where the log has them.
   */
  lemma ListTellsTheLog(price: Prices, key: string -> string, rows: seq<LogRow>, outages: seq<Event>, boundary: int,
                        member: string)
    requires Outages(outages) && OpensWithSignup(price, key, RowsBefore(Ordered(rows), boundary), member)
    ensures var published := IncomeEvents(price, key, rows, outages);
            var replayed := StateAt(StatesBefore(key, published, boundary), member);
            var state := StateAt(Walk(price, key, RowsBefore(Ordered(rows), boundary)).0, member);
            && replayed.paying == state.paying && (state.paying ==> replayed.tier == state.tier)
            && Deltas(key, ListedUpTo(published, boundary), member) == Standing(price, replayed)
  {
    var early := RowsBefore(Ordered(rows), boundary);
    SignupsAreNeverSilent(price, key, early, member);
    StatesBeforeAgrees(price, key, rows, outages, boundary, member);
    SortedBack(price, key, rows, outages, boundary);
    DeltasTelescope(price, key, early, member);
    hide Walk, IncomeEvents, Replay, Ordered, RowsBefore, Deltas, OpensWithSignup;
  }
}
