/**
 * Deliveries that may fail between any two calls, one after another, and what survives their retries:
 * the invite an operation is bound to, the links mailed for it, and when an event counts as processed.
 */
module Delivery {
  import opened Options
  import opened Identity
  import opened Standing
  import opened BridgeStore
  import opened WebhookPlans

  // ---------------------------------------------------------------- performing a plan

  /** The tables, everything done so far, and how many more effects come off before the process dies. */
  datatype World = World(store: Store, log: Effects, fuel: nat, dead: bool)

  function Act(w: World, effect: Effect): World {
    if w.dead then w
    else if w.fuel == 0 || effect.Died? then w.(log := w.log + [Died], dead := true)
    else World(Write(w.store, effect), w.log + [effect], w.fuel - 1, false)
  }

  function Execute(w: World, plan: Effects): World
    decreases |plan|
  {
    if |plan| == 0 then w else Execute(Act(w, plan[0]), plan[1..])
  }

  lemma {:induction false} ExecuteConcat(w: World, first: Effects, rest: Effects)
    ensures Execute(w, first + rest) == Execute(Execute(w, first), rest)
    decreases |first|
  {
    if |first| == 0 {
      assert first + rest == rest;
    } else {
      assert (first + rest)[1..] == first[1..] + rest;
      ExecuteConcat(Act(w, first[0]), first[1..], rest);
    }
  }

  lemma {:induction false} ExecuteDead(w: World, plan: Effects)
    requires w.dead
    ensures Execute(w, plan) == w
    decreases |plan|
  {
    if |plan| > 0 {
      ExecuteDead(w, plan[1..]);
    }
  }

  lemma {:induction false} AfterConcat(store: Store, first: Effects, rest: Effects)
    ensures After(store, first + rest) == After(After(store, first), rest)
    decreases |first|
  {
    if |first| == 0 {
      assert first + rest == rest;
    } else {
      assert (first + rest)[1..] == first[1..] + rest;
      AfterConcat(Write(store, first[0]), first[1..], rest);
    }
  }

  /** The first `n` effects of a plan were performed, and the process died unless that was all of them. */
  ghost predicate Performed(w: World, after: World, plan: Effects, n: int) {
    && 0 <= n <= |plan| && after.store == After(w.store, plan[..n])
    && after.log == w.log + plan[..n] + (if after.dead then [Died] else [])
    && (after.dead <==> n < |plan|)
    && (forall i | 0 <= i < n :: !plan[i].Died?)
  }

  lemma OneMorePerformed(w: World, after: World, plan: Effects, m: int)
    requires |plan| > 0 && !plan[0].Died?
    requires Performed(World(Write(w.store, plan[0]), w.log + [plan[0]], 0, false), after, plan[1..], m)
    ensures Performed(w, after, plan, m + 1)
  {
    var done := plan[..m + 1];
    assert done == [plan[0]] + plan[1..][..m];
    assert done[0] == plan[0] && done[1..] == plan[1..][..m];
    assert w.log + done == w.log + [plan[0]] + plan[1..][..m];
    assert forall i | 1 <= i < m + 1 :: plan[i] == plan[1..][i - 1];
  }

  /** A delivery performs a prefix of its plan: all of it when it lives, and then dies. */
  lemma {:induction false} ExecutePrefix(w: World, plan: Effects) returns (n: int)
    requires !w.dead
    ensures Performed(w, Execute(w, plan), plan, n)
    decreases |plan|
  {
    var after := Execute(w, plan);
    if |plan| == 0 || w.fuel == 0 || plan[0].Died? {
      n := 0;
      if |plan| > 0 {
        ExecuteDead(Act(w, plan[0]), plan[1..]);
      }
      assert plan[..0] == [] && w.log + plan[..0] == w.log && w.log + [] == w.log;
    } else {
      hide Performed;
      var next := Act(w, plan[0]);
      var m := ExecutePrefix(next, plan[1..]);
      SameStart(next, World(Write(w.store, plan[0]), w.log + [plan[0]], 0, false), after, plan[1..], m);
      OneMorePerformed(w, after, plan, m);
      n := m + 1;
    }
  }

  lemma SameStart(w: World, v: World, after: World, plan: Effects, n: int)
    requires w.store == v.store && w.log == v.log && Performed(w, after, plan, n)
    ensures Performed(v, after, plan, n)
  {
  }

  lemma ExecuteIsPrefix(w: World, plan: Effects)
    requires !w.dead
    ensures var after := Execute(w, plan);
            exists n :: 0 <= n <= |plan| && after.store == After(w.store, plan[..n])
                        && after.log == w.log + plan[..n] + (if after.dead then [Died] else [])
                        && (after.dead <==> n < |plan|)
                        && (forall i | 0 <= i < n :: !plan[i].Died?)
  {
    var n := ExecutePrefix(w, plan);
    hide Execute;
  }

  // ---------------------------------------------------------------- runs

  /** What happens to the bridge: one delivery at a time, and between two of them anything an admin changes. */
  datatype Step =
    | Delivered(id: Option<string>, event: Event, answers: Answers, fuel: nat)
    | Administered(rows: seq<Row>, tags: map<Address, Tag>, links: map<Address, Address>)

  function Deliver(w: World, step: Step): World {
    match step
    case Delivered(id, event, answers, fuel) =>
      Execute(w.(fuel := fuel, dead := false), HandlePlan(w.store, id, event, answers))
    case Administered(rows, tags, links) =>
      w.(store := w.store.(rows := rows, tags := tags, links := links))
  }

  /** `serialQueue`: every step starts once the one before it has settled, failed or not. */
  function Run(w: World, steps: seq<Step>): World
    decreases |steps|
  {
    if |steps| == 0 then w else Deliver(Run(w, steps[..|steps| - 1]), steps[|steps| - 1])
  }

  const EMPTY := World(Store([], map[], {}, map[], map[]), [], 0, false)

  // ---------------------------------------------------------------- counting over the log

  predicate MintedFor(effect: Effect, key: string) { effect.Minted? && effect.key == Some(key) }
  predicate MailedFor(effect: Effect, key: string) { effect.Mailed? && effect.key == Some(key) }

  function Mints(log: Effects, key: string): nat {
    if |log| == 0 then 0
    else Mints(log[..|log| - 1], key) + if MintedFor(log[|log| - 1], key) then 1 else 0
  }

  function Mails(log: Effects, key: string): nat {
    if |log| == 0 then 0
    else Mails(log[..|log| - 1], key) + if MailedFor(log[|log| - 1], key) then 1 else 0
  }

  /** Deliveries that died with the invite created and not yet bound. */
  function LostMints(log: Effects, key: string): nat {
    if |log| < 2 then 0
    else LostMints(log[..|log| - 1], key) + if MintedFor(log[|log| - 2], key) && log[|log| - 1].Died? then 1 else 0
  }

  /** Deliveries that died with the link mailed and not yet marked. */
  function LostMarks(log: Effects, key: string): nat {
    if |log| < 2 then 0
    else LostMarks(log[..|log| - 1], key) + if MailedFor(log[|log| - 2], key) && log[|log| - 1].Died? then 1 else 0
  }

  predicate LastMinted(log: Effects, key: string) { |log| > 0 && MintedFor(log[|log| - 1], key) }
  predicate LastMailed(log: Effects, key: string) { |log| > 0 && MailedFor(log[|log| - 1], key) }

  // ---------------------------------------------------------------- the invariant of every effect

  predicate IsBound(store: Store, key: string) { key in store.bindings }
  predicate IsMailed(store: Store, key: string) { key in store.bindings && store.bindings[key].emailed }

  /** Whatever was bound or mailed under a key carried the code the key is bound to now. */
  ghost predicate OneCode(store: Store, log: Effects, key: string) {
    && (forall i | 0 <= i < |log| :: log[i].Bound? && log[i].boundKey == key ==>
          key in store.bindings && store.bindings[key].code == log[i].code)
    && (forall i | 0 <= i < |log| :: MailedFor(log[i], key) ==>
          key in store.bindings && store.bindings[key].code == log[i].code)
    && (IsMailed(store, key) ==> exists i :: 0 <= i < |log| && MailedFor(log[i], key))
  }

  /** Every mint and every mail beyond the first is paid for by a delivery that died right behind it. */
  predicate Tally(store: Store, log: Effects, key: string) {
    && Mints(log, key) == (if IsBound(store, key) then 1 else 0) + LostMints(log, key)
       + (if LastMinted(log, key) then 1 else 0)
    && Mails(log, key) == (if IsMailed(store, key) then 1 else 0) + LostMarks(log, key)
       + (if LastMailed(log, key) then 1 else 0)
    && (LastMinted(log, key) ==> !IsBound(store, key))
    && (LastMailed(log, key) ==> IsBound(store, key) && !IsMailed(store, key))
  }

  ghost predicate Invariant(store: Store, log: Effects) {
    forall key :: OneCode(store, log, key) && Tally(store, log, key)
  }

  predicate Open(last: Option<Effect>) {
    last.Some? && ((last.value.Minted? && last.value.key.Some?) || (last.value.Mailed? && last.value.key.Some?))
  }

  /** Which effects may follow which: a mint only its own binding, a mail only its own mark. */
  predicate Allowed(store: Store, last: Option<Effect>, effect: Effect) {
    match effect
    case Minted(Some(key), code) => !Open(last) && key !in store.bindings
    case Bound(key, code) => last == Some(Minted(Some(key), code)) && key !in store.bindings
    case Mailed(Some(key), to, code) =>
      !Open(last) && key in store.bindings && store.bindings[key] == Issuance(code, false)
    case MarkedMailed(key) =>
      last.Some? && last.value.Mailed? && last.value.key == Some(key) && key in store.bindings
    case Died => true
    case _ => !Open(last)
  }

  predicate AllowedPlan(store: Store, last: Option<Effect>, plan: Effects)
    decreases |plan|
  {
    |plan| == 0
    || (Allowed(store, last, plan[0]) && AllowedPlan(Write(store, plan[0]), Some(plan[0]), plan[1..]))
  }

  function LastOf(log: Effects): Option<Effect> {
    if |log| == 0 then None else Some(log[|log| - 1])
  }

  lemma LogStep(log: Effects, effect: Effect, key: string)
    ensures var next := log + [effect];
            && Mints(next, key) == Mints(log, key) + (if MintedFor(effect, key) then 1 else 0)
            && Mails(next, key) == Mails(log, key) + (if MailedFor(effect, key) then 1 else 0)
            && LostMints(next, key) == LostMints(log, key) + (if LastMinted(log, key) && effect.Died? then 1 else 0)
            && LostMarks(next, key) == LostMarks(log, key) + (if LastMailed(log, key) && effect.Died? then 1 else 0)
  {
    var next := log + [effect];
    assert next[..|next| - 1] == log;
  }

  /** What one effect changes of one key's binding. */
  lemma WriteStep(store: Store, effect: Effect, key: string)
    ensures var after := Write(store, effect);
            && (IsBound(after, key) <==> IsBound(store, key) || (effect.Bound? && effect.boundKey == key))
            && (IsMailed(after, key)
                <==> IsMailed(store, key) || (IsBound(store, key) && effect.MarkedMailed? && effect.markedKey == key))
            && (IsBound(store, key) ==> after.bindings[key].code == store.bindings[key].code)
            && (!IsBound(store, key) && effect.Bound? && effect.boundKey == key
                ==> after.bindings[key].code == effect.code)
  {
  }

  lemma TallyStep(store: Store, log: Effects, effect: Effect, key: string)
    requires Tally(store, log, key) && Allowed(store, LastOf(log), effect)
    ensures Tally(Write(store, effect), log + [effect], key)
  {
    LogStep(log, effect, key);
    WriteStep(store, effect, key);
    hide Mints, Mails, LostMints, LostMarks, Write, IsBound, IsMailed;
    var next := log + [effect];
    assert next[|next| - 1] == effect;
    assert IsBound(store, key) == (key in store.bindings) by { BoundMeans(store, key); }
    assert IsMailed(store, key) == (key in store.bindings && store.bindings[key].emailed) by { BoundMeans(store, key); }
  }

  lemma BoundMeans(store: Store, key: string)
    ensures IsBound(store, key) == (key in store.bindings)
    ensures IsMailed(store, key) == (key in store.bindings && store.bindings[key].emailed)
  {
  }

  lemma OneCodeStep(store: Store, log: Effects, effect: Effect, key: string)
    requires OneCode(store, log, key) && Allowed(store, LastOf(log), effect)
    ensures OneCode(Write(store, effect), log + [effect], key)
  {
    WriteStep(store, effect, key);
    BoundMeans(store, key);
    BoundMeans(Write(store, effect), key);
    hide Write;
    var next, after := log + [effect], Write(store, effect);
    if IsMailed(after, key) {
      if IsMailed(store, key) {
        var i :| 0 <= i < |log| && MailedFor(log[i], key);
        assert next[i] == log[i];
      } else {
        assert MailedFor(next[|log| - 1], key);
      }
    }
  }

  lemma ActKeeps(w: World, effect: Effect)
    requires !w.dead && Invariant(w.store, w.log) && Allowed(w.store, LastOf(w.log), effect)
    ensures Invariant(Act(w, effect).store, Act(w, effect).log)
  {
    forall key ensures OneCode(Act(w, effect).store, Act(w, effect).log, key)
      && Tally(Act(w, effect).store, Act(w, effect).log, key) {
      var done := if w.fuel == 0 then Died else effect;
      TallyStep(w.store, w.log, done, key);
      OneCodeStep(w.store, w.log, done, key);
      assert Write(w.store, Died) == w.store;
    }
  }

  lemma {:induction false} ExecuteKeeps(w: World, plan: Effects)
    requires !w.dead && Invariant(w.store, w.log) && AllowedPlan(w.store, LastOf(w.log), plan)
    ensures var after := Execute(w, plan);
            && Invariant(after.store, after.log)
            && (after.dead ==> LastOf(after.log) == Some(Died))
    decreases |plan|
  {
    if |plan| > 0 {
      ActKeeps(w, plan[0]);
      var next := Act(w, plan[0]);
      if next.dead {
        ExecuteDead(next, plan[1..]);
      } else {
        ExecuteKeeps(next, plan[1..]);
      }
    }
  }

  // ---------------------------------------------------------------- parts that are allowed

  /** An effect that touches no binding and marks no event. */
  predicate Quiet(effect: Effect) {
    match effect
    case Minted(key, _) => key.None?
    case Mailed(key, _, _) => key.None?
    case Bound(_, _) => false
    case MarkedMailed(_) => false
    case Processed(_) => false
    case _ => true
  }

  predicate TouchesRows(effect: Effect) {
    effect.RowWritten? || effect.PaymentStateSet? || effect.SubscribedSet?
  }

  predicate AllQuiet(plan: Effects) {
    forall effect | effect in plan :: Quiet(effect)
  }

  function LastAfter(last: Option<Effect>, plan: Effects): Option<Effect> {
    if |plan| == 0 then last else Some(plan[|plan| - 1])
  }

  lemma {:induction false} AllowedConcat(store: Store, last: Option<Effect>, first: Effects, rest: Effects)
    requires AllowedPlan(store, last, first)
    requires AllowedPlan(After(store, first), LastAfter(last, first), rest)
    ensures AllowedPlan(store, last, first + rest)
    decreases |first|
  {
    if |first| == 0 {
      assert first + rest == rest;
    } else {
      assert (first + rest)[1..] == first[1..] + rest;
      AllowedConcat(Write(store, first[0]), Some(first[0]), first[1..], rest);
    }
  }

  lemma {:induction false} QuietIsAllowed(store: Store, last: Option<Effect>, plan: Effects)
    requires AllQuiet(plan) && !Open(last)
    ensures AllowedPlan(store, last, plan)
    ensures After(store, plan).bindings == store.bindings && After(store, plan).processed == store.processed
    ensures !Open(LastAfter(last, plan))
    decreases |plan|
  {
    if |plan| > 0 {
      assert plan[0] in plan && forall effect | effect in plan[1..] :: effect in plan;
      QuietIsAllowed(Write(store, plan[0]), Some(plan[0]), plan[1..]);
    }
  }

  /** One allowed effect in front of an allowed plan. */
  lemma Chain(store: Store, last: Option<Effect>, effect: Effect, rest: Effects)
    requires Allowed(store, last, effect)
    requires AllowedPlan(Write(store, effect), Some(effect), rest)
    ensures AllowedPlan(store, last, [effect] + rest)
    ensures After(store, [effect] + rest) == After(Write(store, effect), rest)
    ensures LastAfter(last, [effect] + rest) == LastAfter(Some(effect), rest)
  {
    assert ([effect] + rest)[1..] == rest;
  }

  lemma Alone(store: Store, last: Option<Effect>, effect: Effect)
    requires Allowed(store, last, effect)
    ensures AllowedPlan(store, last, [effect]) && After(store, [effect]) == Write(store, effect)
    ensures LastAfter(last, [effect]) == Some(effect)
  {
    assert [effect][1..] == [];
  }

  lemma IssuingIsAllowed(now: Store, planned: Store, last: Option<Effect>, key: Option<string>,
                         customer: Option<string>, email: Address, tier: Tier, settles: bool, ans: Answers)
    requires now.bindings == planned.bindings && !Open(last)
    ensures var plan := Issuing(planned, key, customer, email, tier, settles, ans);
            var code := IssuedCode(planned, key, ans);
            && AllowedPlan(now, last, plan)
            && LastAfter(last, plan) == Some(RowWritten(customer, email, code, tier, ans.now, settles))
            && After(now, plan).bindings
               == (if key.None? || key.value in planned.bindings then now.bindings
                   else now.bindings[key.value := Issuance(code, false)])
            && After(now, plan).processed == now.processed
  {
    var code := IssuedCode(planned, key, ans);
    var row := RowWritten(customer, email, code, tier, ans.now, settles);
    var plan := Issuing(planned, key, customer, email, tier, settles, ans);
    if key.Some? && key.value in planned.bindings {
      Alone(now, last, row);
      assert plan == [row];
    } else {
      var mint := Minted(key, code);
      if key.None? {
        Alone(now, Some(mint), row);
        Chain(now, last, mint, [row]);
        assert plan == [mint] + [row];
      } else {
        var bind := Bound(key.value, code);
        Alone(Write(now, bind), Some(bind), row);
        Chain(now, Some(mint), bind, [row]);
        Chain(now, last, mint, [bind] + [row]);
        assert plan == [mint] + ([bind] + [row]);
      }
    }
  }

  lemma DeliveringIsAllowed(now: Store, planned: Store, last: Option<Effect>, key: Option<string>, email: Address,
                            code: string)
    requires !Open(last)
    requires key.Some? ==>
               key.value in now.bindings && now.bindings[key.value] == Issuance(code, AlreadyMailed(planned, key))
    ensures var plan := Delivering(planned, key, email, code);
            && AllowedPlan(now, last, plan) && !Open(LastAfter(last, plan))
            && After(now, plan).bindings
               == (if key.None? then now.bindings else now.bindings[key.value := Issuance(code, true)])
            && After(now, plan).processed == now.processed
  {
    var plan := Delivering(planned, key, email, code);
    var mail := Mailed(key, email, code);
    if AlreadyMailed(planned, key) {
      assert now.bindings == now.bindings[key.value := Issuance(code, true)];
    } else if key.None? {
      Alone(now, Some(mail), Alerted);
      Chain(now, last, mail, [Alerted]);
      assert plan == [mail] + [Alerted];
    } else {
      var mark := MarkedMailed(key.value);
      Alone(Write(now, mark), Some(mark), Alerted);
      Chain(now, Some(mail), mark, [Alerted]);
      Chain(now, last, mail, [mark] + [Alerted]);
      assert plan == [mail] + ([mark] + [Alerted]);
    }
  }

  /** Issuing and delivering one invite, wherever in a plan its turn comes. */
  lemma InvitingIsAllowed(now: Store, planned: Store, last: Option<Effect>, key: Option<string>,
                          customer: Option<string>, email: Address, tier: Tier, settles: bool, ans: Answers)
    requires now.bindings == planned.bindings && !Open(last)
    ensures var plan := Inviting(planned, key, customer, email, tier, settles, ans);
            && AllowedPlan(now, last, plan) && !Open(LastAfter(last, plan))
            && After(now, plan).bindings
               == (if key.None? then now.bindings
                   else now.bindings[key.value := Issuance(IssuedCode(planned, key, ans), true)])
            && After(now, plan).processed == now.processed
  {
    var code := IssuedCode(planned, key, ans);
    var issuing := Issuing(planned, key, customer, email, tier, settles, ans);
    var delivering := Delivering(planned, key, email, code);
    var issued := After(now, issuing);
    IssuingIsAllowed(now, planned, last, key, customer, email, tier, settles, ans);
    DeliveringIsAllowed(issued, planned, LastAfter(last, issuing), key, email, code);
    hide Issuing, Delivering;
    AllowedConcat(now, last, issuing, delivering);
    AfterConcat(now, issuing, delivering);
    LastConcat(last, issuing, delivering);
    if key.Some? {
      assert issued.bindings[key.value := Issuance(code, true)] == now.bindings[key.value := Issuance(code, true)];
    }
  }

  lemma LastConcat(last: Option<Effect>, first: Effects, rest: Effects)
    ensures LastAfter(last, first + rest) == LastAfter(LastAfter(last, first), rest)
  {
    if |rest| == 0 {
      assert first + rest == first;
    }
  }

  // ---------------------------------------------------------------- what the shared parts contain

  /** Retirement only ever asks, cancels, voids and alerts, and what it cancels is among the dunning. */
  predicate RetiresOnly(effect: Effect, dunning: seq<Subscription>) {
    match effect
    case Asked(_) => true
    case Voided(_) => true
    case Alerted => true
    case Cancelled(subscription, of) => exists s :: s in dunning && s.id == subscription && s.customer == of
    case _ => false
  }

  lemma {:induction false} CancellingMeans(ans: Answers, dunning: seq<Subscription>)
    ensures forall effect | effect in Cancelling(ans, dunning) :: RetiresOnly(effect, dunning)
    decreases |dunning|
  {
    if |dunning| > 0 {
      CancellingMeans(ans, dunning[1..]);
      assert dunning[0] in dunning;
      forall effect | effect in Cancelling(ans, dunning) ensures RetiresOnly(effect, dunning) {
        if effect in Cancelling(ans, dunning[1..]) {
          assert RetiresOnly(effect, dunning[1..]);
        }
      }
    }
  }

  lemma RetiringMeans(ans: Answers, payingUnder: string)
    ensures forall effect | effect in Retiring(ans, payingUnder) :: RetiresOnly(effect, DunningOthers(ans, payingUnder))
    ensures AllQuiet(Retiring(ans, payingUnder))
  {
    CancellingMeans(ans, DunningOthers(ans, payingUnder));
    hide Cancelling, DunningOthers;
    var all := CancelAndVoid(ans, payingUnder);
    forall effect | effect in Retiring(ans, payingUnder) ensures RetiresOnly(effect, DunningOthers(ans, payingUnder)) {
      if effect in Listing(ans, payingUnder) {
        assert effect.Asked?;
      }
    }
  }

  lemma ResettingMeans(person: Person, ans: Answers)
    ensures forall effect | effect in Resetting(person, ans) :: effect.Disabled? || effect.Stamped?
  {
  }

  // ---------------------------------------------------------------- every plan is allowed

  ghost predicate AllowedThroughout(store: Store, last: Option<Effect>, plan: Effects) {
    && AllowedPlan(store, last, plan) && !Open(LastAfter(last, plan))
    && After(store, plan).processed == store.processed
  }

  /** A plan that invites once, between effects that touch no binding. */
  lemma InvitingAmong(store: Store, last: Option<Effect>, before: Effects, planned: Store, key: Option<string>,
                      customer: Option<string>, email: Address, tier: Tier, settles: bool, ans: Answers, after: Effects)
    requires AllQuiet(before) && AllQuiet(after) && !Open(last) && planned.bindings == store.bindings
    ensures var plan := before + Inviting(planned, key, customer, email, tier, settles, ans) + after;
            && AllowedThroughout(store, last, plan)
            && After(store, plan).bindings
               == (if key.None? then store.bindings
                   else store.bindings[key.value := Issuance(IssuedCode(planned, key, ans), true)])
  {
    var inviting := Inviting(planned, key, customer, email, tier, settles, ans);
    var first := before + inviting;
    QuietIsAllowed(store, last, before);
    InvitingIsAllowed(After(store, before), planned, LastAfter(last, before), key, customer, email, tier, settles, ans);
    AllowedConcat(store, last, before, inviting);
    AfterConcat(store, before, inviting);
    LastConcat(last, before, inviting);
    QuietIsAllowed(After(store, first), LastAfter(last, first), after);
    AllowedConcat(store, last, first, after);
    AfterConcat(store, first, after);
    LastConcat(last, first, after);
  }

  lemma QuietThroughout(store: Store, last: Option<Effect>, plan: Effects)
    requires AllQuiet(plan) && !Open(last)
    ensures AllowedThroughout(store, last, plan) && After(store, plan).bindings == store.bindings
  {
    QuietIsAllowed(store, last, plan);
  }

  lemma CheckoutIsAllowed(store: Store, last: Option<Effect>, session: Option<string>, customer: Option<string>,
                          email: Option<Address>, tier: Tier, ans: Answers)
    requires !Open(last)
    ensures AllowedThroughout(store, last, CheckoutPlan(store, session, customer, email, tier, ans))
    ensures email.Some? && !IsBanned(TagOf(store, CheckoutPerson(store, customer, email.value, ans))) ==>
              var plan := CheckoutPlan(store, session, customer, email, tier, ans);
              var code := IssuedCode(store, SessionKey(session), ans);
              && RowWritten(customer, email.value, code, tier, ans.now, true) in plan
              && (session.Some? ==> After(store, plan).bindings
                                    == store.bindings[OperationKey(Checkout(session.value)) := Issuance(code, true)])
  {
    hide CheckoutPerson, CheckoutRetiring, CheckoutResetting, Inviting, Issuing, IssuedCode, AllowedThroughout, After;
    if email.None? || IsBanned(TagOf(store, CheckoutPerson(store, customer, email.value, ans))) {
      QuietThroughout(store, last, CheckoutPlan(store, session, customer, email, tier, ans));
    } else {
      var key := SessionKey(session);
      var rest := CheckoutRetiring(customer, ans)
                  + CheckoutResetting(store, Issuing(store, key, customer, email.value, tier, true, ans), customer,
                                      email.value, ans);
      CheckoutRestIsQuiet(store, Issuing(store, key, customer, email.value, tier, true, ans), customer, email.value,
                          ans);
      InvitingAmong(store, last, [Asked(Wizarr), Asked(Libraries)], store, key, customer, email.value, tier, true, ans,
                    rest);
      InvitingWritesTheRow(store, key, customer, email.value, tier, true, ans);
      var inviting := Inviting(store, key, customer, email.value, tier, true, ans);
      assert [Asked(Wizarr), Asked(Libraries)] + (inviting + rest)
             == [Asked(Wizarr), Asked(Libraries)] + inviting + rest;
    }
  }

  lemma CheckoutRestIsQuiet(store: Store, issuing: Effects, customer: Option<string>, email: Address, ans: Answers)
    ensures AllQuiet(CheckoutRetiring(customer, ans) + CheckoutResetting(store, issuing, customer, email, ans))
    ensures forall effect | effect in CheckoutResetting(store, issuing, customer, email, ans) ::
              effect.Disabled? || effect.Stamped?
  {
    hide Retiring, Resetting, RetirementOf, Resolve, SnapshotOf, TagOf, After, CheckoutPerson;
    if customer.Some? {
      RetiringMeans(ans, customer.value);
    }
    ResettingMeans(Resolve(SnapshotOf(store, ans), After(store, issuing).rows, customer, Some(email)), ans);
  }

  lemma InvitingWritesTheRow(store: Store, key: Option<string>, customer: Option<string>, email: Address, tier: Tier,
                             settles: bool, ans: Answers)
    ensures RowWritten(customer, email, IssuedCode(store, key, ans), tier, ans.now, settles)
            in Inviting(store, key, customer, email, tier, settles, ans)
  {
    hide IssuedCode, Delivering;
    var row := RowWritten(customer, email, IssuedCode(store, key, ans), tier, ans.now, settles);
    assert row in [row];
  }

  lemma RenewingIsAllowed(store: Store, last: Option<Effect>, before: Effects, paid: Store, invoice: Option<string>,
                          customer: string, email: Address, ans: Answers)
    requires !Open(last) && AllQuiet(before) && paid.bindings == store.bindings
    ensures AllowedThroughout(store, last, before + Renewing(paid, invoice, customer, email, ans))
  {
    hide Resolve, SnapshotOf, TagOf, Inviting, TierAt, AllowedThroughout;
    var plan := Renewing(paid, invoice, customer, email, ans);
    var raised := Write(paid, SubscribedSet(email, true));
    if Restores(paid, invoice, customer, email, ans) {
      RestoringShape(paid, invoice, customer, email, ans);
      var front := [SubscribedSet(email, true), Asked(Libraries)];
      var key := Some(OperationKey(Recovery(invoice.value)));
      var tier := TierAt(raised.rows, email);
      assert forall effect | effect in before + front :: Quiet(effect);
      InvitingAmong(store, last, before + front, raised, key, Some(customer), email, tier, false, ans, []);
      var inviting := Inviting(raised, key, Some(customer), email, tier, false, ans);
      assert before + plan == before + front + inviting + [];
    } else {
      RenewingIsQuiet(paid, invoice, customer, email, ans);
      QuietThroughout(store, last, before + plan);
    }
  }

  /** Whether a paid renewal ends in a fresh invite. */
  predicate Restores(paid: Store, invoice: Option<string>, customer: string, email: Address, ans: Answers) {
    var person := Resolve(SnapshotOf(paid, ans), paid.rows, Some(customer), Some(email));
    IsTimeBoxed(TagOf(paid, person)) && |person.records| == 0 && invoice.Some?
  }

  lemma RestoringShape(paid: Store, invoice: Option<string>, customer: string, email: Address, ans: Answers)
    requires Restores(paid, invoice, customer, email, ans)
    ensures var raised := Write(paid, SubscribedSet(email, true));
            Renewing(paid, invoice, customer, email, ans)
            == [SubscribedSet(email, true), Asked(Libraries)]
               + Inviting(raised, Some(OperationKey(Recovery(invoice.value))), Some(customer), email,
                          TierAt(raised.rows, email), false, ans)
  {
    hide Resolve, SnapshotOf, TagOf, Inviting, TierAt, Write;
  }

  lemma RenewingIsQuiet(paid: Store, invoice: Option<string>, customer: string, email: Address, ans: Answers)
    requires !Restores(paid, invoice, customer, email, ans)
    ensures AllQuiet(Renewing(paid, invoice, customer, email, ans))
  {
    hide Resolve, SnapshotOf, TagOf, Inviting, TierAt, Write;
  }

  lemma InvoicePaidIsAllowed(store: Store, last: Option<Effect>, invoice: Option<string>, customer: Option<string>,
                             own: Option<Address>, first: bool, ans: Answers)
    requires !Open(last)
    ensures AllowedThroughout(store, last, InvoicePaidPlan(store, invoice, customer, own, first, ans))
  {
    hide PayerEmail, Renewing, AllowedThroughout, InvoicePaidPlan, PayerAsks, AllQuiet;
    var plan := InvoicePaidPlan(store, invoice, customer, own, first, ans);
    var email := PayerEmail(store.rows, own, customer, ans);
    if customer.None? || first || email.None? {
      InvoicePaidIsQuiet(store, invoice, customer, own, first, ans);
      QuietThroughout(store, last, plan);
    } else {
      var settle := PaymentStateSet(email.value, false);
      var before := PayerAsks(store.rows, own, customer) + [settle, Asked(Wizarr)];
      InvoicePaidShape(store, invoice, customer.value, own, email.value, ans);
      RenewingIsAllowed(store, last, before, Write(store, settle), invoice, customer.value, email.value, ans);
    }
  }

  lemma InvoicePaidIsQuiet(store: Store, invoice: Option<string>, customer: Option<string>, own: Option<Address>,
                           first: bool, ans: Answers)
    requires customer.None? || first || PayerEmail(store.rows, own, customer, ans).None?
    ensures AllQuiet(InvoicePaidPlan(store, invoice, customer, own, first, ans))
  {
    if customer.Some? {
      var email := PayerEmail(store.rows, own, customer, ans);
      AsksAreQuiet(store.rows, own, customer);
      UnrenewedIsQuiet(store, invoice, customer.value, email, first, ans);
      QuietSum(PayerAsks(store.rows, own, customer),
               InvoicePaidRest(store, invoice, customer.value, email, first, ans));
    }
    hide PayerEmail, PayerAsks, InvoicePaidRest;
  }

  lemma AsksAreQuiet(rows: seq<Row>, own: Option<Address>, customer: Option<string>)
    ensures AllQuiet(PayerAsks(rows, own, customer))
  {
    hide MappedEmail;
  }

  lemma UnrenewedIsQuiet(store: Store, invoice: Option<string>, customer: string, email: Option<Address>, first: bool,
                         ans: Answers)
    requires first || email.None?
    ensures AllQuiet(InvoicePaidRest(store, invoice, customer, email, first, ans))
  {
    hide Resolve, SnapshotOf, Renewing, Write;
  }

  lemma InvoicePaidShape(store: Store, invoice: Option<string>, customer: string, own: Option<Address>, email: Address,
                         ans: Answers)
    requires PayerEmail(store.rows, own, Some(customer), ans) == Some(email)
    ensures var settle, asks := PaymentStateSet(email, false), PayerAsks(store.rows, own, Some(customer));
            && AllQuiet(asks + [settle, Asked(Wizarr)])
            && InvoicePaidPlan(store, invoice, Some(customer), own, false, ans)
               == asks + [settle, Asked(Wizarr)] + Renewing(Write(store, settle), invoice, customer, email, ans)
  {
    hide PayerEmail, MappedEmail, Renewing, Write;
  }

  lemma RetiringWritesNoRow(customer: Option<string>, ans: Answers)
    ensures forall effect | effect in CheckoutRetiring(customer, ans) :: !TouchesRows(effect)
  {
    if customer.Some? {
      RetiringMeans(ans, customer.value);
      hide Retiring, RetirementOf, DunningOthers;
    }
  }

  lemma {:induction false} RowsStay(store: Store, plan: Effects)
    requires forall effect | effect in plan :: !TouchesRows(effect)
    ensures After(store, plan).rows == store.rows
    decreases |plan|
  {
    if |plan| > 0 {
      assert plan[0] in plan && forall effect | effect in plan[1..] :: effect in plan;
      RowsStay(Write(store, plan[0]), plan[1..]);
    }
  }

  lemma InvitingTouchesOneRow(store: Store, key: Option<string>, customer: Option<string>, email: Address, tier: Tier,
                              settles: bool, ans: Answers)
    ensures forall effect | effect in Inviting(store, key, customer, email, tier, settles, ans)
            && TouchesRows(effect) ::
              effect == RowWritten(customer, email, IssuedCode(store, key, ans), tier, ans.now, settles)
  {
    hide IssuedCode, AlreadyMailed;
  }

  predicate Flags(effect: Effect) {
    !effect.RowWritten? && !effect.SubscribedSet? && !effect.Disabled? && !effect.Stamped? && !effect.Minted?
      && !effect.Mailed?
  }

  lemma RetiringOnlyFlags(ans: Answers, payingUnder: string)
    ensures forall effect | effect in Retiring(ans, payingUnder) :: Quiet(effect) && Flags(effect)
  {
    RetiringMeans(ans, payingUnder);
    hide Retiring, RetirementOf, DunningOthers;
  }

  lemma PaymentFailedIsQuiet(store: Store, customer: Option<string>, own: Option<Address>, ans: Answers)
    ensures forall effect | effect in PaymentFailedPlan(store, customer, own, ans) :: Quiet(effect) && Flags(effect)
  {
    hide PayerEmail, MappedEmail, Retiring, RetirementOf, Siblings, LiveSibling;
    var email := PayerEmail(store.rows, own, customer, ans);
    if email.Some? && customer.Some? {
      var sibling := LiveSibling(store.rows, email.value, customer.value, ans);
      if sibling.Some? {
        RetiringOnlyFlags(ans, sibling.value);
      }
    }
  }

  lemma QuietSum(first: Effects, rest: Effects)
    ensures AllQuiet(first + rest) <==> AllQuiet(first) && AllQuiet(rest)
  {
    assert forall effect | effect in first :: effect in first + rest;
    assert forall effect | effect in rest :: effect in first + rest;
  }

  lemma CuttingIsQuiet(store: Store, customer: string, email: Address, sibling: Option<string>, ans: Answers)
    ensures AllQuiet(Cutting(store, customer, email, sibling, ans))
  {
    hide Resolve, SnapshotOf, TagOf, SubscribedElsewhere;
  }

  lemma DeletedIsQuiet(store: Store, customer: Option<string>, own: Option<Address>, ans: Answers)
    ensures AllQuiet(DeletedPlan(store, customer, own, ans))
  {
    hide PayerEmail, MappedEmail, Resolve, SnapshotOf, LiveSibling, Write, Cutting;
    if customer.Some? {
      var email := PayerEmail(store.rows, own, customer, ans);
      var asks := PayerAsks(store.rows, own, customer);
      if email.Some? {
        var sibling := LiveSibling(store.rows, email.value, customer.value, ans);
        var flag := if sibling.Some? then PaymentStateSet(email.value, false) else SubscribedSet(email.value, false);
        var first := SiblingAsks(store.rows, email.value, customer.value) + [flag, Asked(Wizarr)];
        CuttingIsQuiet(Write(store, flag), customer.value, email.value, sibling, ans);
        QuietSum(first, Cutting(Write(store, flag), customer.value, email.value, sibling, ans));
        QuietSum(asks, first + Cutting(Write(store, flag), customer.value, email.value, sibling, ans));
      }
    }
  }

  lemma EventIsAllowed(store: Store, last: Option<Effect>, event: Event, ans: Answers)
    requires !Open(last)
    ensures AllowedThroughout(store, last, EventPlan(store, event, ans))
  {
    hide CheckoutPlan, InvoicePaidPlan, PaymentFailedPlan, DeletedPlan, AllowedThroughout;
    match event
    case CheckoutCompleted(session, customer, email, tier) =>
      CheckoutIsAllowed(store, last, session, customer, email, tier, ans);
    case InvoicePaid(invoice, customer, own, first) =>
      InvoicePaidIsAllowed(store, last, invoice, customer, own, first, ans);
    case PaymentFailed(customer, own) =>
      PaymentFailedIsQuiet(store, customer, own, ans);
      QuietThroughout(store, last, EventPlan(store, event, ans));
    case SubscriptionUpdated(_, _, _) =>
      QuietThroughout(store, last, EventPlan(store, event, ans));
    case SubscriptionDeleted(customer, own) =>
      DeletedIsQuiet(store, customer, own, ans);
      QuietThroughout(store, last, EventPlan(store, event, ans));
    case OtherEvent => QuietThroughout(store, last, EventPlan(store, event, ans));
  }
}
