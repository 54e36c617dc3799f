/** What holds after any number of deliveries, each of which may have died anywhere. */
module Retries {
  import opened Options
  import opened Identity
  import opened Standing
  import opened BridgeStore
  import opened WebhookPlans
  import opened Delivery
  import opened TagRules
  import opened Recipients

  // ---------------------------------------------------------------- one step

  lemma HandleIsAllowed(store: Store, last: Option<Effect>, id: Option<string>, event: Event, ans: Answers)
    requires !Open(last)
    ensures AllowedPlan(store, last, HandlePlan(store, id, event, ans))
    ensures !Open(LastAfter(last, HandlePlan(store, id, event, ans)))
  {
    if !(id.Some? && id.value in store.processed) {
      EventIsAllowed(store, last, event, ans);
      var plan := EventPlan(store, event, ans);
      hide EventPlan;
      if id.Some? {
        Alone(After(store, plan), LastAfter(last, plan), Processed(id.value));
        AllowedConcat(store, last, plan, [Processed(id.value)]);
      } else {
        assert plan + [] == plan;
      }
    }
  }

  /** An allowed plan, stopped anywhere, keeps the invariant and leaves no operation half done. */
  lemma PerformedKeeps(live: World, plan: Effects)
    requires !live.dead && Invariant(live.store, live.log) && AllowedPlan(live.store, LastOf(live.log), plan)
    requires !Open(LastAfter(LastOf(live.log), plan))
    ensures Invariant(Execute(live, plan).store, Execute(live, plan).log) && !Open(LastOf(Execute(live, plan).log))
  {
    hide Invariant, AllowedPlan;
    var after := Execute(live, plan);
    ExecuteKeeps(live, plan);
    ExecuteIsPrefix(live, plan);
    hide Execute;
    if !after.dead {
      assert plan[..|plan|] == plan;
      assert after.log == live.log + plan + [] == live.log + plan;
    }
  }

  lemma AdministeringKeeps(w: World, step: Step)
    requires step.Administered? && Invariant(w.store, w.log)
    ensures Invariant(Deliver(w, step).store, w.log)
  {
    forall key ensures OneCode(Deliver(w, step).store, w.log, key) && Tally(Deliver(w, step).store, w.log, key) {
      assert OneCode(w.store, w.log, key) && Tally(w.store, w.log, key);
    }
  }

  lemma StepKeeps(w: World, step: Step)
    requires Invariant(w.store, w.log) && !Open(LastOf(w.log))
    ensures Invariant(Deliver(w, step).store, Deliver(w, step).log) && !Open(LastOf(Deliver(w, step).log))
  {
    if step.Delivered? {
      HandleIsAllowed(w.store, LastOf(w.log), step.id, step.event, step.answers);
      hide HandlePlan, Invariant, AllowedPlan, Open, LastAfter, LastOf, Execute;
      PerformedKeeps(w.(fuel := step.fuel, dead := false), HandlePlan(w.store, step.id, step.event, step.answers));
    } else {
      AdministeringKeeps(w, step);
      hide Invariant;
    }
  }

  lemma {:induction false} RunKeeps(steps: seq<Step>)
    ensures Invariant(Run(EMPTY, steps).store, Run(EMPTY, steps).log) && !Open(LastOf(Run(EMPTY, steps).log))
    decreases |steps|
  {
    if |steps| > 0 {
      RunKeeps(steps[..|steps| - 1]);
      StepKeeps(Run(EMPTY, steps[..|steps| - 1]), steps[|steps| - 1]);
    }
  }

  // ---------------------------------------------------------------- the binding

  ghost predicate Extends(before: World, after: World) {
    && before.log <= after.log
    && before.store.processed <= after.store.processed
    && forall key | key in before.store.bindings ::
         key in after.store.bindings && after.store.bindings[key].code == before.store.bindings[key].code
         && (before.store.bindings[key].emailed ==> after.store.bindings[key].emailed)
  }

  lemma {:induction false} ExecuteExtends(w: World, plan: Effects)
    ensures Extends(w, Execute(w, plan))
    decreases |plan|
  {
    if |plan| > 0 {
      var next := Act(w, plan[0]);
      assert Extends(w, next);
      ExecuteExtends(next, plan[1..]);
    }
  }

  lemma StepExtends(w: World, step: Step)
    ensures Extends(w, Deliver(w, step))
  {
    if step.Delivered? {
      hide HandlePlan;
      ExecuteExtends(w.(fuel := step.fuel, dead := false), HandlePlan(w.store, step.id, step.event, step.answers));
    }
  }

  lemma ExtendsOn(a: World, b: World, c: World)
    requires Extends(a, b) && Extends(b, c)
    ensures Extends(a, c)
  {
  }

  lemma {:induction false} RunExtends(w: World, earlier: seq<Step>, later: seq<Step>)
    ensures Extends(Run(w, earlier), Run(w, earlier + later))
    decreases |later|
  {
    var steps := earlier + later;
    if |later| == 0 {
      assert steps == earlier;
    } else {
      var front := later[..|later| - 1];
      assert steps[..|steps| - 1] == earlier + front && steps[|steps| - 1] == later[|later| - 1];
      RunExtends(w, earlier, front);
      var before, step := Run(w, earlier + front), steps[|steps| - 1];
      StepExtends(before, step);
      hide Deliver;
      ExtendsOn(Run(w, earlier), before, Run(w, steps));
    }
  }

  /** Once a named operation is bound to an invite, no delivery, retry or failure changes which. */
  lemma BoundInviteNeverChanges(earlier: seq<Step>, later: seq<Step>, key: string)
    requires key in Run(EMPTY, earlier).store.bindings
    ensures key in Run(EMPTY, earlier + later).store.bindings
    ensures Run(EMPTY, earlier + later).store.bindings[key].code == Run(EMPTY, earlier).store.bindings[key].code
  {
    RunExtends(EMPTY, earlier, later);
  }

  /** Every link ever mailed for an operation carries the code it is bound to. */
  lemma EveryLinkCarriesTheBoundCode(steps: seq<Step>, key: string, i: nat)
    requires i < |Run(EMPTY, steps).log| && MailedFor(Run(EMPTY, steps).log[i], key)
    ensures key in Run(EMPTY, steps).store.bindings
    ensures Run(EMPTY, steps).log[i].code == Run(EMPTY, steps).store.bindings[key].code
  {
    RunKeeps(steps);
    assert OneCode(Run(EMPTY, steps).store, Run(EMPTY, steps).log, key);
  }

  /**
   * Mints beyond the one an operation is bound to are exactly the deliveries that died between
   * create and bind; mails beyond the marked one, those that died between send and mark.
   */
  lemma ExtrasAreFailures(steps: seq<Step>, key: string)
    ensures var w := Run(EMPTY, steps);
            && Mints(w.log, key) == LostMints(w.log, key) + (if key in w.store.bindings then 1 else 0)
            && Mails(w.log, key) == LostMarks(w.log, key)
                                    + (if key in w.store.bindings && w.store.bindings[key].emailed then 1 else 0)
  {
    RunKeeps(steps);
    assert Tally(Run(EMPTY, steps).store, Run(EMPTY, steps).log, key);
  }

  // ---------------------------------------------------------------- what being processed means

  lemma {:induction false} WithoutMarks(store: Store, plan: Effects)
    requires forall effect | effect in plan :: !effect.Processed?
    ensures After(store, plan).processed == store.processed
    decreases |plan|
  {
    if |plan| > 0 {
      assert plan[0] in plan && forall effect | effect in plan[1..] :: effect in plan;
      WithoutMarks(Write(store, plan[0]), plan[1..]);
    }
  }

  lemma {:induction false} MarksOnlyGrow(store: Store, plan: Effects)
    ensures store.processed <= After(store, plan).processed
    decreases |plan|
  {
    if |plan| > 0 {
      MarksOnlyGrow(Write(store, plan[0]), plan[1..]);
    }
  }

  /** An event newly marked was carried through: its whole plan is in the log, and in the tables. */
  lemma MarkedMeansPerformed(w: World, id: string, event: Event, ans: Answers, fuel: nat)
    requires !Open(LastOf(w.log)) && id !in w.store.processed
    requires id in Deliver(w, Delivered(Some(id), event, ans, fuel)).store.processed
    ensures var after := Deliver(w, Delivered(Some(id), event, ans, fuel));
            var plan := EventPlan(w.store, event, ans);
            && after.log == w.log + plan + [Processed(id)]
            && after.store.bindings == After(w.store, plan).bindings
  {
    HandlingMarksNothing(w.store, event, ans);
    hide EventPlan;
    CarriedThrough(w.(fuel := fuel, dead := false), EventPlan(w.store, event, ans), id);
  }

  lemma HandlingMarksNothing(store: Store, event: Event, ans: Answers)
    ensures After(store, EventPlan(store, event, ans)).processed == store.processed
  {
    hide EventPlan, AllowedPlan;
    EventIsAllowed(store, None, event, ans);
  }

  lemma UnfinishedMarksNothing(store: Store, handling: Effects, n: nat)
    requires n <= |handling| && After(store, handling).processed == store.processed
    ensures After(store, handling[..n]).processed <= store.processed
  {
    assert handling == handling[..n] + handling[n..];
    AfterConcat(store, handling[..n], handling[n..]);
    MarksOnlyGrow(After(store, handling[..n]), handling[n..]);
  }

  lemma CarriedThrough(live: World, handling: Effects, id: string)
    requires !live.dead && id !in live.store.processed && After(live.store, handling).processed == live.store.processed
    requires id in Execute(live, handling + [Processed(id)]).store.processed
    ensures var after := Execute(live, handling + [Processed(id)]);
            && after.log == live.log + handling + [Processed(id)]
            && after.store.bindings == After(live.store, handling).bindings
  {
    var plan := handling + [Processed(id)];
    var after := Execute(live, plan);
    ExecuteIsPrefix(live, plan);
    hide Execute;
    var n :| 0 <= n <= |plan| && after.store == After(live.store, plan[..n])
             && after.log == live.log + plan[..n] + (if after.dead then [Died] else [])
             && (after.dead <==> n < |plan|);
    if n < |plan| {
      assert plan[..n] == handling[..n];
      UnfinishedMarksNothing(live.store, handling, n);
      assert false;
    }
    assert plan[..n] == plan;
    FinishedLeaves(live.store, handling, id);
    hide After;
    assert live.log + plan == live.log + handling + [Processed(id)];
  }

  lemma FinishedLeaves(store: Store, handling: Effects, id: string)
    ensures After(store, handling + [Processed(id)]).bindings == After(store, handling).bindings
  {
    AfterConcat(store, handling, [Processed(id)]);
    After1(After(store, handling), Processed(id));
  }

  lemma After1(store: Store, effect: Effect)
    ensures After(store, [effect]) == Write(store, effect)
  {
    assert [effect][1..] == [];
  }

  /** An invite an event owes: the key it is issued under, if its operation has a name, and the row that records it. */
  datatype Debt = Debt(key: Option<string>, row: Effect)

  /** A delivery that lived to its end leaves its event processed; a processed one does nothing again. */
  lemma DeliveriesAreHandledOnce(w: World, id: string, event: Event, ans: Answers, fuel: nat)
    ensures var after := Deliver(w, Delivered(Some(id), event, ans, fuel));
            && (id in w.store.processed ==> after.store == w.store && after.log == w.log)
            && (!after.dead ==> id in after.store.processed)
            && (!after.dead && id !in w.store.processed
                ==> after.log == w.log + EventPlan(w.store, event, ans) + [Processed(id)])
  {
    if id !in w.store.processed {
      hide EventPlan;
      LiveIsMarked(w.(fuel := fuel, dead := false), EventPlan(w.store, event, ans), id);
    }
  }

  lemma LiveIsMarked(live: World, handling: Effects, id: string)
    requires !live.dead
    ensures var after := Execute(live, handling + [Processed(id)]);
            !after.dead ==> id in after.store.processed && after.log == live.log + handling + [Processed(id)]
  {
    var plan := handling + [Processed(id)];
    ExecuteIsPrefix(live, plan);
    AfterConcat(live.store, handling, [Processed(id)]);
    After1(After(live.store, handling), Processed(id));
    hide Execute, After;
    assert plan[..|plan|] == plan;
    assert live.log + plan + [] == live.log + handling + [Processed(id)];
  }

  /**
   * The invite an event owes its payer. A checkout owes one unless the payer is banned; a paid renewal
   * owes one when nothing else answers for the payment.
   */
  function Owed(store: Store, event: Event, ans: Answers): Option<Debt> {
    match event
    case CheckoutCompleted(session, customer, Some(email), tier) =>
      if IsBanned(TagOf(store, CheckoutPerson(store, customer, email, ans))) then None else
      var key := SessionKey(session);
      Some(Debt(key, RowWritten(customer, email, IssuedCode(store, key, ans), tier, ans.now, true)))
    case InvoicePaid(Some(invoice), Some(customer), own, false) =>
      var email := PayerEmail(store.rows, own, Some(customer), ans);
      if email.None? then None else
      var paid := Write(store, PaymentStateSet(email.value, false));
      var raised := Write(paid, SubscribedSet(email.value, true));
      if !Restores(paid, Some(invoice), customer, email.value, ans) then None else
      var key := Some(OperationKey(Recovery(invoice)));
      Some(Debt(key, RowWritten(Some(customer), email.value, IssuedCode(raised, key, ans),
                                TierAt(raised.rows, email.value), ans.now, false)))
    case _ => None
  }

  /**
   * A plan pays what is owed: the row is written, and a key ends bound to its code and mailed. With no
   * key, the link is sent to the payer with the code of the row.
   */
  ghost predicate Pays(store: Store, plan: Effects, owed: Debt) {
    && owed.row.RowWritten? && owed.row in plan
    && if owed.key.Some? then
         After(store, plan).bindings == store.bindings[owed.key.value := Issuance(owed.row.code, true)]
       else Minted(None, owed.row.code) in plan && Mailed(None, owed.row.email, owed.row.code) in plan
  }

  lemma OwedIsPlanned(store: Store, event: Event, ans: Answers)
    requires Owed(store, event, ans).Some?
    ensures Pays(store, EventPlan(store, event, ans), Owed(store, event, ans).value)
  {
    match event
    case CheckoutCompleted(session, customer, email, tier) =>
      CheckoutPays(store, session, customer, email.value, tier, ans);
    case InvoicePaid(invoice, customer, own, first) =>
      RecoveryPays(store, invoice.value, customer.value, own, ans);
  }

  lemma CheckoutPays(store: Store, session: Option<string>, customer: Option<string>, email: Address, tier: Tier,
                     ans: Answers)
    requires Owed(store, CheckoutCompleted(session, customer, Some(email), tier), ans).Some?
    ensures Pays(store, CheckoutPlan(store, session, customer, Some(email), tier, ans),
                 Owed(store, CheckoutCompleted(session, customer, Some(email), tier), ans).value)
  {
    CheckoutIsAllowed(store, None, session, customer, Some(email), tier, ans);
    if session.None? {
      NamelessIsMailed(store, customer, email, tier, ans);
    }
    hide CheckoutPlan, CheckoutPerson, IssuedCode, After;
  }

  lemma NamelessIsMailed(store: Store, customer: Option<string>, email: Address, tier: Tier, ans: Answers)
    requires !IsBanned(TagOf(store, CheckoutPerson(store, customer, email, ans)))
    ensures var plan, code := CheckoutPlan(store, None, customer, Some(email), tier, ans), IssuedCode(store, None, ans);
            Minted(None, code) in plan && Mailed(None, email, code) in plan
  {
    hide CheckoutPerson, CheckoutRetiring, CheckoutResetting, TagOf;
    var code := IssuedCode(store, None, ans);
    var inviting := Inviting(store, None, customer, email, tier, true, ans);
    assert inviting == [Minted(None, code), RowWritten(customer, email, code, tier, ans.now, true),
                        Mailed(None, email, code), Alerted];
    hide Inviting, Issuing, IssuedCode;
  }

  lemma RecoveryPays(store: Store, invoice: string, customer: string, own: Option<Address>, ans: Answers)
    requires Owed(store, InvoicePaid(Some(invoice), Some(customer), own, false), ans).Some?
    ensures Pays(store, InvoicePaidPlan(store, Some(invoice), Some(customer), own, false, ans),
                 Owed(store, InvoicePaid(Some(invoice), Some(customer), own, false), ans).value)
  {
    hide PayerEmail, MappedEmail, Inviting, TierAt, IssuedCode, Restores, After, Write, Renewing, OperationKey;
    var email := PayerEmail(store.rows, own, Some(customer), ans);
    var settle, raise := PaymentStateSet(email.value, false), SubscribedSet(email.value, true);
    var paid := Write(store, settle);
    var raised := Write(paid, raise);
    var key := Some(OperationKey(Recovery(invoice)));
    var tier := TierAt(raised.rows, email.value);
    var inviting := Inviting(raised, key, Some(customer), email.value, tier, false, ans);
    var asks := PayerAsks(store.rows, own, Some(customer));
    var before := asks + [settle, Asked(Wizarr), raise, Asked(Libraries)];
    RestoringShape(paid, Some(invoice), customer, email.value, ans);
    FlagsKeepBindings(store, email.value);
    InvitingAmong(store, None, before, raised, key, Some(customer), email.value, tier, false, ans, []);
    InvitingWritesTheRow(raised, key, Some(customer), email.value, tier, false, ans);
    var plan := InvoicePaidPlan(store, Some(invoice), Some(customer), own, false, ans);
    assert plan == asks + [settle] + ([Asked(Wizarr)] + Renewing(paid, Some(invoice), customer, email.value, ans));
    assert plan == before + inviting + [];
  }

  lemma FlagsKeepBindings(store: Store, email: Address)
    ensures Write(Write(store, PaymentStateSet(email, false)), SubscribedSet(email, true)).bindings == store.bindings
  {
  }

  /** What an event owed has been paid, whatever came after: the same code bound, mailed and recorded. */
  ghost predicate Paid(w: World, owed: Debt) {
    && owed.row.RowWritten? && owed.row in w.log
    && if owed.key.None? then
         Minted(None, owed.row.code) in w.log && Mailed(None, owed.row.email, owed.row.code) in w.log
       else
         && owed.key.value in w.store.bindings && w.store.bindings[owed.key.value].code == owed.row.code
         && exists i :: 0 <= i < |w.log| && MailedFor(w.log[i], owed.key.value) && w.log[i].code == owed.row.code
  }

  lemma MarkedMeansPaidNow(w: World, id: string, event: Event, ans: Answers, fuel: nat)
    requires Invariant(w.store, w.log) && !Open(LastOf(w.log))
    requires id !in w.store.processed && id in Deliver(w, Delivered(Some(id), event, ans, fuel)).store.processed
    requires Owed(w.store, event, ans).Some?
    ensures var owed := Owed(w.store, event, ans).value;
            Paid(Deliver(w, Delivered(Some(id), event, ans, fuel)), owed)
  {
    hide Deliver, EventPlan, After, Owed;
    var after := Deliver(w, Delivered(Some(id), event, ans, fuel));
    var owed := Owed(w.store, event, ans).value;
    StepKeeps(w, Delivered(Some(id), event, ans, fuel));
    MarkedMeansPerformed(w, id, event, ans, fuel);
    OwedIsPlanned(w.store, event, ans);
    assert owed.row in EventPlan(w.store, event, ans) && owed.row in after.log;
    if owed.key.Some? {
      assert OneCode(after.store, after.log, owed.key.value);
    }
  }

  lemma PaidLasts(before: World, after: World, owed: Debt)
    requires Extends(before, after) && Paid(before, owed)
    ensures Paid(after, owed)
  {
    assert after.log == before.log + after.log[|before.log|..];
    if owed.key.Some? {
      var i :| 0 <= i < |before.log| && MailedFor(before.log[i], owed.key.value) && before.log[i].code == owed.row.code;
      assert after.log[i] == before.log[i];
    }
  }

  lemma MarkedMeansPaid(earlier: seq<Step>, id: string, event: Event, ans: Answers, fuel: nat, later: seq<Step>)
    requires id !in Run(EMPTY, earlier).store.processed
    requires id in Deliver(Run(EMPTY, earlier), Delivered(Some(id), event, ans, fuel)).store.processed
    requires Owed(Run(EMPTY, earlier).store, event, ans).Some?
    ensures var owed := Owed(Run(EMPTY, earlier).store, event, ans).value;
            Paid(Run(EMPTY, earlier + [Delivered(Some(id), event, ans, fuel)] + later), owed)
  {
    hide Deliver, Owed, Paid, Extends, Invariant, Open;
    var step := Delivered(Some(id), event, ans, fuel);
    var w := Run(EMPTY, earlier);
    var owed := Owed(w.store, event, ans).value;
    var steps := earlier + [step];
    assert steps[..|steps| - 1] == earlier && steps[|steps| - 1] == step;
    assert Run(EMPTY, steps) == Deliver(w, step);
    hide Run;
    RunKeeps(earlier);
    MarkedMeansPaidNow(w, id, event, ans, fuel);
    RunExtends(EMPTY, steps, later);
    PaidLasts(Run(EMPTY, steps), Run(EMPTY, steps + later), owed);
  }

  /** The step of a run at which an event came to be marked. */
  ghost predicate MarkedAt(steps: seq<Step>, id: string, n: nat) {
    && n < |steps| && steps[n].Delivered? && steps[n].id == Some(id)
    && id !in Run(EMPTY, steps[..n]).store.processed
    && id in Deliver(Run(EMPTY, steps[..n]), steps[n]).store.processed
  }

  lemma {:induction false} MarkedWasDelivered(steps: seq<Step>, id: string)
    requires id in Run(EMPTY, steps).store.processed
    ensures exists n: nat :: MarkedAt(steps, id, n)
    decreases |steps|
  {
    var last := |steps| - 1;
    var front, step := steps[..last], steps[last];
    assert Run(EMPTY, steps) == Deliver(Run(EMPTY, front), step);
    hide Run, Deliver;
    if id in Run(EMPTY, front).store.processed {
      MarkedWasDelivered(front, id);
      var n: nat :| MarkedAt(front, id, n);
      EarlierMark(steps, id, n);
    } else {
      MarksAreOwn(Run(EMPTY, front), step, id);
      assert MarkedAt(steps, id, last);
    }
  }

  lemma EarlierMark(steps: seq<Step>, id: string, n: nat)
    requires |steps| > 0 && MarkedAt(steps[..|steps| - 1], id, n)
    ensures MarkedAt(steps, id, n)
  {
    hide Run, Deliver;
    assert steps[..|steps| - 1][..n] == steps[..n];
  }

  lemma MarksAreOwn(w: World, step: Step, id: string)
    requires id !in w.store.processed && id in Deliver(w, step).store.processed
    ensures step.Delivered? && step.id == Some(id)
  {
    if step.Delivered? {
      var plan := HandlePlan(w.store, step.id, step.event, step.answers);
      PlanMarksOwn(w.store, step.id, step.event, step.answers);
      hide HandlePlan;
      var live := w.(fuel := step.fuel, dead := false);
      ExecuteIsPrefix(live, plan);
      var n :| 0 <= n <= |plan| && Execute(live, plan).store == After(w.store, plan[..n]);
      assert plan == plan[..n] + plan[n..];
      AfterConcat(w.store, plan[..n], plan[n..]);
      MarksOnlyGrow(After(w.store, plan[..n]), plan[n..]);
    }
  }

  lemma PlanMarksOwn(store: Store, id: Option<string>, event: Event, ans: Answers)
    ensures After(store, HandlePlan(store, id, event, ans)).processed
            <= store.processed + (if id.Some? then {id.value} else {})
  {
    var handling := EventPlan(store, event, ans);
    HandlingMarksNothing(store, event, ans);
    hide EventPlan;
    if id.Some? {
      AfterConcat(store, handling, [Processed(id.value)]);
      After1(After(store, handling), Processed(id.value));
    } else {
      assert handling + [] == handling;
    }
  }

  /** The link a key owes was mailed under it, with the code it owes, to the payer of the delivery that mailed it. */
  ghost predicate Reached(steps: seq<Step>, key: string, code: string) {
    exists i: nat, m: nat ::
      && i < |Run(EMPTY, steps).log| && MailedFor(Run(EMPTY, steps).log[i], key)
         && Run(EMPTY, steps).log[i].code == code
      && SentBy(EMPTY, steps, m, i)
  }

  /** Every delivery under a key has resolved its payer to one address. */
  ghost predicate OnePayer(steps: seq<Step>, key: string, email: Address) {
    forall m | 0 <= m < |steps| && steps[m].Delivered? && EventKey(steps[m].event) == Some(key) ::
      PayerOf(Run(EMPTY, steps[..m]).store, steps[m].event, steps[m].answers) == Some(email)
  }

  lemma PaidIsReached(steps: seq<Step>, owed: Debt)
    requires Paid(Run(EMPTY, steps), owed) && owed.key.Some?
    ensures Reached(steps, owed.key.value, owed.row.code)
    ensures OnePayer(steps, owed.key.value, owed.row.email) ==>
              Mailed(owed.key, owed.row.email, owed.row.code) in Run(EMPTY, steps).log
  {
    var log := Run(EMPTY, steps).log;
    assert |EMPTY.log| == 0;
    var i: nat :| i < |log| && MailedFor(log[i], owed.key.value) && log[i].code == owed.row.code;
    var m := RunsWriteToThePayer(EMPTY, steps, i);
    hide Run, PayerOf, EventKey;
    assert SentBy(EMPTY, steps, m, i);
    if OnePayer(steps, owed.key.value, owed.row.email) {
      assert log[i] == Mailed(owed.key, owed.row.email, owed.row.code);
    }
  }

  /**
   * In every run, an event that counts as processed was delivered and carried through once, and if it
   * owed its payer an invite then, that invite is bound, the payer's row written and the link mailed: to
   * the payer of the delivery that mailed it, and so to this payer unless the same operation was ever
   * delivered for another address.
   */
  lemma ProcessedMeansPaid(steps: seq<Step>, id: string)
    requires id in Run(EMPTY, steps).store.processed
    ensures exists n: nat :: MarkedAt(steps, id, n)
                        && var owed := Owed(Run(EMPTY, steps[..n]).store, steps[n].event, steps[n].answers);
                           (owed.Some? ==> PaidInFull(steps, owed.value))
  {
    hide Run, Deliver, Owed, Paid, PaidInFull;
    MarkedWasDelivered(steps, id);
    var n: nat :| MarkedAt(steps, id, n);
    var step := steps[n];
    var owed := Owed(Run(EMPTY, steps[..n]).store, step.event, step.answers);
    if owed.Some? {
      assert step == Delivered(Some(id), step.event, step.answers, step.fuel);
      MarkedMeansPaid(steps[..n], id, step.event, step.answers, step.fuel, steps[n + 1..]);
      assert steps == steps[..n] + [step] + steps[n + 1..];
      PaidIsFull(steps, owed.value);
    }
  }

  /** Paid, and the link in the payer's hands. */
  ghost predicate PaidInFull(steps: seq<Step>, owed: Debt) {
    && Paid(Run(EMPTY, steps), owed)
    && (owed.key.Some? ==> Reached(steps, owed.key.value, owed.row.code))
    && (owed.key.None? || OnePayer(steps, owed.key.value, owed.row.email) ==>
          Mailed(owed.key, owed.row.email, owed.row.code) in Run(EMPTY, steps).log)
  }

  lemma PaidIsFull(steps: seq<Step>, owed: Debt)
    requires Paid(Run(EMPTY, steps), owed)
    ensures PaidInFull(steps, owed)
  {
    if owed.key.Some? {
      PaidIsReached(steps, owed);
    }
    hide Run, Reached, OnePayer;
  }
}
