/**
 * A member who checks out again leaves a second customer behind. Retiring it cancels subscriptions,
 * and each cancellation comes back as an event; none of them may take away what was just paid for.
 */
module Duplicates {
  import opened Options
  import opened Identity
  import opened Standing
  import opened BridgeStore
  import opened WebhookPlans
  import opened Delivery
  import opened TagRules
  import opened Outcomes
  import opened Text

  // ---------------------------------------------------------------- what retirement cancels

  /** Stripe lists a customer's own subscriptions when asked for them. */
  ghost predicate WellFormed(ans: Answers) {
    forall customer | customer in ans.subscriptionsOf ::
      forall s | s in ans.subscriptionsOf[customer] :: s.customer == customer
  }

  lemma {:induction false} ListedSubscriptionsAreTheirs(ans: Answers, customers: seq<string>)
    requires WellFormed(ans)
    ensures forall s | s in SubscriptionsFor(ans, customers) ::
              s.customer in customers && s.customer in ans.subscriptionsOf && s in ans.subscriptionsOf[s.customer]
    decreases |customers|
  {
    if |customers| > 0 {
      ListedSubscriptionsAreTheirs(ans, customers[1..]);
    }
  }

  /** Retirement cancels nothing but dunning subscriptions of other customers listed at the address. */
  lemma RetirementSparesThePayer(ans: Answers, payingUnder: string, effect: Effect)
    requires WellFormed(ans) && effect in Retiring(ans, payingUnder) && effect.Cancelled?
    ensures effect.of != payingUnder && effect.of in ans.customersAt
    ensures effect.of in ans.subscriptionsOf
    ensures exists s :: s in ans.subscriptionsOf[effect.of] && s.id == effect.subscription && IsDunning(s.status)
  {
    var others := Filter((c: string) => c != payingUnder, ans.customersAt);
    RetiringMeans(ans, payingUnder);
    assert RetiresOnly(effect, DunningOthers(ans, payingUnder));
    var s :| s in DunningOthers(ans, payingUnder) && s.id == effect.subscription && s.customer == effect.of;
    ListedSubscriptionsAreTheirs(ans, others);
  }

  ghost predicate CancelledBefore(ans: Answers, plan: Effects, i: nat)
    requires i < |plan| && plan[i].Voided?
  {
    exists j :: 0 <= j < i && plan[j].Cancelled? && plan[i].invoice in InvoicesOf(ans, plan[j].subscription)
  }

  lemma {:induction false} CancellingComesFirst(ans: Answers, dunning: seq<Subscription>, i: nat)
    requires i < |Cancelling(ans, dunning)| && Cancelling(ans, dunning)[i].Voided?
    ensures CancelledBefore(ans, Cancelling(ans, dunning), i)
    decreases |dunning|
  {
    var head := [Cancelled(dunning[0].id, dunning[0].customer), Asked(StripeInvoices)];
    var voiding := Voiding(InvoicesOf(ans, dunning[0].id));
    var front, rest := head + voiding, Cancelling(ans, dunning[1..]);
    var plan := Cancelling(ans, dunning);
    assert plan == front + rest;
    if i < |front| {
      assert plan[i] == voiding[i - 2];
      assert plan[0].Cancelled?;
    } else {
      CancellingComesFirst(ans, dunning[1..], i - |front|);
      var j :| 0 <= j < i - |front| && rest[j].Cancelled?
        && rest[i - |front|].invoice in InvoicesOf(ans, rest[j].subscription);
      assert plan[|front| + j] == rest[j];
    }
  }

  /** Whenever retirement stops, every invoice voided by then belongs to a subscription cancelled before it. */
  lemma VoidsFollowTheirCancel(ans: Answers, payingUnder: string, i: nat)
    requires i < |Retiring(ans, payingUnder)| && Retiring(ans, payingUnder)[i].Voided?
    ensures CancelledBefore(ans, Retiring(ans, payingUnder), i)
  {
    hide Cancelling, DunningOthers;
    var plan, all := Retiring(ans, payingUnder), CancelAndVoid(ans, payingUnder);
    var listing := Listing(ans, payingUnder);
    var cancelling := Cancelling(ans, DunningOthers(ans, payingUnder));
    assert forall k | 0 <= k < |listing| :: listing[k].Asked?;
    assert i < |all| && plan[i] == all[i] && i >= |listing|;
    CancellingComesFirst(ans, DunningOthers(ans, payingUnder), i - |listing|);
    var j :| 0 <= j < i - |listing| && cancelling[j].Cancelled?
             && cancelling[i - |listing|].invoice in InvoicesOf(ans, cancelling[j].subscription);
    assert plan[|listing| + j] == cancelling[j];
  }

  // ---------------------------------------------------------------- what the cancellations do

  /** The store maps a subscribed customer to the address. */
  ghost predicate PaysAt(rows: seq<Row>, customer: string, email: Address) {
    && !StartsWith(customer, ADMIN_PREFIX)
    && exists row :: row in rows && row.customer == customer && row.email == email && row.subscribed
  }

  ghost predicate ReportedLive(ans: Answers, customer: string) {
    exists s :: s in ans.allSubscriptions && s.customer == customer && IsLive(s.status)
  }

  /**
   * A deletion that concerns the person who pays under `customer` at `email`: some other customer's,
   * resolved to that address or to another address of the same person, while Stripe reports it live.
   */
  ghost predicate Concerns(store: Store, step: Step, customer: string, email: Address) {
    && step.Delivered? && step.event.SubscriptionDeleted?
    && step.event.customer.Some? && step.event.customer.value != customer
    && ReportedLive(step.answers, customer)
    && var payer := PayerOf(store, step.event, step.answers);
       payer.Some? && (payer.value == email || email in PersonOf(store, step.event, step.answers).addresses)
  }

  lemma SiblingIsFound(rows: seq<Row>, customer: string, email: Address, dead: string, ans: Answers)
    requires PaysAt(rows, customer, email) && customer != dead && ReportedLive(ans, customer)
    ensures LiveSibling(rows, email, dead, ans).Some?
  {
    var at := Filter((row: Row) => row.email == email && !StartsWith(row.customer, ADMIN_PREFIX), rows);
    var row :| row in rows && row.customer == customer && row.email == email && row.subscribed;
    var i :| 0 <= i < |at| && at[i] == row;
    assert CustomerIds(rows, email)[i] == customer;
    assert customer in Siblings(rows, email, dead);
    LiveMeans(ans.allSubscriptions, customer);
  }

  predicate KeepsAccess(effect: Effect) {
    match effect
    case Asked(_) => true
    case PaymentStateSet(_, _) => true
    case SubscribedSet(_, _) => true
    case Processed(_) => true
    case Died => true
    case _ => false
  }

  /** The plan of such a deletion: at most one flag, never the paying address's `subscribed`, and no record. */
  lemma DeletionSparesThePayer(store: Store, step: Step, customer: string, email: Address)
    requires Concerns(store, step, customer, email) && PaysAt(store.rows, customer, email)
    requires PayerOf(store, step.event, step.answers).value != email ==> Subscribed(store.rows, email)
    ensures forall effect | effect in EventPlan(store, step.event, step.answers) ::
              KeepsAccess(effect) && (effect.SubscribedSet? ==> effect.email != email)
  {
    hide PersonOf, PayerEmail, MappedEmail, LiveSibling, Siblings, Cutting, Subscribed, PaysAt;
    var ans, dead, own := step.answers, step.event.customer.value, step.event.email;
    var payer := PayerEmail(store.rows, own, Some(dead), ans).value;
    var sibling := LiveSibling(store.rows, payer, dead, ans);
    var flag := FlagOf(sibling, payer);
    if payer == email {
      SiblingIsFound(store.rows, customer, email, dead, ans);
    } else {
      NothingIsCut(store, step.event, sibling, payer, email, ans);
    }
    assert sibling.Some? ==> Cutting(Write(store, flag), dead, payer, sibling, ans) == [] by {
      SiblingSpares(Write(store, flag), dead, payer, sibling, ans);
    }
    assert EventPlan(store, step.event, ans)
           == PayerAsks(store.rows, own, Some(dead))
              + (SiblingAsks(store.rows, payer, dead) + [flag, Asked(Wizarr)] + []);
  }

  function FlagOf(sibling: Option<string>, payer: Address): (flag: Effect)
    ensures SetsFlag(flag) && flag.email == payer
  {
    if sibling.Some? then PaymentStateSet(payer, false) else SubscribedSet(payer, false)
  }

  lemma SiblingSpares(store: Store, dead: string, payer: Address, sibling: Option<string>, ans: Answers)
    ensures sibling.Some? ==> Cutting(store, dead, payer, sibling, ans) == []
  {
  }

  /** The guard across addresses: the paying one is another address of the person, and still subscribed. */
  lemma NothingIsCut(store: Store, event: Event, sibling: Option<string>, payer: Address, email: Address, ans: Answers)
    requires event.SubscriptionDeleted? && event.customer.Some? && PayerOf(store, event, ans) == Some(payer)
    requires email in PersonOf(store, event, ans).addresses && payer != email && Subscribed(store.rows, email)
    ensures Cutting(Write(store, FlagOf(sibling, payer)), event.customer.value, payer, sibling, ans) == []
  {
    var flag := FlagOf(sibling, payer);
    FlagsKeepIdentity(store, flag, ans, event.customer, Some(payer));
    WriteFlagged(store, flag);
    CustomerRowFlagged(store.rows, flag, email);
    hide Resolve, SnapshotOf, Governing, Write, CustomerRow, FlaggedRows, PayerOf;
    assert Subscribed(Write(store, flag).rows, email);
  }

  lemma {:induction false} KeepingAccessKeepsThePayer(store: Store, plan: Effects, customer: string, email: Address)
    requires forall effect | effect in plan :: KeepsAccess(effect) && (effect.SubscribedSet? ==> effect.email != email)
    ensures PaysAt(store.rows, customer, email) ==> PaysAt(After(store, plan).rows, customer, email)
    ensures Subscribed(store.rows, email) ==> Subscribed(After(store, plan).rows, email)
    decreases |plan|
  {
    if |plan| > 0 {
      var effect := plan[0];
      assert effect in plan && forall e | e in plan[1..] :: e in plan;
      if SetsFlag(effect) {
        WriteFlagged(store, effect);
        CustomerRowFlagged(store.rows, effect, email);
        var flagged := FlaggedRows(store.rows, effect);
        if row :| PaysAt(store.rows, customer, email) && row in store.rows
                  && row.customer == customer && row.email == email && row.subscribed {
          var i :| 0 <= i < |store.rows| && store.rows[i] == row;
          assert flagged[i] in flagged && flagged[i] == Flagged(row, effect);
        }
      }
      KeepingAccessKeepsThePayer(Write(store, effect), plan[1..], customer, email);
    }
  }

  ghost predicate AllConcern(w: World, steps: seq<Step>, customer: string, email: Address) {
    forall n | 0 <= n < |steps| :: Concerns(Run(w, steps[..n]).store, steps[n], customer, email)
  }

  lemma DeletionKeepsAccess(w: World, step: Step, customer: string, email: Address)
    requires Concerns(w.store, step, customer, email) && PaysAt(w.store.rows, customer, email)
    requires PayerOf(w.store, step.event, step.answers).value != email ==> Subscribed(w.store.rows, email)
    ensures var after := Deliver(w, step);
            && PaysAt(after.store.rows, customer, email)
            && (Subscribed(w.store.rows, email) ==> Subscribed(after.store.rows, email))
            && w.log <= after.log
            && (forall i | |w.log| <= i < |after.log| :: KeepsAccess(after.log[i]))
  {
    var plan := HandlePlan(w.store, step.id, step.event, step.answers);
    assert forall effect | effect in plan ::
           KeepsAccess(effect) && (effect.SubscribedSet? ==> effect.email != email) by {
      DeletionSparesThePayer(w.store, step, customer, email);
      hide EventPlan, Concerns, PayerOf;
    }
    hide HandlePlan, Concerns, PayerOf, PaysAt, Subscribed, KeepsAccess;
    PrefixKeepsThePayer(w.(fuel := step.fuel, dead := false), plan, customer, email);
  }

  lemma PrefixKeepsThePayer(live: World, plan: Effects, customer: string, email: Address)
    requires !live.dead
    requires forall effect | effect in plan :: KeepsAccess(effect) && (effect.SubscribedSet? ==> effect.email != email)
    ensures var after := Execute(live, plan);
            && (PaysAt(live.store.rows, customer, email) ==> PaysAt(after.store.rows, customer, email))
            && (Subscribed(live.store.rows, email) ==> Subscribed(after.store.rows, email))
            && live.log <= after.log
            && (forall i | |live.log| <= i < |after.log| :: KeepsAccess(after.log[i]))
  {
    hide PaysAt, Subscribed;
    ExecuteIsPrefix(live, plan);
    var after := Execute(live, plan);
    var n :| 0 <= n <= |plan| && after.store == After(live.store, plan[..n])
             && after.log == live.log + plan[..n] + (if after.dead then [Died] else []);
    assert forall effect | effect in plan[..n] :: effect in plan;
    KeepingAccessKeepsThePayer(live.store, plan[..n], customer, email);
    forall i | |live.log| <= i < |after.log| ensures KeepsAccess(after.log[i]) {
      if i < |live.log| + n {
        assert after.log[i] == plan[i - |live.log|] && plan[i - |live.log|] in plan;
      }
    }
  }

  /**
   * Through any such deletions, in any order, redelivered and failing anywhere: no record is disabled
   * or re-stamped, and the paying customer stays mapped and subscribed. Where a deletion resolves to
   * another address of the person, the row that answers for the paying address has to be subscribed.
   */
  lemma {:induction false} PaidAccessSurvives(w: World, steps: seq<Step>, customer: string, email: Address)
    requires AllConcern(w, steps, customer, email) && PaysAt(w.store.rows, customer, email)
    requires Subscribed(w.store.rows, email)
             || forall n | 0 <= n < |steps| ::
                  PayerOf(Run(w, steps[..n]).store, steps[n].event, steps[n].answers) == Some(email)
    ensures var after := Run(w, steps);
            && PaysAt(after.store.rows, customer, email)
            && (Subscribed(w.store.rows, email) ==> Subscribed(after.store.rows, email))
            && w.log <= after.log
            && (forall i | |w.log| <= i < |after.log| :: KeepsAccess(after.log[i]))
    decreases |steps|
  {
    if |steps| > 0 {
      var last := |steps| - 1;
      var front := steps[..last];
      forall n | 0 <= n < last
        ensures Concerns(Run(w, front[..n]).store, front[n], customer, email)
        ensures Subscribed(w.store.rows, email)
                || PayerOf(Run(w, front[..n]).store, front[n].event, front[n].answers) == Some(email)
      {
        assert front[..n] == steps[..n] && front[n] == steps[n];
        assert Concerns(Run(w, steps[..n]).store, steps[n], customer, email);
      }
      PaidAccessSurvives(w, front, customer, email);
      assert Concerns(Run(w, steps[..last]).store, steps[last], customer, email);
      var before := Run(w, front);
      DeletionKeepsAccess(before, steps[last], customer, email);
      hide Deliver, Concerns, PaysAt, Subscribed;
      var after := Run(w, steps);
      assert after == Deliver(before, steps[last]);
      forall i | |w.log| <= i < |after.log| ensures KeepsAccess(after.log[i]) {
        if i < |before.log| {
          assert after.log[i] == before.log[i];
        }
      }
    }
  }

  // ---------------------------------------------------------------- from the checkout on

  predicate HasRow(rows: seq<Row>, customer: string) {
    exists row :: row in rows && row.customer == customer
  }

  /**
   * Walking back from the newest row, the customer's own is met before any unsubscribed row of a real
   * customer at the address.
   */
  predicate OwnRowAnswers(rows: seq<Row>, customer: string, email: Address) {
    if |rows| == 0 then false else
    var last := rows[|rows| - 1];
    if last.customer == customer then true
    else if last.email == email && IsStripeCustomer(last.customer) then last.subscribed
    else OwnRowAnswers(rows[..|rows| - 1], customer, email)
  }

  lemma {:induction false} PlaceholdersDoNotAnswer(rows: seq<Row>, customer: string, email: Address,
                                                   placeholder: string)
    requires !IsStripeCustomer(placeholder) && placeholder != customer
    ensures OwnRowAnswers(Filter((row: Row) => row.customer != placeholder, rows), customer, email)
            <==> OwnRowAnswers(rows, customer, email)
    decreases |rows|
  {
    if |rows| > 0 {
      var keep := (row: Row) => row.customer != placeholder;
      var front, last := rows[..|rows| - 1], rows[|rows| - 1];
      assert rows == front + [last];
      FilterSnoc(keep, front, last);
      PlaceholdersDoNotAnswer(front, customer, email, placeholder);
      var kept := Filter(keep, front);
      if keep(last) {
        assert (kept + [last])[..|kept|] == kept && (kept + [last])[|kept|] == last;
      } else {
        assert kept + [] == kept;
      }
    }
  }

  lemma {:induction false} UpsertedAnswers(rows: seq<Row>, customer: string, email: Address, written: Row -> Row)
    requires HasRow(rows, customer) && IsStripeCustomer(customer)
    requires forall row ::
               written(row).customer == row.customer && written(row).email == email && written(row).subscribed
    ensures var last := Last(Updated(rows, (row: Row) => row.customer == customer, written),
                             (row: Row) => row.email == email && IsStripeCustomer(row.customer));
            last.Some? && (last.value.subscribed <==> OwnRowAnswers(rows, customer, email))
    decreases |rows|
  {
    var which := (row: Row) => row.customer == customer;
    var front, last := rows[..|rows| - 1], rows[|rows| - 1];
    assert rows == front + [last];
    assert Updated(rows, which, written)[..|rows| - 1] == Updated(front, which, written);
    if last.customer != customer && !(last.email == email && IsStripeCustomer(last.customer)) {
      UpsertedAnswers(front, customer, email, written);
    }
  }

  /**
   * After the checkout's write the address reads as subscribed exactly when the customer is new, or no
   * unsubscribed row of a customer first seen later than it stands at the address: writing an old row
   * again does not move it to the front.
   */
  lemma CheckoutAnswersForTheAddress(store: Store, customer: string, email: Address, code: string, tier: Tier, at: int)
    requires IsStripeCustomer(customer)
    ensures var after := Write(store, RowWritten(Some(customer), email, code, tier, at, true));
            Subscribed(after.rows, email)
            <==> (HasRow(store.rows, customer) ==> OwnRowAnswers(store.rows, customer, email))
  {
    var upserted := UpsertPending(store.rows, customer, email, code, tier, at);
    var settle := PaymentStateSet(email, false);
    UpsertSubscribes(store.rows, customer, email, code, tier, at);
    CustomerRowFlagged(upserted, settle, email);
    hide UpsertPending, CustomerRow, OwnRowAnswers, HasRow;
    assert Write(store, RowWritten(Some(customer), email, code, tier, at, true)).rows == FlaggedRows(upserted, settle);
    hide FlaggedRows, Write;
  }

  lemma UpsertSubscribes(rows: seq<Row>, customer: string, email: Address, code: string, tier: Tier, at: int)
    requires IsStripeCustomer(customer)
    ensures Subscribed(UpsertPending(rows, customer, email, code, tier, at), email)
            <==> (HasRow(rows, customer) ==> OwnRowAnswers(rows, customer, email))
  {
    var placeholder := ADMIN_PREFIX + email;
    var kept := Filter((row: Row) => row.customer != placeholder, rows);
    assert placeholder[..6] == ADMIN_PREFIX && placeholder[0] == 'a' && customer[..4][0] == 'c';
    var upserted := UpsertPending(rows, customer, email, code, tier, at);
    assert HasRow(kept, customer) <==> HasRow(rows, customer);
    if HasRow(kept, customer) {
      var written := (row: Row) =>
        row.(email := email, code := Some(code), tier := Some(tier), invitedAt := Some(at), subscribed := true);
      UpsertedAnswers(kept, customer, email, written);
      PlaceholdersDoNotAnswer(rows, customer, email, placeholder);
      hide OwnRowAnswers, Last;
      assert upserted == Updated(kept, (row: Row) => row.customer == customer, written);
    } else {
      hide OwnRowAnswers;
      assert upserted[..|kept|] == kept;
    }
  }

  lemma RowWrittenPays(store: Store, customer: string, email: Address, code: string, tier: Tier, at: int, settles: bool)
    requires !StartsWith(customer, ADMIN_PREFIX)
    ensures PaysAt(Write(store, RowWritten(Some(customer), email, code, tier, at, settles)).rows, customer, email)
  {
    var kept := Filter((row: Row) => row.customer != ADMIN_PREFIX + email, store.rows);
    var upserted := UpsertPending(store.rows, customer, email, code, tier, at);
    var rows := Write(store, RowWritten(Some(customer), email, code, tier, at, settles)).rows;
    assert |rows| == |upserted|;
    var i: nat;
    if row :| row in kept && row.customer == customer {
      i :| 0 <= i < |kept| && kept[i] == row;
    } else {
      i := |kept|;
    }
    assert upserted[i].customer == customer && upserted[i].email == email && upserted[i].subscribed;
    assert rows[i] in rows;
  }

  lemma {:induction false} RowLasts(store: Store, plan: Effects, row: Effect, customer: string, email: Address)
    requires row.RowWritten? && row.customer == Some(customer) && row.email == email
             && !StartsWith(customer, ADMIN_PREFIX)
    requires forall effect | effect in plan :: effect == row || !TouchesRows(effect)
    ensures row in plan || PaysAt(store.rows, customer, email) ==> PaysAt(After(store, plan).rows, customer, email)
    decreases |plan|
  {
    if |plan| > 0 {
      assert plan[0] in plan && forall effect | effect in plan[1..] :: effect in plan;
      if plan[0] == row {
        RowWrittenPays(store, customer, email, row.code, row.tier, row.at, row.settles);
      }
      RowLasts(Write(store, plan[0]), plan[1..], row, customer, email);
    }
  }

  lemma CheckoutTouchesOneRow(store: Store, session: Option<string>, customer: string, email: Address, tier: Tier,
                              ans: Answers)
    ensures forall effect | effect in CheckoutPlan(store, session, Some(customer), Some(email), tier, ans)
            && TouchesRows(effect) ::
              effect == RowWritten(Some(customer), email, IssuedCode(store, SessionKey(session), ans), tier, ans.now,
                                   true)
  {
    hide CheckoutPerson, CheckoutRetiring, CheckoutResetting, IssuedCode;
    var issuing := Issuing(store, SessionKey(session), Some(customer), email, tier, true, ans);
    CheckoutRestIsQuiet(store, issuing, Some(customer), email, ans);
    RetiringWritesNoRow(Some(customer), ans);
    InvitingTouchesOneRow(store, SessionKey(session), Some(customer), email, tier, true, ans);
    hide Inviting, Issuing;
  }

  lemma PerformedRowLasts(live: World, plan: Effects, row: Effect, customer: string, email: Address, i: nat)
    requires !live.dead && row.RowWritten? && row.customer == Some(customer) && row.email == email
    requires !StartsWith(customer, ADMIN_PREFIX)
    requires forall effect | effect in plan :: effect == row || !TouchesRows(effect)
    requires |live.log| <= i < |Execute(live, plan).log| && Execute(live, plan).log[i].RowWritten?
    ensures PaysAt(Execute(live, plan).store.rows, customer, email)
  {
    hide PaysAt;
    ExecuteIsPrefix(live, plan);
    var after := Execute(live, plan);
    var n :| 0 <= n <= |plan| && after.store == After(live.store, plan[..n])
             && after.log == live.log + plan[..n] + (if after.dead then [Died] else []);
    assert forall effect | effect in plan[..n] :: effect in plan;
    var done := plan[..n];
    assert i - |live.log| < n && after.log[i] == done[i - |live.log|] && done[i - |live.log|] in done;
    assert row in done;
    RowLasts(live.store, plan[..n], row, customer, email);
  }

  /** A checkout that got as far as writing its row leaves its customer paying at the address. */
  lemma CheckoutLeavesThemPaying(w: World, id: Option<string>, session: Option<string>, customer: string,
                                 email: Address, tier: Tier, ans: Answers, fuel: nat, i: nat)
    requires !StartsWith(customer, ADMIN_PREFIX)
    requires var after :=
               Deliver(w, Delivered(id, CheckoutCompleted(session, Some(customer), Some(email), tier), ans, fuel));
             |w.log| <= i < |after.log| && after.log[i].RowWritten?
    ensures PaysAt(Deliver(w,
                           Delivered(id, CheckoutCompleted(session, Some(customer), Some(email), tier), ans,
                                     fuel)).store.rows,
                   customer, email)
  {
    var event := CheckoutCompleted(session, Some(customer), Some(email), tier);
    var plan := HandlePlan(w.store, id, event, ans);
    var row := RowWritten(Some(customer), email, IssuedCode(w.store, SessionKey(session), ans), tier, ans.now, true);
    assert forall effect | effect in plan :: effect == row || !TouchesRows(effect) by {
      CheckoutTouchesOneRow(w.store, session, customer, email, tier, ans);
      hide CheckoutPlan, IssuedCode;
    }
    hide HandlePlan, IssuedCode, PaysAt;
    PerformedRowLasts(w.(fuel := fuel, dead := false), plan, row, customer, email, i);
  }

  /**
   * The whole story: once a checkout has written its row, no run of deletions about that person, in
   * any order and failing anywhere, disables or re-stamps a record or unmaps the paying customer.
   */
  lemma RetirementNeverRevokes(w: World, id: Option<string>, session: Option<string>, customer: string, email: Address,
                               tier: Tier, ans: Answers, fuel: nat, i: nat, deletions: seq<Step>)
    requires !StartsWith(customer, ADMIN_PREFIX)
    requires var after :=
               Deliver(w, Delivered(id, CheckoutCompleted(session, Some(customer), Some(email), tier), ans, fuel));
             && |w.log| <= i < |after.log| && after.log[i].RowWritten?
             && AllConcern(after, deletions, customer, email)
             && (Subscribed(after.store.rows, email)
                 || forall n | 0 <= n < |deletions| ::
                      PayerOf(Run(after, deletions[..n]).store, deletions[n].event, deletions[n].answers)
                        == Some(email))
    ensures var after := Deliver(w,
                                 Delivered(id, CheckoutCompleted(session, Some(customer), Some(email), tier), ans,
                                           fuel));
            var end := Run(after, deletions);
            && PaysAt(end.store.rows, customer, email)
            && (forall k | |after.log| <= k < |end.log| :: !end.log[k].Disabled? && !end.log[k].Stamped?)
  {
    CheckoutLeavesThemPaying(w, id, session, customer, email, tier, ans, fuel, i);
    var after := Deliver(w, Delivered(id, CheckoutCompleted(session, Some(customer), Some(email), tier), ans, fuel));
    hide Deliver, PaysAt, Subscribed;
    PaidAccessSurvives(after, deletions, customer, email);
    var end := Run(after, deletions);
    forall k | |after.log| <= k < |end.log| ensures !end.log[k].Disabled? && !end.log[k].Stamped? {
      assert KeepsAccess(end.log[k]);
    }
  }
}
