/** Which flags an event writes, and whose row and which subscription decide it. */
module Flags {
  import opened Options
  import opened Text
  import opened Identity
  import opened Standing
  import opened BridgeStore
  import opened WebhookPlans
  import opened Delivery
  import opened TagRules
  import opened Outcomes

  // ---------------------------------------------------------------- the row that answers

  predicate AtAddress(row: Row, email: Address) {
    row.email == email
  }

  predicate PaysThroughStripe(row: Row, email: Address) {
    row.email == email && StartsWith(row.customer, "cus_")
  }

  lemma {:induction false} LastIsLatest(rows: seq<Row>, which: Row -> bool, i: nat)
    requires i < |rows| && which(rows[i]) && forall j | i < j < |rows| :: !which(rows[j])
    ensures Last(rows, which) == Some(rows[i])
    decreases |rows|
  {
    if i < |rows| - 1 {
      LastIsLatest(rows[..|rows| - 1], which, i);
    }
  }

  /** The row that answers for an address is the latest of a real Stripe customer, else the latest there is. */
  lemma LatestRowAnswers(rows: seq<Row>, email: Address, i: nat)
    requires i < |rows| && AtAddress(rows[i], email)
    requires if PaysThroughStripe(rows[i], email) then forall j | i < j < |rows| :: !PaysThroughStripe(rows[j], email)
             else (forall j | 0 <= j < |rows| :: !PaysThroughStripe(rows[j], email))
                  && forall j | i < j < |rows| :: !AtAddress(rows[j], email)
    ensures CustomerRow(rows, email) == Some(rows[i])
    ensures Subscribed(rows, email) <==> rows[i].subscribed
    ensures TierAt(rows, email) == if rows[i].tier.Some? then rows[i].tier.value else Bronze
  {
    var paying := (row: Row) => row.email == email && IsStripeCustomer(row.customer);
    if PaysThroughStripe(rows[i], email) {
      LastIsLatest(rows, paying, i);
    } else {
      LastIsLatest(rows, (row: Row) => row.email == email, i);
    }
  }

  /** Nobody answers for an address no row carries. */
  lemma NoRowAnswersNowhere(rows: seq<Row>, email: Address)
    requires forall row | row in rows :: row.email != email
    ensures CustomerRow(rows, email).None? && !Subscribed(rows, email) && TierAt(rows, email) == Bronze
  {
  }

  // ---------------------------------------------------------------- the sibling

  /** Another real customer recorded at the address, with a subscription Stripe says is paid for. */
  predicate PaidSibling(rows: seq<Row>, email: Address, dead: string, ans: Answers, row: Row, s: Subscription) {
    && row in rows && row.email == email && !StartsWith(row.customer, "admin:") && row.customer != dead
    && s in ans.allSubscriptions && s.customer == row.customer && (s.status == "active" || s.status == "trialing")
  }

  /** Some row of the address is a real customer's other than one. */
  predicate Recorded(rows: seq<Row>, email: Address, dead: string, customer: string) {
    && customer != dead && !StartsWith(customer, "admin:")
    && exists row :: row in rows && row.email == email && row.customer == customer
  }

  lemma SiblingsAre(rows: seq<Row>, email: Address, dead: string, customer: string)
    ensures customer in Siblings(rows, email, dead) <==> Recorded(rows, email, dead, customer)
  {
    var at := Filter((row: Row) => row.email == email && !StartsWith(row.customer, ADMIN_PREFIX), rows);
    var ids := CustomerIds(rows, email);
    assert |ids| == |at| && forall i | 0 <= i < |at| :: ids[i] == at[i].customer;
    hide CustomerIds;
    if row :| row in rows && row.email == email && !StartsWith(row.customer, "admin:") && row.customer == customer {
      var i :| 0 <= i < |at| && at[i] == row;
      assert ids[i] == customer;
    }
    if customer in ids {
      var i :| 0 <= i < |ids| && ids[i] == customer;
      assert at[i] in at;
    }
  }

  lemma LiveMeansPaid(ans: Answers, customer: string)
    ensures IsLive(BestStatus(ans.allSubscriptions, customer))
            <==> exists s :: s in ans.allSubscriptions && s.customer == customer
                             && (s.status == "active" || s.status == "trialing")
  {
    LiveMeans(ans.allSubscriptions, customer);
    hide BestStatus;
    assert forall status: string :: IsLive(status) <==> status == "active" || status == "trialing";
  }

  /** A live sibling is found exactly when there is one, and what is found is one. */
  lemma SiblingMeansPaid(rows: seq<Row>, email: Address, dead: string, ans: Answers)
    ensures var found := LiveSibling(rows, email, dead, ans);
            && (found.Some? <==> exists row, s :: PaidSibling(rows, email, dead, ans, row, s))
            && (found.Some? ==> exists row,
                s :: PaidSibling(rows, email, dead, ans, row, s) && row.customer == found.value)
  {
    SiblingIsPaid(rows, email, dead, ans);
    if row, s :| PaidSibling(rows, email, dead, ans, row, s) {
      PaidIsSibling(rows, email, dead, ans, row, s);
    }
    hide LiveSibling, PaidSibling;
  }

  lemma PaidIsSibling(rows: seq<Row>, email: Address, dead: string, ans: Answers, row: Row, s: Subscription)
    requires PaidSibling(rows, email, dead, ans, row, s)
    ensures LiveSibling(rows, email, dead, ans).Some?
  {
    assert Recorded(rows, email, dead, row.customer);
    SiblingsAre(rows, email, dead, row.customer);
    LiveMeansPaid(ans, row.customer);
    hide Siblings, BestStatus, IsLive, Recorded;
  }

  lemma SiblingIsPaid(rows: seq<Row>, email: Address, dead: string, ans: Answers)
    ensures var found := LiveSibling(rows, email, dead, ans);
            found.Some? ==> exists row, s :: PaidSibling(rows, email, dead, ans, row, s) && row.customer == found.value
  {
    var found := LiveSibling(rows, email, dead, ans);
    if found.Some? {
      SiblingsAre(rows, email, dead, found.value);
      LiveMeansPaid(ans, found.value);
      hide Siblings, BestStatus, IsLive;
      var s :| s in ans.allSubscriptions && s.customer == found.value
        && (s.status == "active" || s.status == "trialing");
      var row :| row in rows && row.email == email && row.customer == found.value;
      assert PaidSibling(rows, email, dead, ans, row, s);
    }
  }

  // ---------------------------------------------------------------- what each event writes

  /**
   * An update says the payer is behind when Stripe is retrying, that they are not when it is paid, and else
   * nothing.
   */
  lemma StatusIsMirrored(store: Store, customer: Option<string>, own: Option<Address>, status: string, ans: Answers,
                         payer: Address)
    requires PayerOf(store, SubscriptionUpdated(customer, own, status), ans) == Some(payer)
    ensures var plan := EventPlan(store, SubscriptionUpdated(customer, own, status), ans);
            && (PaymentStateSet(payer, true) in plan <==> status == "past_due" || status == "unpaid")
            && (PaymentStateSet(payer, false) in plan <==> status == "active" || status == "trialing")
            && forall effect | effect in plan :: effect.Asked? || (effect.PaymentStateSet? && effect.email == payer)
  {
    hide MappedEmail;
  }

  lemma RetiredIsTold(ans: Answers, payingUnder: string)
    ensures Alerted in Retiring(ans, payingUnder) + if RetirementOf(ans, payingUnder) != Retired then [Alerted] else []
  {
    hide CancelAndVoid, DunningOthers;
  }

  /**
   * A charge that failed marks its payer as behind, tells the operator and points the member at the
   * card; with a live sibling at the address it does neither of the member's two.
   */
  lemma FailedPaymentFlags(store: Store, customer: Option<string>, own: Option<Address>, ans: Answers, payer: Address)
    requires PayerOf(store, PaymentFailed(customer, own), ans) == Some(payer)
    ensures var plan := EventPlan(store, PaymentFailed(customer, own), ans);
            var duplicate := customer.Some? && LiveSibling(store.rows, payer, customer.value, ans).Some?;
            && (PaymentStateSet(payer, true) in plan <==> !duplicate)
            && (MemberNotified(payer) in plan <==> !duplicate && ans.settings.billingPortal)
            && Alerted in plan
            && forall effect | effect in plan :: effect.PaymentStateSet? ==> effect == PaymentStateSet(payer, true)
  {
    if customer.Some? && LiveSibling(store.rows, payer, customer.value, ans).Some? {
      FailedDuplicate(store, customer.value, own, ans, payer);
    } else {
      FailedAlone(store, customer, own, ans, payer);
    }
    hide EventPlan, PayerOf, LiveSibling;
  }

  lemma FailedDuplicate(store: Store, customer: string, own: Option<Address>, ans: Answers, payer: Address)
    requires PayerOf(store, PaymentFailed(Some(customer), own), ans) == Some(payer)
    requires LiveSibling(store.rows, payer, customer, ans).Some?
    ensures var plan := EventPlan(store, PaymentFailed(Some(customer), own), ans);
            Alerted in plan && forall effect | effect in plan :: !effect.PaymentStateSet? && !effect.MemberNotified?
  {
    var sibling := LiveSibling(store.rows, payer, customer, ans).value;
    FailedPlan(store, customer, own, ans, payer);
    RetiringIsNoFlag(ans, sibling);
    hide *;
  }

  lemma FailedPlan(store: Store, customer: string, own: Option<Address>, ans: Answers, payer: Address)
    requires PayerOf(store, PaymentFailed(Some(customer), own), ans) == Some(payer)
    requires LiveSibling(store.rows, payer, customer, ans).Some?
    ensures var sibling := LiveSibling(store.rows, payer, customer, ans).value;
            var first := PayerAsks(store.rows, own, Some(customer)) + SiblingAsks(store.rows, payer, customer);
            && EventPlan(store, PaymentFailed(Some(customer), own), ans)
               == first + (Retiring(ans, sibling) + if RetirementOf(ans, sibling) != Retired then [Alerted] else [])
            && forall effect | effect in first :: effect.Asked?
  {
    AsksAskOnly(store.rows, own, customer, payer);
    hide PayerAsks, SiblingAsks, PayerEmail, LiveSibling, Retiring, RetirementOf;
    FailureShape(store, customer, own, payer, ans);
  }

  lemma RetiringIsNoFlag(ans: Answers, sibling: string)
    ensures var retiring := Retiring(ans, sibling) + if RetirementOf(ans, sibling) != Retired then [Alerted] else [];
            Alerted in retiring && forall effect | effect in retiring ::
              !effect.PaymentStateSet? && !effect.MemberNotified?
  {
    RetiringMeans(ans, sibling);
    RetiredIsTold(ans, sibling);
    hide Retiring, RetirementOf, DunningOthers;
  }

  lemma FailedAlone(store: Store, customer: Option<string>, own: Option<Address>, ans: Answers, payer: Address)
    requires PayerOf(store, PaymentFailed(customer, own), ans) == Some(payer)
    requires customer.Some? ==> LiveSibling(store.rows, payer, customer.value, ans).None?
    ensures var plan := EventPlan(store, PaymentFailed(customer, own), ans);
            && PaymentStateSet(payer, true) in plan && Alerted in plan
            && (MemberNotified(payer) in plan <==> ans.settings.billingPortal)
            && forall effect | effect in plan :: effect.PaymentStateSet? ==> effect == PaymentStateSet(payer, true)
  {
    var asks := FailedAlonePlan(store, customer, own, ans, payer);
    hide EventPlan, PayerOf, LiveSibling;
  }

  lemma FailedAlonePlan(store: Store, customer: Option<string>, own: Option<Address>, ans: Answers, payer: Address)
    returns (asks: Effects)
    requires PayerOf(store, PaymentFailed(customer, own), ans) == Some(payer)
    requires customer.Some? ==> LiveSibling(store.rows, payer, customer.value, ans).None?
    ensures forall effect | effect in asks :: effect.Asked?
    ensures EventPlan(store, PaymentFailed(customer, own), ans)
            == asks + ([PaymentStateSet(payer, true), Asked(Wizarr), Alerted]
                       + if ans.settings.billingPortal then [MemberNotified(payer)] else [])
  {
    hide PayerEmail, PayerAsks, SiblingAsks, LiveSibling, Retiring, RetirementOf;
    var first := PayerAsks(store.rows, own, customer);
    var more := if customer.Some? then SiblingAsks(store.rows, payer, customer.value) else [];
    AsksOnly(store.rows, own, customer);
    if customer.Some? {
      AsksAskOnly(store.rows, own, customer.value, payer);
    }
    var rest := [PaymentStateSet(payer, true), Asked(Wizarr), Alerted]
                + if ans.settings.billingPortal then [MemberNotified(payer)] else [];
    assert EventPlan(store, PaymentFailed(customer, own), ans) == first + (more + rest);
    assert first + (more + rest) == (first + more) + rest;
    asks := first + more;
  }

  /**
   * A cancellation clears `subscribed` exactly when nothing at the address is still paid for, and otherwise
   * the dunning flag.
   */
  lemma CancellationFlags(store: Store, customer: string, own: Option<Address>, ans: Answers, payer: Address)
    requires PayerOf(store, SubscriptionDeleted(Some(customer), own), ans) == Some(payer)
    ensures var plan := EventPlan(store, SubscriptionDeleted(Some(customer), own), ans);
            var sibling := LiveSibling(store.rows, payer, customer, ans);
            var flag := if sibling.Some? then PaymentStateSet(payer, false) else SubscribedSet(payer, false);
            flag in plan && forall effect | effect in plan && SetsFlag(effect) :: effect == flag
  {
    DeletedParts(store, customer, own, payer, ans);
    var sibling := LiveSibling(store.rows, payer, customer, ans);
    var flag := if sibling.Some? then PaymentStateSet(payer, false) else SubscribedSet(payer, false);
    var asks, siblingAsks := PayerAsks(store.rows, own, Some(customer)), SiblingAsks(store.rows, payer, customer);
    var cutting := Cutting(Write(store, flag), customer, payer, sibling, ans);
    CuttingOnlyDisables(Write(store, flag), customer, payer, sibling, ans);
    AsksAskOnly(store.rows, own, customer, payer);
    FlagAmong(asks, siblingAsks, flag, cutting);
    hide *;
  }

  lemma FlagAmong(asks: Effects, siblingAsks: Effects, flag: Effect, cutting: Effects)
    requires SetsFlag(flag) && (forall effect | effect in asks :: effect.Asked?)
    requires (forall effect | effect in siblingAsks :: effect.Asked?)
             && (forall effect | effect in cutting :: effect.Disabled?)
    ensures var plan := asks + (siblingAsks + [flag, Asked(Wizarr)] + cutting);
            flag in plan && forall effect | effect in plan && SetsFlag(effect) :: effect == flag
  {
  }

  lemma AsksAskOnly(rows: seq<Row>, own: Option<Address>, customer: string, payer: Address)
    ensures forall effect | effect in PayerAsks(rows, own, Some(customer)) :: effect.Asked?
    ensures forall effect | effect in SiblingAsks(rows, payer, customer) :: effect.Asked?
  {
    hide MappedEmail, Siblings;
  }

  lemma CuttingOnlyDisables(store: Store, customer: string, payer: Address, sibling: Option<string>, ans: Answers)
    ensures forall effect | effect in Cutting(store, customer, payer, sibling, ans) :: effect.Disabled?
  {
    hide Resolve, SnapshotOf, TagOf, SubscribedElsewhere;
  }

  /** The invoice of a sign-up settles the dunning flag and does nothing else. */
  lemma SignupInvoiceOnlySettles(store: Store, invoice: Option<string>, customer: string, own: Option<Address>,
                                 ans: Answers, payer: Address)
    requires PayerOf(store, InvoicePaid(invoice, Some(customer), own, true), ans) == Some(payer)
    ensures var plan := EventPlan(store, InvoicePaid(invoice, Some(customer), own, true), ans);
            && PaymentStateSet(payer, false) in plan
            && forall effect | effect in plan :: effect.Asked? || effect == PaymentStateSet(payer, false)
  {
    hide PayerEmail, MappedEmail, Write, RenewedRest;
  }

  /** A paid invoice or a cancellation that names no customer fails its delivery, so it is never marked processed. */
  lemma CustomerlessIsNeverProcessed(w: World, id: string, event: Event, ans: Answers, fuel: nat)
    requires (event.InvoicePaid? || event.SubscriptionDeleted?) && event.customer.None?
    requires id !in w.store.processed
    ensures id !in Deliver(w, Delivered(Some(id), event, ans, fuel)).store.processed
  {
    var live := w.(fuel := fuel, dead := false);
    var plan := HandlePlan(w.store, Some(id), event, ans);
    assert plan == [Died, Processed(id)] && plan[1..] == [Processed(id)];
    assert Act(live, Died).dead;
    ExecuteDead(Act(live, Died), plan[1..]);
  }
}
