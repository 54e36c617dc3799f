/** What a retirement must find: every subscription Stripe is still retrying for another customer at the address. */
module Retirement {
  import opened Options
  import opened Identity
  import opened Standing
  import opened BridgeStore
  import opened WebhookPlans
  import Delivery
  import opened TagRules
  import opened Outcomes

  /** A subscription of another customer that Stripe lists at the address and is still retrying. */
  predicate StillRetried(ans: Answers, payingUnder: string, customer: string, s: Subscription) {
    && customer in ans.customersAt && customer != payingUnder
    && customer in ans.subscriptionsOf && s in ans.subscriptionsOf[customer]
    && (s.status == "past_due" || s.status == "unpaid")
  }

  lemma {:induction false} EveryCustomerIsAsked(ans: Answers, customers: seq<string>, s: Subscription)
    ensures s in SubscriptionsFor(ans, customers)
            <==> exists c :: c in customers && c in ans.subscriptionsOf && s in ans.subscriptionsOf[c]
    decreases |customers|
  {
    if |customers| > 0 {
      EveryCustomerIsAsked(ans, customers[1..], s);
      assert forall c :: c in customers <==> c == customers[0] || c in customers[1..];
    }
  }

  /** What is retired is exactly that, whichever customer it belongs to. */
  lemma DunningIsStillRetried(ans: Answers, payingUnder: string, s: Subscription)
    ensures s in DunningOthers(ans, payingUnder) <==> exists c :: StillRetried(ans, payingUnder, c, s)
  {
    var others := Filter((c: string) => c != payingUnder, ans.customersAt);
    EveryCustomerIsAsked(ans, others, s);
    hide SubscriptionsFor;
    if c :| c in others && c in ans.subscriptionsOf && s in ans.subscriptionsOf[c] && IsDunning(s.status) {
      assert StillRetried(ans, payingUnder, c, s);
    }
  }

  /** When Stripe answers, a retirement finds nothing exactly when nobody else is still being charged. */
  lemma NoneMeansNobodyIsRetried(ans: Answers, payingUnder: string)
    requires ans.retirementThrowsAt.None?
    ensures RetirementOf(ans, payingUnder) == NoneToRetire <==> forall c, s :: !StillRetried(ans, payingUnder, c, s)
    ensures RetirementOf(ans, payingUnder) == Retired <==> exists c, s :: StillRetried(ans, payingUnder, c, s)
  {
    var dunning := DunningOthers(ans, payingUnder);
    hide DunningOthers;
    if c, s :| StillRetried(ans, payingUnder, c, s) {
      DunningIsStillRetried(ans, payingUnder, s);
    }
    if |dunning| > 0 {
      DunningIsStillRetried(ans, payingUnder, dunning[0]);
    }
  }

  /** A subscription and each invoice it left open are dealt with. */
  predicate Settled(plan: Effects, ans: Answers, s: Subscription) {
    && Cancelled(s.id, s.customer) in plan
    && (s.id in ans.invoicesOf ==> forall invoice | invoice in ans.invoicesOf[s.id] :: Voided(invoice) in plan)
  }

  /** A checkout nobody is banned from settles every subscription still retried for another customer. */
  lemma CheckoutSettlesEveryDuplicate(store: Store, session: Option<string>, customer: string, email: Address,
                                      tier: Tier, ans: Answers, other: string, s: Subscription)
    requires !IsBanned(TagOf(store,
                             PersonOf(store, CheckoutCompleted(session, Some(customer), Some(email), tier), ans)))
    requires ans.retirementThrowsAt.None? && StillRetried(ans, customer, other, s)
    ensures Settled(EventPlan(store, CheckoutCompleted(session, Some(customer), Some(email), tier), ans), ans, s)
  {
    DunningIsStillRetried(ans, customer, s);
    hide EventPlan, PersonOf, TagOf, DunningOthers, StillRetried;
    assert exists c :: StillRetried(ans, customer, c, s);
    CheckoutRetiresDuplicates(store, session, customer, email, tier, ans, s);
  }

  /** So does a payment that failed for a customer whose address has a live one. */
  lemma FailedPaymentSettlesEveryDuplicate(store: Store, customer: string, own: Option<Address>, ans: Answers,
                                           live: string, other: string, s: Subscription)
    requires var payer := PayerOf(store, PaymentFailed(Some(customer), own), ans);
             payer.Some? && LiveSibling(store.rows, payer.value, customer, ans) == Some(live)
    requires ans.retirementThrowsAt.None? && StillRetried(ans, live, other, s)
    ensures Settled(EventPlan(store, PaymentFailed(Some(customer), own), ans), ans, s)
  {
    assert exists c :: StillRetried(ans, live, c, s);
    DunningIsStillRetried(ans, live, s);
    RetiringSettles(ans, live, s);
    RetiresThere(store, customer, own, ans, live);
    hide EventPlan, PayerOf, LiveSibling, DunningOthers, StillRetried, Retiring;
  }

  lemma RetiringSettles(ans: Answers, live: string, s: Subscription)
    requires ans.retirementThrowsAt.None? && s in DunningOthers(ans, live)
    ensures Settled(Retiring(ans, live), ans, s)
  {
    EveryDunningIsCancelled(ans, DunningOthers(ans, live), s);
    hide DunningOthers, Listing, Cancelling;
  }

  lemma RetiresThere(store: Store, customer: string, own: Option<Address>, ans: Answers, live: string)
    requires var payer := PayerOf(store, PaymentFailed(Some(customer), own), ans);
             payer.Some? && LiveSibling(store.rows, payer.value, customer, ans) == Some(live)
    ensures forall effect | effect in Retiring(ans, live) ::
              effect in EventPlan(store, PaymentFailed(Some(customer), own), ans)
  {
    hide PayerEmail, MappedEmail, Siblings, LiveSibling, Retiring, RetirementOf;
  }

  /** Once the link is out, a checkout alerts the operator exactly when its retirement did something or was stopped. */
  lemma RetirementIsReported(store: Store, session: string, customer: string, email: Address, tier: Tier, ans: Answers)
    requires !IsBanned(TagOf(store,
                             PersonOf(store, CheckoutCompleted(Some(session), Some(customer), Some(email), tier), ans)))
    requires session in store.bindings && store.bindings[session].emailed
    ensures Alerted in EventPlan(store, CheckoutCompleted(Some(session), Some(customer), Some(email), tier), ans)
            <==> RetirementOf(ans, customer) != NoneToRetire
  {
    CheckoutParts(store, session, customer, email, tier, ans);
    if RetirementOf(ans, customer) == NoneToRetire {
      hide DunningOthers;
    }
    hide EventPlan, CancelAndVoid, DunningOthers, PersonOf, TagOf;
  }

  lemma CheckoutParts(store: Store, session: string, customer: string, email: Address, tier: Tier, ans: Answers)
    requires !IsBanned(TagOf(store,
                             PersonOf(store, CheckoutCompleted(Some(session), Some(customer), Some(email), tier), ans)))
    requires session in store.bindings && store.bindings[session].emailed
    ensures Alerted in EventPlan(store, CheckoutCompleted(Some(session), Some(customer), Some(email), tier), ans)
            <==> Alerted in CheckoutRetiring(Some(customer), ans)
  {
    hide Resolve, SnapshotOf, Governing, After, Inviting, Issuing, CheckoutRetiring, CheckoutResetting;
    var key := SessionKey(Some(session));
    var issuing := Issuing(store, key, Some(customer), email, tier, true, ans);
    InvitingAgain(store, session, customer, email, tier, ans);
    Delivery.CheckoutRestIsQuiet(store, issuing, Some(customer), email, ans);
  }

  lemma InvitingAgain(store: Store, session: string, customer: string, email: Address, tier: Tier, ans: Answers)
    requires session in store.bindings && store.bindings[session].emailed
    ensures Alerted !in Inviting(store, SessionKey(Some(session)), Some(customer), email, tier, true, ans)
  {
  }
}
