/** What a tag on any address of a person forbids the handlers, the sweep and the admin's reissue. */
module TagRules {
  import opened Options
  import opened Identity
  import opened Standing
  import opened BridgeStore
  import opened WebhookPlans
  import opened Delivery

  // ---------------------------------------------------------------- flags do not move identities

  predicate SetsFlag(effect: Effect) {
    effect.PaymentStateSet? || effect.SubscribedSet?
  }

  /** Changing rows in a way a test cannot see changes the last row to pass it in that way only. */
  lemma {:induction false} LastOfUpdated(rows: seq<Row>, which: Row -> bool, change: Row -> Row, test: Row -> bool)
    requires forall row :: test(change(row)) == test(row)
    ensures var last := Last(rows, test);
            Last(Updated(rows, which, change), test)
            == if last.None? then None else Some(if which(last.value) then change(last.value) else last.value)
    decreases |rows|
  {
    if |rows| > 0 {
      var front := rows[..|rows| - 1];
      LastOfUpdated(front, which, change, test);
      assert Updated(rows, which, change)[..|rows| - 1] == Updated(front, which, change);
    }
  }

  lemma {:induction false} FirstOfUpdated(rows: seq<Row>, which: Row -> bool, change: Row -> Row, test: Row -> bool)
    requires forall row :: test(change(row)) == test(row)
    ensures var first := First(test, rows);
            First(test, Updated(rows, which, change))
            == if first.None? then None else Some(if which(first.value) then change(first.value) else first.value)
    decreases |rows|
  {
    if |rows| > 0 {
      FirstOfUpdated(rows[1..], which, change, test);
      assert Updated(rows, which, change)[1..] == Updated(rows[1..], which, change);
    }
  }

  /** A row with one flag set and everything else as it was. */
  function Flagged(row: Row, effect: Effect): Row
    requires SetsFlag(effect)
  {
    if row.email != effect.email then row
    else if effect.PaymentStateSet? then row.(pastDue := effect.pastDue)
    else row.(subscribed := effect.value)
  }

  lemma CustomerRowFlagged(rows: seq<Row>, effect: Effect, email: Address)
    requires SetsFlag(effect)
    ensures var row := CustomerRow(rows, email);
            CustomerRow(FlaggedRows(rows, effect), email)
            == if row.None? then None else Some(Flagged(row.value, effect))
  {
    var which := (row: Row) => row.email == effect.email;
    var change := if effect.PaymentStateSet? then (row: Row) => row.(pastDue := effect.pastDue)
                  else (row: Row) => row.(subscribed := effect.value);
    LastOfUpdated(rows, which, change, (row: Row) => row.email == email && IsStripeCustomer(row.customer));
    LastOfUpdated(rows, which, change, (row: Row) => row.email == email);
    assert FlaggedRows(rows, effect) == Updated(rows, which, change);
  }

  function FlaggedRows(rows: seq<Row>, effect: Effect): (flagged: seq<Row>)
    requires SetsFlag(effect)
    ensures |flagged| == |rows| && forall i | 0 <= i < |rows| :: flagged[i] == Flagged(rows[i], effect)
  {
    if effect.PaymentStateSet? then WithPaymentState(rows, effect.email, effect.pastDue)
    else WithSubscribed(rows, effect.email, effect.value)
  }

  lemma EmailsFlagged(rows: seq<Row>, effect: Effect)
    requires SetsFlag(effect)
    ensures Emails(FlaggedRows(rows, effect)) == Emails(rows)
  {
    var flagged := FlaggedRows(rows, effect);
    forall email | email in Emails(rows) ensures email in Emails(flagged) {
      var row :| row in rows && row.email == email;
      var i :| 0 <= i < |rows| && rows[i] == row;
      assert flagged[i] in flagged && flagged[i].email == email;
    }
    forall email | email in Emails(flagged) ensures email in Emails(rows) {
      var row :| row in flagged && row.email == email;
      var i :| 0 <= i < |flagged| && flagged[i] == row;
      assert rows[i] in rows && rows[i].email == email;
    }
  }

  lemma InvitesFlagged(rows: seq<Row>, effect: Effect)
    requires SetsFlag(effect)
    ensures Invites(FlaggedRows(rows, effect)) == Invites(rows)
  {
    hide CustomerRow, FlaggedRows;
    var flagged := FlaggedRows(rows, effect);
    EmailsFlagged(rows, effect);
    forall email ensures CustomerRow(flagged, email).Some? <==> CustomerRow(rows, email).Some?
                 ensures CustomerRow(flagged, email).Some? ==>
                           CustomerRow(flagged, email).value.code == CustomerRow(rows, email).value.code
    {
      CustomerRowFlagged(rows, effect, email);
    }
  }

  lemma MappingFlagged(rows: seq<Row>, effect: Effect, customer: string)
    requires SetsFlag(effect)
    ensures var row := Mapping(rows, customer);
            Mapping(FlaggedRows(rows, effect), customer)
            == if row.None? then None else Some(Flagged(row.value, effect))
  {
    var which := (row: Row) => row.email == effect.email;
    var change := if effect.PaymentStateSet? then (row: Row) => row.(pastDue := effect.pastDue)
                  else (row: Row) => row.(subscribed := effect.value);
    FirstOfUpdated(rows, which, change, (row: Row) => row.customer == customer);
    assert FlaggedRows(rows, effect) == Updated(rows, which, change);
  }

  lemma WriteFlagged(store: Store, effect: Effect)
    requires SetsFlag(effect)
    ensures Write(store, effect) == store.(rows := FlaggedRows(store.rows, effect))
  {
  }

  /** Who a payer is, and what governs them, is the same before and after a flag is written. */
  lemma FlagsKeepIdentity(store: Store, effect: Effect, ans: Answers, customer: Option<string>, email: Option<Address>)
    requires SetsFlag(effect)
    ensures var after := Write(store, effect);
            && Resolve(SnapshotOf(after, ans), after.rows, customer, email)
               == Resolve(SnapshotOf(store, ans), store.rows, customer, email)
            && after.tags == store.tags
  {
    WriteFlagged(store, effect);
    InvitesFlagged(store.rows, effect);
    hide FlaggedRows, Write, Invites, Mapping;
    if customer.Some? {
      MappingFlagged(store.rows, effect, customer.value);
    }
  }

  lemma FlagLeavesOthers(store: Store, flag: Effect, other: Address)
    requires SetsFlag(flag) && flag.email != other
    ensures Subscribed(Write(store, flag).rows, other) <==> Subscribed(store.rows, other)
  {
    WriteFlagged(store, flag);
    CustomerRowFlagged(store.rows, flag, other);
    hide CustomerRow, FlaggedRows, Write;
  }

  // ---------------------------------------------------------------- the rules

  /** Anything that invites, extends or re-subscribes. */
  predicate Grants(effect: Effect) {
    match effect
    case Minted(_, _) => true
    case Bound(_, _) => true
    case Mailed(_, _, _) => true
    case RowWritten(_, _, _, _, _, _) => true
    case Stamped(_, _) => true
    case SubscribedSet(_, value) => value
    case _ => false
  }

  predicate TouchesRecords(effect: Effect) {
    effect.Disabled? || effect.Stamped?
  }

  /** The customer an event names, and the payer resolved for it. */
  function CustomerOf(event: Event): Option<string> {
    match event
    case CheckoutCompleted(_, customer, _, _) => customer
    case InvoicePaid(_, customer, _, _) => customer
    case PaymentFailed(customer, _) => customer
    case SubscriptionUpdated(customer, _, _) => customer
    case SubscriptionDeleted(customer, _) => customer
    case OtherEvent => None
  }

  function PayerOf(store: Store, event: Event, ans: Answers): Option<Address> {
    match event
    case CheckoutCompleted(_, _, email, _) => email
    case InvoicePaid(_, customer, own, _) => PayerEmail(store.rows, own, customer, ans)
    case PaymentFailed(customer, own) => PayerEmail(store.rows, own, customer, ans)
    case SubscriptionUpdated(customer, own, _) => PayerEmail(store.rows, own, customer, ans)
    case SubscriptionDeleted(customer, own) => PayerEmail(store.rows, own, customer, ans)
    case OtherEvent => None
  }

  /** Who an event is about, resolved from the tables as the delivery finds them. */
  function PersonOf(store: Store, event: Event, ans: Answers): Person {
    Resolve(SnapshotOf(store, ans), store.rows, CustomerOf(event), PayerOf(store, event, ans))
  }

  lemma BannedRenewal(store: Store, invoice: Option<string>, customer: Option<string>, own: Option<Address>,
                      first: bool, ans: Answers)
    requires var event := InvoicePaid(invoice, customer, own, first);
             PayerOf(store, event, ans).Some? && IsBanned(TagOf(store, PersonOf(store, event, ans)))
    ensures forall effect | effect in InvoicePaidPlan(store, invoice, customer, own, first, ans) :: !Grants(effect)
  {
    hide Resolve, SnapshotOf, PayerEmail, MappedEmail, Governing, Write;
    FlagsKeepIdentity(store, PaymentStateSet(PayerEmail(store.rows, own, customer, ans).value, false), ans, customer,
                      PayerEmail(store.rows, own, customer, ans));
  }

  /** A payer banned under any address of theirs is never invited, mailed, extended or re-subscribed. */
  lemma BannedPayerIsGrantedNothing(store: Store, event: Event, ans: Answers)
    requires PayerOf(store, event, ans).Some? && IsBanned(TagOf(store, PersonOf(store, event, ans)))
    ensures forall effect | effect in EventPlan(store, event, ans) :: !Grants(effect)
  {
    hide Resolve, SnapshotOf, PayerEmail, MappedEmail, Governing, LiveSibling, SubscribedElsewhere, InvoicePaidPlan,
      PaymentFailedPlan, TagOf, Write;
    match event
    case CheckoutCompleted(session, customer, email, tier) =>
      assert CheckoutPlan(store, session, customer, email, tier, ans) == [Asked(Wizarr), Alerted];
    case InvoicePaid(invoice, customer, own, first) =>
      BannedRenewal(store, invoice, customer, own, first, ans);
    case PaymentFailed(customer, own) =>
      PaymentFailedIsQuiet(store, customer, own, ans);
    case SubscriptionUpdated(_, _, _) =>
    case SubscriptionDeleted(_, _) =>
    case OtherEvent =>
  }

  lemma InvitingTouchesNoRecord(store: Store, key: Option<string>, customer: Option<string>, email: Address, tier: Tier,
                                settles: bool, ans: Answers)
    ensures forall effect | effect in Inviting(store, key, customer, email, tier, settles, ans) ::
              !TouchesRecords(effect)
  {
  }

  lemma VipCheckout(store: Store, session: Option<string>, customer: Option<string>, email: Address, tier: Tier,
                    ans: Answers)
    requires HoldsStandingGrant(TagOf(store, CheckoutPerson(store, customer, email, ans)))
    ensures forall effect | effect in CheckoutPlan(store, session, customer, Some(email), tier, ans) ::
              !TouchesRecords(effect)
  {
    hide CheckoutPerson, Inviting, Issuing, Retiring, RetirementOf;
    InvitingTouchesNoRecord(store, SessionKey(session), customer, email, tier, true, ans);
    if customer.Some? {
      RetiringMeans(ans, customer.value);
    }
  }

  lemma VipRenewal(store: Store, invoice: Option<string>, customer: Option<string>, own: Option<Address>, first: bool,
                   ans: Answers)
    requires var event := InvoicePaid(invoice, customer, own, first);
             PayerOf(store, event, ans).Some? && HoldsStandingGrant(TagOf(store, PersonOf(store, event, ans)))
    ensures forall effect | effect in InvoicePaidPlan(store, invoice, customer, own, first, ans) ::
              !TouchesRecords(effect)
  {
    hide Resolve, SnapshotOf, PayerEmail, MappedEmail, Governing, Write;
    FlagsKeepIdentity(store, PaymentStateSet(PayerEmail(store.rows, own, customer, ans).value, false), ans, customer,
                      PayerEmail(store.rows, own, customer, ans));
  }

  lemma VipCancellation(store: Store, customer: Option<string>, own: Option<Address>, ans: Answers)
    requires var event := SubscriptionDeleted(customer, own);
             PayerOf(store, event, ans).Some? && HoldsStandingGrant(TagOf(store, PersonOf(store, event, ans)))
    ensures forall effect | effect in DeletedPlan(store, customer, own, ans) :: !TouchesRecords(effect)
  {
    hide Resolve, SnapshotOf, PayerEmail, MappedEmail, Governing, Write, LiveSibling, Siblings;
    var email := PayerEmail(store.rows, own, customer, ans);
    FlagsKeepIdentity(store, PaymentStateSet(email.value, false), ans, customer, email);
    FlagsKeepIdentity(store, SubscribedSet(email.value, false), ans, customer, email);
  }

  /** A payer who is VIP under any address of theirs has no record disabled and no expiry stamped. */
  lemma VipRecordsAreLeftAlone(store: Store, event: Event, ans: Answers)
    requires PayerOf(store, event, ans).Some? && HoldsStandingGrant(TagOf(store, PersonOf(store, event, ans)))
    ensures forall effect | effect in EventPlan(store, event, ans) :: !TouchesRecords(effect)
  {
    hide Resolve, SnapshotOf, PayerEmail, MappedEmail, Governing, CheckoutPlan, InvoicePaidPlan, PaymentFailedPlan,
      DeletedPlan, TagOf;
    match event
    case CheckoutCompleted(session, customer, email, tier) =>
      VipCheckout(store, session, customer, email.value, tier, ans);
    case InvoicePaid(invoice, customer, own, first) =>
      VipRenewal(store, invoice, customer, own, first, ans);
    case PaymentFailed(customer, own) =>
      PaymentFailedIsQuiet(store, customer, own, ans);
    case SubscriptionUpdated(_, _, _) =>
    case SubscriptionDeleted(customer, own) =>
      VipCancellation(store, customer, own, ans);
    case OtherEvent =>
  }

  /** A delivery adds nothing to the log but what its event planned, its own mark, or its death. */
  lemma DeliveryAddsOnlyItsPlan(w: World, id: Option<string>, event: Event, ans: Answers, fuel: nat, i: nat)
    requires |w.log| <= i < |Deliver(w, Delivered(id, event, ans, fuel)).log|
    ensures var done := Deliver(w, Delivered(id, event, ans, fuel)).log[i];
            done in EventPlan(w.store, event, ans) || done.Processed? || done.Died?
  {
    var live := w.(fuel := fuel, dead := false);
    var plan := HandlePlan(w.store, id, event, ans);
    hide EventPlan;
    ExecuteIsPrefix(live, plan);
    var after := Execute(live, plan);
    var n :| 0 <= n <= |plan| && after.log == w.log + plan[..n] + (if after.dead then [Died] else []);
    if i < |w.log| + n {
      assert after.log[i] == plan[i - |w.log|];
    }
  }

  // ---------------------------------------------------------------- where no payer is resolved

  /**
   * The rules need a payer: for a renewal or a cancellation of somebody banned or VIP, records are
   * still stamped or disabled exactly when no address was resolved and the invite led to records.
   */
  lemma WithoutAPayerTagsAreSkipped(store: Store, invoice: Option<string>, customer: string, own: Option<Address>,
                                    ans: Answers)
    ensures var event := InvoicePaid(invoice, Some(customer), own, false);
            var person := PersonOf(store, event, ans);
            IsBanned(TagOf(store, person)) ==>
              ((exists effect :: effect in EventPlan(store, event, ans) && effect.Stamped?)
               <==> PayerOf(store, event, ans).None? && |person.records| > 0)
    ensures var event := SubscriptionDeleted(Some(customer), own);
            var person := PersonOf(store, event, ans);
            HoldsStandingGrant(TagOf(store, person)) ==>
              ((exists effect :: effect in EventPlan(store, event, ans) && effect.Disabled?)
               <==> PayerOf(store, event, ans).None? && |person.records| > 0)
  {
    UnknownRenewal(store, invoice, customer, own, ans);
    UnknownCancellation(store, customer, own, ans);
  }

  lemma UnknownRenewal(store: Store, invoice: Option<string>, customer: string, own: Option<Address>, ans: Answers)
    ensures var event := InvoicePaid(invoice, Some(customer), own, false);
            var person := PersonOf(store, event, ans);
            IsBanned(TagOf(store, person)) ==>
              ((exists effect :: effect in EventPlan(store, event, ans) && effect.Stamped?)
               <==> PayerOf(store, event, ans).None? && |person.records| > 0)
  {
    var event := InvoicePaid(invoice, Some(customer), own, false);
    var records := PersonOf(store, event, ans).records;
    if PayerOf(store, event, ans).Some? {
      hide EventPlan, PersonOf, PayerOf, TagOf;
      if IsBanned(TagOf(store, PersonOf(store, event, ans))) {
        BannedPayerIsGrantedNothing(store, event, ans);
      }
    } else {
      hide TagOf;
      UnknownRenewalStamps(store, invoice, customer, own, ans);
    }
  }

  lemma UnknownRenewalStamps(store: Store, invoice: Option<string>, customer: string, own: Option<Address>,
                             ans: Answers)
    requires PayerOf(store, InvoicePaid(invoice, Some(customer), own, false), ans).None?
    ensures var event := InvoicePaid(invoice, Some(customer), own, false);
            (exists effect :: effect in EventPlan(store, event, ans) && effect.Stamped?)
              <==> |PersonOf(store, event, ans).records| > 0
  {
    hide Resolve, SnapshotOf, PayerEmail, MappedEmail, Renewing;
    var event := InvoicePaid(invoice, Some(customer), own, false);
    var records := PersonOf(store, event, ans).records;
    var stamping := Stamping(records, ans);
    assert EventPlan(store, event, ans)
           == PayerAsks(store.rows, own, Some(customer)) + [] + ([Asked(Wizarr)] + stamping);
    if |records| > 0 {
      assert stamping[0] in stamping && stamping[0] in EventPlan(store, event, ans);
    }
  }

  lemma UnknownCancellation(store: Store, customer: string, own: Option<Address>, ans: Answers)
    ensures var event := SubscriptionDeleted(Some(customer), own);
            var person := PersonOf(store, event, ans);
            HoldsStandingGrant(TagOf(store, person)) ==>
              ((exists effect :: effect in EventPlan(store, event, ans) && effect.Disabled?)
               <==> PayerOf(store, event, ans).None? && |person.records| > 0)
  {
    var event := SubscriptionDeleted(Some(customer), own);
    var records := PersonOf(store, event, ans).records;
    if PayerOf(store, event, ans).Some? {
      hide EventPlan, PersonOf, PayerOf, TagOf;
      if HoldsStandingGrant(TagOf(store, PersonOf(store, event, ans))) {
        VipRecordsAreLeftAlone(store, event, ans);
      }
    } else {
      hide Resolve, SnapshotOf, PayerEmail, MappedEmail, TagOf, Cutting;
      var disabling := Disabling(records);
      assert EventPlan(store, event, ans) == PayerAsks(store.rows, own, Some(customer)) + ([Asked(Wizarr)] + disabling);
      if |records| > 0 {
        assert disabling[0] in disabling && disabling[0] in EventPlan(store, event, ans);
      }
    }
  }
}
