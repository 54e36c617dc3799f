/** Who a delivery writes to: the address its event is paid under, and nobody else, over every run. */
module Recipients {
  import opened Options
  import opened Identity
  import opened Standing
  import opened BridgeStore
  import opened WebhookPlans
  import opened Delivery
  import opened TagRules
  import opened Outcomes

  // ---------------------------------------------------------------- who the payer is

  /** The first row recorded for a customer. */
  ghost predicate FirstRowOf(rows: seq<Row>, customer: string, i: nat) {
    && i < |rows| && rows[i].customer == customer
    && forall j | 0 <= j < i :: rows[j].customer != customer
  }

  lemma {:induction false} MappingIsFirst(rows: seq<Row>, customer: string, i: nat)
    requires FirstRowOf(rows, customer, i)
    ensures Mapping(rows, customer) == Some(rows[i])
    decreases |rows|
  {
    if i > 0 {
      assert FirstRowOf(rows[1..], customer, i - 1) by {
        assert forall j | 0 <= j < i - 1 :: rows[1..][j] == rows[j + 1];
      }
      MappingIsFirst(rows[1..], customer, i - 1);
    }
  }

  /**
   * The payer of anything but a checkout: the event's own address, else the one on the first row of its
   * customer, else the one Stripe has; a checkout that names nobody is looked up nowhere.
   */
  lemma PayerMeans(store: Store, event: Event, ans: Answers, i: nat)
    requires !event.OtherEvent?
    ensures event.email.Some? ==> PayerOf(store, event, ans) == event.email
    ensures event.email.None? && (event.CheckoutCompleted? || event.customer.None?) ==> PayerOf(store, event, ans).None?
    ensures event.email.None? && !event.CheckoutCompleted? && event.customer.Some?
            && FirstRowOf(store.rows, event.customer.value, i) && store.rows[i].email != "" ==>
              PayerOf(store, event, ans) == Some(store.rows[i].email)
    ensures event.email.None? && !event.CheckoutCompleted? && event.customer.Some?
            && (forall row | row in store.rows && row.customer == event.customer.value :: row.email == "") ==>
              PayerOf(store, event, ans) == if ans.stripeEmail == Some("") then None else ans.stripeEmail
  {
    if event.customer.Some? && FirstRowOf(store.rows, event.customer.value, i) {
      MappingIsFirst(store.rows, event.customer.value, i);
    }
  }

  // ---------------------------------------------------------------- one plan

  /** The key an event's invite is issued under. */
  function EventKey(event: Event): Option<string> {
    match event
    case CheckoutCompleted(Some(session), _, _, _) => Some(session)
    case InvoicePaid(Some(invoice), _, _, _) => Some("invoice:" + invoice)
    case _ => None
  }

  /** Whatever is mailed goes to this address, under this key. */
  predicate Sends(effect: Effect, key: Option<string>, to: Option<Address>) {
    match effect
    case Mailed(under, recipient, _) => under == key && to == Some(recipient)
    case MemberNotified(recipient) => to == Some(recipient)
    case _ => true
  }

  lemma InvitingSends(store: Store, key: Option<string>, customer: Option<string>, email: Address, tier: Tier,
                      settles: bool, ans: Answers)
    ensures forall effect | effect in Inviting(store, key, customer, email, tier, settles, ans) ::
              Sends(effect, key, Some(email))
  {
    hide IssuedCode, AlreadyMailed;
  }

  lemma CheckoutSends(store: Store, session: Option<string>, customer: Option<string>, email: Address, tier: Tier,
                      ans: Answers)
    ensures forall effect | effect in CheckoutPlan(store, session, customer, Some(email), tier, ans) ::
              Sends(effect, EventKey(CheckoutCompleted(session, customer, Some(email), tier)), Some(email))
  {
    var key := SessionKey(session);
    InvitingSends(store, key, customer, email, tier, true, ans);
    CheckoutRestIsQuiet(store, Issuing(store, key, customer, email, tier, true, ans), customer, email, ans);
    RetiringMailsNobody(customer, ans);
    hide CheckoutPerson, CheckoutRetiring, CheckoutResetting, Inviting, Issuing, TagOf;
  }

  lemma RetiringMailsNobody(customer: Option<string>, ans: Answers)
    ensures forall effect | effect in CheckoutRetiring(customer, ans) :: !effect.Mailed? && !effect.MemberNotified?
  {
    if customer.Some? {
      RetiringMeans(ans, customer.value);
      hide Retiring, RetirementOf, DunningOthers;
    }
  }

  lemma RenewingSends(paid: Store, invoice: Option<string>, customer: string, email: Address, ans: Answers)
    ensures forall effect | effect in Renewing(paid, invoice, customer, email, ans) ::
              Sends(effect, if invoice.Some? then Some("invoice:" + invoice.value) else None, Some(email))
  {
    hide Resolve, SnapshotOf, TagOf, Inviting, TierAt, Write;
    if invoice.Some? {
      var raised := Write(paid, SubscribedSet(email, true));
      InvitingSends(raised, Some(OperationKey(Recovery(invoice.value))), Some(customer), email,
                    TierAt(raised.rows, email), false, ans);
    }
  }

  lemma RenewalSends(store: Store, invoice: Option<string>, customer: Option<string>, own: Option<Address>, first: bool,
                     ans: Answers)
    ensures var event := InvoicePaid(invoice, customer, own, first);
            forall effect | effect in InvoicePaidPlan(store, invoice, customer, own, first, ans) ::
              Sends(effect, EventKey(event), PayerOf(store, event, ans))
  {
    hide Renewing, Resolve, SnapshotOf, Write, MappedEmail, PayerEmail;
    var email := PayerEmail(store.rows, own, customer, ans);
    if customer.Some? && email.Some? && !first {
      RenewingSends(Write(store, PaymentStateSet(email.value, false)), invoice, customer.value, email.value, ans);
    }
  }

  lemma FailureSends(store: Store, customer: Option<string>, own: Option<Address>, ans: Answers)
    ensures forall effect | effect in PaymentFailedPlan(store, customer, own, ans) ::
              Sends(effect, None, PayerOf(store, PaymentFailed(customer, own), ans))
  {
    hide PayerEmail, MappedEmail, Retiring, RetirementOf, Siblings, LiveSibling;
    var email := PayerEmail(store.rows, own, customer, ans);
    if email.Some? && customer.Some? {
      var sibling := LiveSibling(store.rows, email.value, customer.value, ans);
      if sibling.Some? {
        RetiringMeans(ans, sibling.value);
        hide DunningOthers;
      }
    }
  }

  lemma CancellationSends(store: Store, customer: Option<string>, own: Option<Address>, ans: Answers)
    ensures forall effect | effect in DeletedPlan(store, customer, own, ans) ::
              !effect.Mailed? && !effect.MemberNotified?
  {
    hide Resolve, SnapshotOf, TagOf, LiveSibling, Siblings, PayerEmail, MappedEmail, Write, SubscribedElsewhere;
  }

  /** Every link an event mails, and every notice to a member, goes to its payer, and a link under its own key. */
  lemma PlansWriteToThePayer(store: Store, event: Event, ans: Answers)
    ensures forall effect | effect in EventPlan(store, event, ans) ::
              Sends(effect, EventKey(event), PayerOf(store, event, ans))
  {
    hide CheckoutPlan, InvoicePaidPlan, PaymentFailedPlan, DeletedPlan, PayerEmail;
    match event
    case CheckoutCompleted(session, customer, email, tier) =>
      if email.Some? {
        CheckoutSends(store, session, customer, email.value, tier, ans);
      } else {
        NamelessDoesNothing(store, session, customer, tier, ans);
      }
    case InvoicePaid(invoice, customer, own, first) =>
      RenewalSends(store, invoice, customer, own, first, ans);
    case PaymentFailed(customer, own) =>
      FailureSends(store, customer, own, ans);
    case SubscriptionUpdated(customer, own, status) =>
    case SubscriptionDeleted(customer, own) =>
      CancellationSends(store, customer, own, ans);
    case OtherEvent =>
  }

  lemma NamelessDoesNothing(store: Store, session: Option<string>, customer: Option<string>, tier: Tier, ans: Answers)
    ensures CheckoutPlan(store, session, customer, None, tier, ans) == []
  {
  }

  // ---------------------------------------------------------------- the row it writes

  predicate RowOf(effect: Effect, customer: Option<string>, payer: Address, tier: Tier, at: int, settles: bool) {
    effect.RowWritten? ==>
      && effect.customer == customer && effect.email == payer && effect.tier == tier && effect.at == at
      && effect.settles == settles
  }

  lemma InvitingRecords(store: Store, key: Option<string>, customer: Option<string>, email: Address, tier: Tier,
                        settles: bool, ans: Answers)
    ensures forall effect | effect in Inviting(store, key, customer, email, tier, settles, ans) ::
              RowOf(effect, customer, email, tier, ans.now, settles)
  {
    hide IssuedCode, AlreadyMailed;
  }

  /** A checkout's row is for its own customer, address and tier, dated now, with the dunning flag settled. */
  lemma CheckoutRecordsItsSale(store: Store, session: Option<string>, customer: Option<string>, email: Address,
                               tier: Tier, ans: Answers)
    ensures forall effect | effect in EventPlan(store, CheckoutCompleted(session, customer, Some(email), tier), ans) ::
              RowOf(effect, customer, email, tier, ans.now, true)
  {
    var key := SessionKey(session);
    InvitingRecords(store, key, customer, email, tier, true, ans);
    CheckoutRestIsQuiet(store, Issuing(store, key, customer, email, tier, true, ans), customer, email, ans);
    RetiringRecordsNothing(customer, ans);
    hide CheckoutPerson, CheckoutRetiring, CheckoutResetting, Inviting, Issuing, TagOf;
  }

  lemma RetiringRecordsNothing(customer: Option<string>, ans: Answers)
    ensures forall effect | effect in CheckoutRetiring(customer, ans) :: !effect.RowWritten?
  {
    if customer.Some? {
      RetiringMeans(ans, customer.value);
      hide Retiring, RetirementOf, DunningOthers;
    }
  }

  lemma TierFlagged(store: Store, flag: Effect, email: Address)
    requires SetsFlag(flag)
    ensures TierAt(Write(store, flag).rows, email) == TierAt(store.rows, email)
  {
    WriteFlagged(store, flag);
    hide CustomerRow, FlaggedRows, Write;
    CustomerRowFlagged(store.rows, flag, email);
  }

  lemma RenewingRecords(paid: Store, invoice: Option<string>, customer: string, email: Address, ans: Answers)
    ensures forall effect | effect in Renewing(paid, invoice, customer, email, ans) ::
              RowOf(effect, Some(customer), email, TierAt(paid.rows, email), ans.now, false)
  {
    TierFlagged(paid, SubscribedSet(email, true), email);
    hide Resolve, SnapshotOf, TagOf, Inviting, TierAt, Write;
    if invoice.Some? {
      var raised := Write(paid, SubscribedSet(email, true));
      InvitingRecords(raised, Some(OperationKey(Recovery(invoice.value))), Some(customer), email,
                      TierAt(raised.rows, email), false, ans);
    }
  }

  /** A renewal's row is for its customer and payer, at the tier their address stands at, and settles nothing more. */
  lemma RenewalKeepsTheTier(store: Store, invoice: Option<string>, customer: string, own: Option<Address>, first: bool,
                            ans: Answers, payer: Address)
    requires PayerOf(store, InvoicePaid(invoice, Some(customer), own, first), ans) == Some(payer)
    ensures forall effect | effect in EventPlan(store, InvoicePaid(invoice, Some(customer), own, first), ans) ::
              RowOf(effect, Some(customer), payer, TierAt(store.rows, payer), ans.now, false)
  {
    var settling := PaymentStateSet(payer, false);
    TierFlagged(store, settling, payer);
    RenewingRecords(Write(store, settling), invoice, customer, payer, ans);
    hide Renewing, Resolve, SnapshotOf, Write, MappedEmail, PayerEmail, TierAt;
  }

  /** A member who paid, is under no tag that settles it, and has no record left. */
  predicate DueBack(store: Store, event: Event, ans: Answers) {
    var person := PersonOf(store, event, ans);
    IsTimeBoxed(TagOf(store, person)) && |person.records| == 0
  }

  lemma RenewingRestores(paid: Store, invoice: Option<string>, customer: string, email: Address, ans: Answers,
                         person: Person)
    requires person == Resolve(SnapshotOf(paid, ans), paid.rows, Some(customer), Some(email))
    ensures var due := IsTimeBoxed(TagOf(paid, person)) && |person.records| == 0;
            var plan := Renewing(paid, invoice, customer, email, ans);
            && ((exists effect :: effect in plan && effect.RowWritten?) <==> due && invoice.Some?)
            && (Died in plan <==> due && invoice.None?)
  {
    if Restores(paid, invoice, customer, email, ans) {
      RestoringShape(paid, invoice, customer, email, ans);
      var raised, key := Write(paid, SubscribedSet(email, true)), Some(OperationKey(Recovery(invoice.value)));
      var tier := TierAt(raised.rows, email);
      InvitingWritesTheRow(raised, key, Some(customer), email, tier, false, ans);
      InvitingNeverDies(raised, key, Some(customer), email, tier, false, ans);
      var row := RowWritten(Some(customer), email, IssuedCode(raised, key, ans), tier, ans.now, false);
      var plan := Renewing(paid, invoice, customer, email, ans);
      hide Renewing, Inviting, IssuedCode, Write, TierAt, Resolve, SnapshotOf, Governing;
      assert row in plan && row.RowWritten?;
    } else {
      hide Resolve, SnapshotOf, Governing, Inviting, TierAt, Write;
    }
  }

  lemma InvitingNeverDies(store: Store, key: Option<string>, customer: Option<string>, email: Address, tier: Tier,
                          settles: bool, ans: Answers)
    ensures Died !in Inviting(store, key, customer, email, tier, settles, ans)
  {
    hide IssuedCode, AlreadyMailed;
  }

  /**
   * A renewal puts a new invite on record exactly when its payer is due back and the invoice has a name to
   * issue it under; without that name the delivery fails, so that it is tried again.
   */
  lemma RenewalRestoresExactly(store: Store, invoice: Option<string>, customer: string, own: Option<Address>,
                               ans: Answers, payer: Address)
    requires PayerOf(store, InvoicePaid(invoice, Some(customer), own, false), ans) == Some(payer)
    ensures var event := InvoicePaid(invoice, Some(customer), own, false);
            var plan := EventPlan(store, event, ans);
            && ((exists effect :: effect in plan && effect.RowWritten?)
                <==> DueBack(store, event, ans) && invoice.Some?)
            && (Died in plan <==> DueBack(store, event, ans) && invoice.None?)
  {
    var event, settle := InvoicePaid(invoice, Some(customer), own, false), PaymentStateSet(payer, false);
    var paid, person := Write(store, settle), PersonOf(store, event, ans);
    FlagsKeepIdentity(store, settle, ans, Some(customer), Some(payer));
    RenewalShape(store, invoice, customer, own, payer, ans);
    RenewingRestores(paid, invoice, customer, payer, ans, person);
    hide PayerOf, EventPlan, Renewing, Resolve, SnapshotOf, Governing, Write, PayerAsks;
  }

  /** Nothing but a checkout or a paid invoice grants anything. */
  lemma OthersGrantNothing(store: Store, event: Event, ans: Answers)
    requires !event.CheckoutCompleted? && !event.InvoicePaid?
    ensures forall effect | effect in EventPlan(store, event, ans) :: !Grants(effect)
  {
    match event
    case PaymentFailed(customer, own) =>
      FailureGrantsNothing(store, customer, own, ans);
    case SubscriptionUpdated(customer, own, status) =>
      hide MappedEmail;
    case SubscriptionDeleted(customer, own) =>
      CancellationGrantsNothing(store, customer, own, ans);
    case OtherEvent =>
  }

  lemma FailureGrantsNothing(store: Store, customer: Option<string>, own: Option<Address>, ans: Answers)
    ensures forall effect | effect in PaymentFailedPlan(store, customer, own, ans) :: !Grants(effect)
  {
    hide PayerEmail, MappedEmail, Retiring, RetirementOf, Siblings, LiveSibling;
    var email := PayerEmail(store.rows, own, customer, ans);
    if email.Some? && customer.Some? {
      var sibling := LiveSibling(store.rows, email.value, customer.value, ans);
      if sibling.Some? {
        RetiringMeans(ans, sibling.value);
        hide DunningOthers;
      }
    }
  }

  lemma CancellationGrantsNothing(store: Store, customer: Option<string>, own: Option<Address>, ans: Answers)
    ensures forall effect | effect in DeletedPlan(store, customer, own, ans) :: !Grants(effect)
  {
    hide Resolve, SnapshotOf, TagOf, LiveSibling, Siblings, PayerEmail, MappedEmail, Write, SubscribedElsewhere;
  }

  // ---------------------------------------------------------------- every run

  /** The step that put an entry into the log: its payer and its key are the entry's. */
  ghost predicate SentBy(w: World, steps: seq<Step>, n: nat, i: nat)
    requires i < |Run(w, steps).log|
  {
    && n < |steps| && steps[n].Delivered?
    && |Run(w, steps[..n]).log| <= i < |Run(w, steps[..n + 1]).log|
    && Sends(Run(w, steps).log[i], EventKey(steps[n].event),
             PayerOf(Run(w, steps[..n]).store, steps[n].event, steps[n].answers))
  }

  lemma DeliveryWritesToThePayer(w: World, step: Step, i: nat)
    requires step.Delivered? && |w.log| <= i < |Deliver(w, step).log|
    ensures Sends(Deliver(w, step).log[i], EventKey(step.event), PayerOf(w.store, step.event, step.answers))
  {
    DeliveryAddsOnlyItsPlan(w, step.id, step.event, step.answers, step.fuel, i);
    PlansWriteToThePayer(w.store, step.event, step.answers);
    hide Deliver, EventPlan, PayerOf, EventKey;
  }

  lemma LogsGrow(w: World, step: Step)
    ensures w.log <= Deliver(w, step).log
  {
    if step.Delivered? {
      var live := w.(fuel := step.fuel, dead := false);
      hide HandlePlan;
      ExecuteIsPrefix(live, HandlePlan(w.store, step.id, step.event, step.answers));
    }
  }

  /** In every run, whatever was written to anybody was written by a delivery whose payer they are. */
  lemma {:induction false} RunsWriteToThePayer(w: World, steps: seq<Step>, i: nat) returns (n: nat)
    requires |w.log| <= i < |Run(w, steps).log|
    ensures SentBy(w, steps, n, i)
    decreases |steps|
  {
    var last := |steps| - 1;
    var front, step := steps[..last], steps[last];
    var before := Run(w, front);
    LogsGrow(before, step);
    assert Run(w, steps) == Deliver(before, step) && steps[..last + 1] == steps;
    hide *;
    if i < |before.log| {
      n := RunsWriteToThePayer(w, front, i);
      SentEarlier(w, steps, n, i);
    } else {
      n := last;
      OnlyDeliveriesWrite(before, step);
      DeliveryWritesToThePayer(before, step, i);
      SentLast(w, steps, i);
    }
  }

  lemma SentLast(w: World, steps: seq<Step>, i: nat)
    requires |steps| > 0 && steps[|steps| - 1].Delivered?
    requires var before, step := Run(w, steps[..|steps| - 1]), steps[|steps| - 1];
             && |before.log| <= i < |Run(w, steps).log| && Run(w, steps) == Deliver(before, step)
             && Sends(Deliver(before, step).log[i], EventKey(step.event),
                      PayerOf(before.store, step.event, step.answers))
    ensures SentBy(w, steps, |steps| - 1, i)
  {
    hide Run, Deliver, PayerOf, EventKey, Sends;
    assert steps[..|steps|] == steps;
  }

  lemma SentEarlier(w: World, steps: seq<Step>, n: nat, i: nat)
    requires |steps| > 0 && i < |Run(w, steps[..|steps| - 1]).log| && SentBy(w, steps[..|steps| - 1], n, i)
    requires Run(w, steps[..|steps| - 1]).log <= Run(w, steps).log
    ensures SentBy(w, steps, n, i)
  {
    hide Run, PayerOf, EventKey, Sends;
    var front := steps[..|steps| - 1];
    assert front[..n] == steps[..n] && front[..n + 1] == steps[..n + 1];
    assert Run(w, steps).log[i] == Run(w, front).log[i];
  }

  lemma OnlyDeliveriesWrite(w: World, step: Step)
    ensures !step.Delivered? ==> Deliver(w, step).log == w.log
  {
  }
}
