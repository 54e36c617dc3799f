/**
 * What each Stripe event makes the bridge do, as the ordered list of its effects given the tables it
 * starts from and what the services answer. A delivery performs a prefix of its plan (module Delivery).
 */
module WebhookPlans {
  import opened Options
  import opened Identity
  import opened Standing
  import opened BridgeStore

  datatype Subscription = Subscription(id: string, customer: string, status: string)

  datatype Settings = Settings(accessDays: nat, billingPortal: bool)

  /** What the services would answer during one delivery; any call may still fail instead. */
  datatype Answers = Answers(
    settings: Settings,
    now: int,
    users: seq<Record>,
    invitations: seq<Invitation>,
    covered: set<string>,
    code: string,
    allSubscriptions: seq<Subscription>,
    customersAt: seq<string>,
    subscriptionsOf: map<string, seq<Subscription>>,
    invoicesOf: map<string, seq<string>>,
    stripeEmail: Option<Address>,
    retirementThrowsAt: Option<nat>)

  /** A Stripe event as its fields are read: one that is missing or empty is None. */
  datatype Event =
    | CheckoutCompleted(session: Option<string>, customer: Option<string>, email: Option<Address>, tier: Tier)
    | InvoicePaid(invoice: Option<string>, customer: Option<string>, email: Option<Address>, first: bool)
    | PaymentFailed(customer: Option<string>, email: Option<Address>)
    | SubscriptionUpdated(customer: Option<string>, email: Option<Address>, status: string)
    | SubscriptionDeleted(customer: Option<string>, email: Option<Address>)
    | OtherEvent

  type Effects = seq<Effect>

  const DAY_MILLIS := 86_400_000

  // ---------------------------------------------------------------- subscription statuses

  datatype StatusRule = StatusRule(live: bool, rank: nat, pastDue: bool)

  function RuleOf(status: string): Option<StatusRule> {
    if status == "active" || status == "trialing" then Some(StatusRule(true, 2, false))
    else if status == "past_due" || status == "unpaid" then Some(StatusRule(false, 1, true))
    else None
  }

  predicate IsLive(status: string) { RuleOf(status).Some? && RuleOf(status).value.live }
  predicate IsDunning(status: string) { RuleOf(status).Some? && RuleOf(status).value.pastDue }
  function RankOf(status: string): nat { if RuleOf(status).Some? then RuleOf(status).value.rank else 0 }

  /** A customer's best status by rank, the earlier of two equals; empty when none ranks. */
  function BestStatus(subscriptions: seq<Subscription>, customer: string): string {
    if |subscriptions| == 0 then "" else
    var current := BestStatus(subscriptions[..|subscriptions| - 1], customer);
    var last := subscriptions[|subscriptions| - 1];
    if last.customer == customer && RankOf(last.status) > RankOf(current) then last.status else current
  }

  /** The best status is live exactly when some subscription of the customer is. */
  lemma {:induction false} LiveMeans(subscriptions: seq<Subscription>, customer: string)
    ensures IsLive(BestStatus(subscriptions, customer))
            <==> exists s :: s in subscriptions && s.customer == customer && IsLive(s.status)
    decreases |subscriptions|
  {
    if |subscriptions| > 0 {
      var front, last := subscriptions[..|subscriptions| - 1], subscriptions[|subscriptions| - 1];
      assert subscriptions == front + [last];
      LiveMeans(front, customer);
      assert last in subscriptions && forall s :: s in front ==> s in subscriptions;
    }
  }

  // ---------------------------------------------------------------- who the event is about

  function NonEmpty(text: Option<string>): Option<string> {
    if text == Some("") then None else text
  }

  function MappedEmail(rows: seq<Row>, customer: string): Option<Address> {
    var row := Mapping(rows, customer);
    if row.Some? then NonEmpty(Some(row.value.email)) else None
  }

  /** `payerEmail`: the object's own address, the one recorded for the customer, then Stripe's. */
  function PayerEmail(rows: seq<Row>, own: Option<Address>, customer: Option<string>, ans: Answers): Option<Address> {
    if own.Some? || customer.None? then own
    else if MappedEmail(rows, customer.value).Some? then MappedEmail(rows, customer.value)
    else NonEmpty(ans.stripeEmail)
  }

  function PayerAsks(rows: seq<Row>, own: Option<Address>, customer: Option<string>): Effects {
    if own.None? && customer.Some? && MappedEmail(rows, customer.value).None? then [Asked(StripeCustomer)] else []
  }

  function SnapshotOf(store: Store, ans: Answers): Snapshot {
    Snapshot(ans.users, ans.invitations, store.links, Invites(store.rows))
  }

  function MappedCode(rows: seq<Row>, customer: Option<string>): Option<string> {
    if customer.None? || Mapping(rows, customer.value).None? then None else Mapping(rows, customer.value).value.code
  }

  /** `resolveIdentity`, from a snapshot already taken and the invite stored against the customer now. */
  function Resolve(snapshot: Snapshot, rows: seq<Row>, customer: Option<string>, email: Option<Address>): Person {
    IdentityFor(snapshot, email, MappedCode(rows, customer))
  }

  function TagOf(store: Store, person: Person): Option<Tag> {
    Governing(store.tags, person.addresses)
  }

  // ---------------------------------------------------------------- parts the handlers share

  /** The tables after some effects. */
  function After(store: Store, effects: Effects): Store
    decreases |effects|
  {
    if |effects| == 0 then store else After(Write(store, effects[0]), effects[1..])
  }

  function Disabling(records: seq<Record>): Effects {
    seq(|records|, i requires 0 <= i < |records| => Disabled(records[i].id))
  }

  function AccessExpiry(ans: Answers): int {
    ans.now + ans.settings.accessDays * DAY_MILLIS
  }

  function Stamping(records: seq<Record>, ans: Answers): Effects {
    seq(|records|, i requires 0 <= i < |records| => Stamped(records[i].id, AccessExpiry(ans)))
  }

  function IssuedCode(store: Store, key: Option<string>, ans: Answers): string {
    if key.Some? && key.value in store.bindings then store.bindings[key.value].code else ans.code
  }

  /** `issueInvite`: a recorded operation reuses its invite; a new one is minted, then bound. */
  function Issuing(store: Store, key: Option<string>, customer: Option<string>, email: Address, tier: Tier,
                   settles: bool, ans: Answers): Effects {
    (if key.Some? && key.value in store.bindings then []
     else [Minted(key, ans.code)] + if key.Some? then [Bound(key.value, ans.code)] else [])
    + [RowWritten(customer, email, IssuedCode(store, key, ans), tier, ans.now, settles)]
  }

  predicate AlreadyMailed(store: Store, key: Option<string>) {
    key.Some? && key.value in store.bindings && store.bindings[key.value].emailed
  }

  /** `deliverInvite`, and what follows only when the link went out: the operator's alert. */
  function Delivering(store: Store, key: Option<string>, email: Address, code: string): Effects {
    if AlreadyMailed(store, key) then []
    else [Mailed(key, email, code)] + (if key.Some? then [MarkedMailed(key.value)] else []) + [Alerted]
  }

  function Inviting(store: Store, key: Option<string>, customer: Option<string>, email: Address, tier: Tier,
                    settles: bool, ans: Answers): Effects {
    Issuing(store, key, customer, email, tier, settles, ans)
    + Delivering(store, key, email, IssuedCode(store, key, ans))
  }

  /** The first live customer recorded at an address other than one, asked of Stripe only if there is one. */
  function SiblingAsks(rows: seq<Row>, email: Address, dead: string): Effects {
    if |Siblings(rows, email, dead)| > 0 then [Asked(StripeSubscriptions)] else []
  }

  function Siblings(rows: seq<Row>, email: Address, dead: string): seq<string> {
    Filter((customer: string) => customer != dead, CustomerIds(rows, email))
  }

  function LiveSibling(rows: seq<Row>, email: Address, dead: string, ans: Answers): Option<string> {
    First((customer: string) => IsLive(BestStatus(ans.allSubscriptions, customer)), Siblings(rows, email, dead))
  }

  // ---------------------------------------------------------------- retiring duplicates

  function SubscriptionsFor(ans: Answers, customers: seq<string>): seq<Subscription> {
    if |customers| == 0 then []
    else (if customers[0] in ans.subscriptionsOf then ans.subscriptionsOf[customers[0]] else [])
         + SubscriptionsFor(ans, customers[1..])
  }

  function DunningOthers(ans: Answers, payingUnder: string): seq<Subscription> {
    Filter((s: Subscription) => IsDunning(s.status),
           SubscriptionsFor(ans, Filter((c: string) => c != payingUnder, ans.customersAt)))
  }

  function InvoicesOf(ans: Answers, subscription: string): seq<string> {
    if subscription in ans.invoicesOf then ans.invoicesOf[subscription] else []
  }

  function Voiding(invoices: seq<string>): Effects {
    seq(|invoices|, i requires 0 <= i < |invoices| => Voided(invoices[i]))
  }

  function CancellingOne(ans: Answers, s: Subscription): Effects {
    [Cancelled(s.id, s.customer), Asked(StripeInvoices)] + Voiding(InvoicesOf(ans, s.id))
  }

  /** Each dunning subscription is cancelled before its open invoices are voided. */
  function Cancelling(ans: Answers, dunning: seq<Subscription>): Effects {
    if |dunning| == 0 then []
    else CancellingOne(ans, dunning[0]) + Cancelling(ans, dunning[1..])
  }

  function Listing(ans: Answers, payingUnder: string): Effects {
    [Asked(StripeListing)]
    + seq(|Filter((c: string) => c != payingUnder, ans.customersAt)|, i => Asked(StripeSubscriptions))
  }

  function CancelAndVoid(ans: Answers, payingUnder: string): Effects {
    Listing(ans, payingUnder) + Cancelling(ans, DunningOthers(ans, payingUnder))
  }

  datatype Retirement = Retired | NoneToRetire | Failed

  /** The call at that place throws, or the one before it took effect and its answer was lost. */
  predicate RetirementThrows(ans: Answers, payingUnder: string) {
    ans.retirementThrowsAt.Some? && ans.retirementThrowsAt.value <= |CancelAndVoid(ans, payingUnder)|
  }

  function RetirementOf(ans: Answers, payingUnder: string): Retirement {
    if RetirementThrows(ans, payingUnder) then Failed
    else if |DunningOthers(ans, payingUnder)| == 0 then NoneToRetire
    else Retired
  }

  /** `retireDuplicates`: a Stripe call that throws ends the retirement, not the delivery. */
  function Retiring(ans: Answers, payingUnder: string): Effects {
    match RetirementOf(ans, payingUnder)
    case Failed => CancelAndVoid(ans, payingUnder)[..ans.retirementThrowsAt.value]
    case NoneToRetire => CancelAndVoid(ans, payingUnder)
    case Retired => CancelAndVoid(ans, payingUnder) + [Alerted]
  }

  // ---------------------------------------------------------------- the five handlers

  function KeyOf(operation: Option<Operation>): Option<string> {
    if operation.None? then None else Some(OperationKey(operation.value))
  }

  function SessionKey(session: Option<string>): Option<string> {
    KeyOf(if session.None? then None else Some(Checkout(session.value)))
  }

  function StaleRecords(records: seq<Record>, covered: set<string>): seq<Record> {
    if forall record | record in records :: record.server.Some? && record.server.value in covered then [] else records
  }

  /** `resetExistingRecords`: every record goes when one is left out of the tier, or cannot be judged. */
  function Resetting(person: Person, ans: Answers): Effects {
    var stale := if person.via == ViaEmail then StaleRecords(person.records, ans.covered) else person.records;
    var gone := set record | record in stale :: record.id;
    Disabling(stale) + Stamping(Filter((record: Record) => record.id !in gone, person.records), ans)
  }

  /** Retiring the other subscriptions at the address, and the alert when Stripe would not. */
  function CheckoutRetiring(customer: Option<string>, ans: Answers): Effects {
    if customer.None? then []
    else Retiring(ans, customer.value) + if RetirementOf(ans, customer.value) == Failed then [Alerted] else []
  }

  /** Who the payer is, as the checkout reads it before anything is minted or stored. */
  function CheckoutPerson(store: Store, customer: Option<string>, email: Address, ans: Answers): Person {
    Resolve(SnapshotOf(store, ans), store.rows, customer, Some(email))
  }

  /** The reset resolves the person again, now through the invite just recorded. */
  function CheckoutResetting(store: Store, issuing: Effects, customer: Option<string>, email: Address,
                             ans: Answers): Effects {
    if HoldsStandingGrant(TagOf(store, CheckoutPerson(store, customer, email, ans))) then []
    else Resetting(Resolve(SnapshotOf(store, ans), After(store, issuing).rows, customer, Some(email)), ans)
  }

  /** What a checkout nobody is banned from does once its scope is known. */
  function FulfilPlan(store: Store, session: Option<string>, customer: Option<string>, email: Address, tier: Tier,
                      ans: Answers): Effects {
    var key := SessionKey(session);
    Inviting(store, key, customer, email, tier, true, ans)
    + (CheckoutRetiring(customer, ans)
       + CheckoutResetting(store, Issuing(store, key, customer, email, tier, true, ans), customer, email, ans))
  }

  function CheckoutPlan(store: Store, session: Option<string>, customer: Option<string>, email: Option<Address>,
                        tier: Tier, ans: Answers): Effects {
    if email.None? then [] else
    if IsBanned(TagOf(store, CheckoutPerson(store, customer, email.value, ans))) then [Asked(Wizarr), Alerted] else
    [Asked(Wizarr), Asked(Libraries)] + FulfilPlan(store, session, customer, email.value, tier, ans)
  }

  function TierAt(rows: seq<Row>, email: Address): Tier {
    var row := CustomerRow(rows, email);
    if row.Some? && row.value.tier.Some? then row.value.tier.value else Bronze
  }

  /** `restoreAccess`: a paid-up member with no records is invited again, once per invoice. */
  function Restoring(store: Store, invoice: Option<string>, customer: Option<string>, email: Address,
                     ans: Answers): Effects {
    if invoice.None? then [Died] else
    [Asked(Libraries)]
    + Inviting(store, KeyOf(Some(Recovery(invoice.value))), customer, email, TierAt(store.rows, email), false, ans)
  }

  /** What a paid renewal does once its payer's standing is known. */
  function Renewing(store: Store, invoice: Option<string>, customer: string, email: Address, ans: Answers): Effects {
    var person := Resolve(SnapshotOf(store, ans), store.rows, Some(customer), Some(email));
    var tag := TagOf(store, person);
    if IsBanned(tag) then [] else
    [SubscribedSet(email, true)]
    + if HoldsStandingGrant(tag) then []
      else if |person.records| > 0 then Stamping(person.records, ans)
      else Restoring(Write(store, SubscribedSet(email, true)), invoice, Some(customer), email, ans)
  }

  /** What a settled renewal does next, for a payer known or not. */
  function RenewedRest(store: Store, invoice: Option<string>, customer: string, email: Option<Address>,
                       ans: Answers): Effects {
    [Asked(Wizarr)] +
    if email.None? then Stamping(Resolve(SnapshotOf(store, ans), store.rows, Some(customer), None).records, ans)
    else Renewing(store, invoice, customer, email.value, ans)
  }

  function InvoicePaidRest(store: Store, invoice: Option<string>, customer: string, email: Option<Address>, first: bool,
                           ans: Answers): Effects {
    var settling := if email.Some? then [PaymentStateSet(email.value, false)] else [];
    var settled := if email.Some? then Write(store, PaymentStateSet(email.value, false)) else store;
    settling + if first then [] else RenewedRest(settled, invoice, customer, email, ans)
  }

  function InvoicePaidPlan(store: Store, invoice: Option<string>, customer: Option<string>, own: Option<Address>,
                           first: bool, ans: Answers): Effects {
    if customer.None? then [Died] else
    PayerAsks(store.rows, own, customer)
    + InvoicePaidRest(store, invoice, customer.value, PayerEmail(store.rows, own, customer, ans), first, ans)
  }

  function PaymentFailedPlan(store: Store, customer: Option<string>, own: Option<Address>, ans: Answers): Effects {
    var email := PayerEmail(store.rows, own, customer, ans);
    PayerAsks(store.rows, own, customer) +
    if email.None? then [] else
    var asks := if customer.Some? then SiblingAsks(store.rows, email.value, customer.value) else [];
    var sibling := if customer.Some? then LiveSibling(store.rows, email.value, customer.value, ans) else None;
    asks +
    if sibling.Some? then
      Retiring(ans, sibling.value) + if RetirementOf(ans, sibling.value) != Retired then [Alerted] else []
    else
      [PaymentStateSet(email.value, true), Asked(Wizarr), Alerted]
      + if ans.settings.billingPortal then [MemberNotified(email.value)] else []
  }

  function UpdatedPlan(store: Store, customer: Option<string>, own: Option<Address>, status: string,
                       ans: Answers): Effects {
    var email := PayerEmail(store.rows, own, customer, ans);
    PayerAsks(store.rows, own, customer) +
    if email.Some? && RuleOf(status).Some? then [PaymentStateSet(email.value, RuleOf(status).value.pastDue)] else []
  }

  /** Another address of the person that the tables say is still paying. */
  predicate SubscribedElsewhere(rows: seq<Row>, email: Address, person: Person) {
    exists a :: a in person.addresses && a != email && Subscribed(rows, a)
  }

  /** What a cancellation does once the payer's own flags are written. */
  function Cutting(store: Store, customer: string, email: Address, sibling: Option<string>, ans: Answers): Effects {
    var person := Resolve(SnapshotOf(store, ans), store.rows, Some(customer), Some(email));
    if HoldsStandingGrant(TagOf(store, person)) || sibling.Some? || SubscribedElsewhere(store.rows, email, person)
      then []
    else Disabling(person.records)
  }

  /** A cancellation nobody can be named for still disables what the customer's invite led to. */
  function UnknownRest(store: Store, customer: string, ans: Answers): Effects {
    [Asked(Wizarr)] + Disabling(Resolve(SnapshotOf(store, ans), store.rows, Some(customer), None).records)
  }

  function DeletedRest(store: Store, customer: string, email: Address, ans: Answers): Effects {
    var sibling := LiveSibling(store.rows, email, customer, ans);
    var flag := if sibling.Some? then PaymentStateSet(email, false) else SubscribedSet(email, false);
    SiblingAsks(store.rows, email, customer)
    + [flag, Asked(Wizarr)]
    + Cutting(Write(store, flag), customer, email, sibling, ans)
  }

  function DeletedPlan(store: Store, customer: Option<string>, own: Option<Address>, ans: Answers): Effects {
    if customer.None? then [Died] else
    var email := PayerEmail(store.rows, own, customer, ans);
    PayerAsks(store.rows, own, customer)
    + if email.None? then UnknownRest(store, customer.value, ans)
      else DeletedRest(store, customer.value, email.value, ans)
  }

  function EventPlan(store: Store, event: Event, ans: Answers): Effects {
    match event
    case CheckoutCompleted(session, customer, email, tier) => CheckoutPlan(store, session, customer, email, tier, ans)
    case InvoicePaid(invoice, customer, email, first) => InvoicePaidPlan(store, invoice, customer, email, first, ans)
    case PaymentFailed(customer, email) => PaymentFailedPlan(store, customer, email, ans)
    case SubscriptionUpdated(customer, email, status) => UpdatedPlan(store, customer, email, status, ans)
    case SubscriptionDeleted(customer, email) => DeletedPlan(store, customer, email, ans)
    case OtherEvent => []
  }

  /** `handleEvent`: an event already marked does nothing; any other is marked once its handler is through. */
  function HandlePlan(store: Store, id: Option<string>, event: Event, ans: Answers): Effects {
    if id.Some? && id.value in store.processed then []
    else EventPlan(store, event, ans) + if id.Some? then [Processed(id.value)] else []
  }
}
