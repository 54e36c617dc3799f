/**
 * The bridge's own tables, and everything a delivery can do: each effect is one call to a service
 * or one committed write, and `Write` is what it leaves in the tables.
 */
module BridgeStore {
  import opened Options
  import opened Identity
  import opened Standing
  import opened Text

  datatype Tier = Bronze | Silver | Gold | Youth

  // ---------------------------------------------------------------- issuance keys

  datatype Operation = Checkout(id: string) | Recovery(id: string)

  const RECOVERY_PREFIX := "invoice:"

  function OperationKey(operation: Operation): string {
    match operation
    case Checkout(id) => id
    case Recovery(id) => RECOVERY_PREFIX + id
  }

  /** Two operations share a binding exactly when a session is named like a prefixed invoice. */
  lemma KeysCollide(a: Operation, b: Operation)
    ensures OperationKey(a) == OperationKey(b)
            <==> a == b
                 || (a.Checkout? && b.Recovery? && a.id == RECOVERY_PREFIX + b.id)
                 || (a.Recovery? && b.Checkout? && b.id == RECOVERY_PREFIX + a.id)
  {
    if a.Recovery? && b.Recovery? && OperationKey(a) == OperationKey(b) {
      assert OperationKey(a)[8..] == a.id && OperationKey(b)[8..] == b.id;
    }
  }

  // ---------------------------------------------------------------- tables

  /** One customer_map row; rows keep the order their keys were first inserted in. */
  datatype Row = Row(
    customer: string, email: Address, code: Option<string>, tier: Option<Tier>,
    invitedAt: Option<int>, subscribed: bool, pastDue: bool)

  datatype Issuance = Issuance(code: string, emailed: bool)

  datatype Store = Store(
    rows: seq<Row>,
    bindings: map<string, Issuance>,
    processed: set<string>,
    tags: map<Address, Tag>,
    links: map<Address, Address>)

  const ADMIN_PREFIX := "admin:"

  // ---------------------------------------------------------------- effects

  datatype Port = Wizarr | Libraries | StripeCustomer | StripeListing | StripeSubscriptions | StripeInvoices

  datatype Effect =
    | Asked(port: Port)
    | Minted(key: Option<string>, code: string)
    | Bound(boundKey: string, code: string)
    | RowWritten(customer: Option<string>, email: Address, code: string, tier: Tier, at: int, settles: bool)
    | Mailed(key: Option<string>, to: Address, code: string)
    | MarkedMailed(markedKey: string)
    | PaymentStateSet(email: Address, pastDue: bool)
    | SubscribedSet(email: Address, value: bool)
    | Disabled(id: int)
    | Stamped(id: int, expires: int)
    | Cancelled(subscription: string, of: string)
    | Voided(invoice: string)
    | Alerted
    | MemberNotified(to: Address)
    | Processed(event: string)
    | Died

  // ---------------------------------------------------------------- writes

  function Updated(rows: seq<Row>, which: Row -> bool, change: Row -> Row): (updated: seq<Row>)
    ensures |updated| == |rows|
    ensures forall i | 0 <= i < |rows| :: updated[i] == if which(rows[i]) then change(rows[i]) else rows[i]
  {
    seq(|rows|, i requires 0 <= i < |rows| => if which(rows[i]) then change(rows[i]) else rows[i])
  }

  /** `upsertPending`: the admin placeholder goes, the customer's row is written, and it is subscribed. */
  function UpsertPending(rows: seq<Row>, customer: string, email: Address, code: string, tier: Tier,
                         at: int): seq<Row> {
    var kept := Filter((row: Row) => row.customer != ADMIN_PREFIX + email, rows);
    var written := (row: Row) =>
      row.(email := email, code := Some(code), tier := Some(tier), invitedAt := Some(at), subscribed := true);
    if exists row :: row in kept && row.customer == customer then
      Updated(kept, (row: Row) => row.customer == customer, written)
    else
      kept + [Row(customer, email, Some(code), Some(tier), Some(at), true, false)]
  }

  /** `upsertPendingByEmail`: every row of the address, or a placeholder when it has none. */
  function UpsertByEmail(rows: seq<Row>, email: Address, code: string, tier: Tier, at: int): seq<Row> {
    if exists row :: row in rows && row.email == email then
      Updated(rows, (row: Row) => row.email == email,
              (row: Row) => row.(code := Some(code), tier := Some(tier), invitedAt := Some(at)))
    else
      rows + [Row(ADMIN_PREFIX + email, email, Some(code), Some(tier), Some(at), false, false)]
  }

  function WithPaymentState(rows: seq<Row>, email: Address, pastDue: bool): seq<Row> {
    Updated(rows, (row: Row) => row.email == email, (row: Row) => row.(pastDue := pastDue))
  }

  function WithSubscribed(rows: seq<Row>, email: Address, value: bool): seq<Row> {
    Updated(rows, (row: Row) => row.email == email, (row: Row) => row.(subscribed := value))
  }

  function Write(store: Store, effect: Effect): Store {
    match effect
    case Bound(key, code) =>
      if key in store.bindings then store else store.(bindings := store.bindings[key := Issuance(code, false)])
    case MarkedMailed(key) =>
      if key in store.bindings
      then store.(bindings := store.bindings[key := store.bindings[key].(emailed := true)]) else store
    case RowWritten(customer, email, code, tier, at, settles) =>
      var rows := if customer.Some? then UpsertPending(store.rows, customer.value, email, code, tier, at)
                  else UpsertByEmail(store.rows, email, code, tier, at);
      store.(rows := if settles then WithPaymentState(rows, email, false) else rows)
    case PaymentStateSet(email, pastDue) => store.(rows := WithPaymentState(store.rows, email, pastDue))
    case SubscribedSet(email, value) => store.(rows := WithSubscribed(store.rows, email, value))
    case Processed(event) => store.(processed := store.processed + {event})
    case _ => store
  }

  // ---------------------------------------------------------------- reads

  function Last(rows: seq<Row>, which: Row -> bool): (found: Option<Row>)
    ensures found.Some? ==> found.value in rows && which(found.value)
    ensures found.None? ==> forall row | row in rows :: !which(row)
  {
    if |rows| == 0 then None
    else if which(rows[|rows| - 1]) then Some(rows[|rows| - 1])
    else
      assert rows == rows[..|rows| - 1] + [rows[|rows| - 1]];
      Last(rows[..|rows| - 1], which)
  }

  predicate IsStripeCustomer(customer: string) {
    StartsWith(customer, "cus_")
  }

  /** The row that answers for an address: the newest real Stripe customer, else the newest row. */
  function CustomerRow(rows: seq<Row>, email: Address): Option<Row> {
    var paying := Last(rows, (row: Row) => row.email == email && IsStripeCustomer(row.customer));
    if paying.Some? then paying else Last(rows, (row: Row) => row.email == email)
  }

  function Mapping(rows: seq<Row>, customer: string): Option<Row> {
    First((row: Row) => row.customer == customer, rows)
  }

  /** The real Stripe customers recorded for an address. */
  function CustomerIds(rows: seq<Row>, email: Address): seq<string> {
    var at := Filter((row: Row) => row.email == email && !StartsWith(row.customer, ADMIN_PREFIX), rows);
    seq(|at|, i requires 0 <= i < |at| => at[i].customer)
  }

  predicate Subscribed(rows: seq<Row>, email: Address) {
    CustomerRow(rows, email).Some? && CustomerRow(rows, email).value.subscribed
  }

  function Emails(rows: seq<Row>): set<Address> {
    set row | row in rows :: row.email
  }

  /** Each paying address and the invite it was last issued. */
  function Invites(rows: seq<Row>): map<Address, string> {
    map email | email in Emails(rows)
                && CustomerRow(rows, email).Some?
                && CustomerRow(rows, email).value.code.Some?
                && CustomerRow(rows, email).value.code.value != ""
      :: CustomerRow(rows, email).value.code.value
  }
}
