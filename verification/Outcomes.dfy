/** What an event that was carried through has done: the rows it wrote and every record it owed a change. */
module Outcomes {
  import opened Options
  import opened Identity
  import opened Standing
  import opened Text
  import opened BridgeStore
  import opened WebhookPlans
  import opened Delivery
  import opened TagRules

  // ---------------------------------------------------------------- the pending row

  /** What a row says once an invite was issued to its customer. */
  predicate HoldsInvite(row: Row, customer: string, email: Address, code: string, tier: Tier, at: int, settles: bool) {
    && row.customer == customer && row.email == email && row.code == Some(code) && row.tier == Some(tier)
    && row.invitedAt == Some(at) && row.subscribed && (settles ==> !row.pastDue)
  }

  /** A row as it was, but for a dunning flag that a checkout at its address settled. */
  predicate SettledFrom(was: Row, row: Row, email: Address, settles: bool) {
    row == if settles && was.email == email then was.(pastDue := false) else was
  }

  ghost predicate CarriedOver(rows: seq<Row>, row: Row, email: Address, settles: bool) {
    exists was :: was in rows && was.customer == row.customer && SettledFrom(was, row, email, settles)
  }

  ghost predicate CarriedInto(rows: seq<Row>, was: Row, email: Address, settles: bool) {
    exists row :: row in rows && SettledFrom(was, row, email, settles)
  }

  lemma SettledRows(store: Store, customer: string, email: Address, code: string, tier: Tier, at: int, settles: bool)
    ensures var upserted := UpsertPending(store.rows, customer, email, code, tier, at);
            var rows := Write(store, RowWritten(Some(customer), email, code, tier, at, settles)).rows;
            && (forall row | row in rows :: CarriedOver(upserted, row, email, settles))
            && (forall was | was in upserted :: CarriedInto(rows, was, email, settles))
  {
    var upserted := UpsertPending(store.rows, customer, email, code, tier, at);
    var rows := Write(store, RowWritten(Some(customer), email, code, tier, at, settles)).rows;
    hide UpsertPending;
    assert |rows| == |upserted| && forall i | 0 <= i < |rows| :: SettledFrom(upserted[i], rows[i], email, settles);
    forall row | row in rows ensures CarriedOver(upserted, row, email, settles) {
      var i :| 0 <= i < |rows| && rows[i] == row;
      assert upserted[i] in upserted;
    }
    forall was | was in upserted ensures CarriedInto(rows, was, email, settles) {
      var i :| 0 <= i < |upserted| && upserted[i] == was;
      assert rows[i] in rows && SettledFrom(was, rows[i], email, settles);
    }
  }

  /**
   * Issuing leaves the invite on the customer's own row and on no other customer's; the placeholder an
   * admin's invite left for the address goes, and every other row keeps all but a settled dunning flag.
   */
  lemma RowHoldsTheInvite(store: Store, customer: string, email: Address, code: string, tier: Tier, at: int,
                          settles: bool)
    requires !StartsWith(customer, ADMIN_PREFIX)
    ensures var rows := Write(store, RowWritten(Some(customer), email, code, tier, at, settles)).rows;
            && (exists row :: row in rows && row.customer == customer)
            && (forall row | row in rows && row.customer == customer ::
                HoldsInvite(row, customer, email, code, tier, at, settles))
            && (forall row | row in rows && row.customer != customer ::
                  row.customer != "admin:" + email && CarriedOver(store.rows, row, email, settles))
            && (forall was | was in store.rows && was.customer != customer && was.customer != "admin:" + email ::
                  CarriedInto(rows, was, email, settles))
  {
    assert StartsWith(ADMIN_PREFIX + email, ADMIN_PREFIX);
    var upserted := UpsertPending(store.rows, customer, email, code, tier, at);
    UpsertedRows(store.rows, customer, email, code, tier, at);
    SettledRows(store, customer, email, code, tier, at, settles);
    hide UpsertPending, Write, HoldsInvite, CarriedOver, CarriedInto;
    var own :| own in upserted && own.customer == customer;
    OwnIsCarried(Write(store, RowWritten(Some(customer), email, code, tier, at, settles)).rows, own, email, settles);
    forall row | row in Write(store, RowWritten(Some(customer), email, code, tier, at, settles)).rows
      ensures row.customer == customer ==> HoldsInvite(row, customer, email, code, tier, at, settles)
      ensures row.customer != customer ==>
                row.customer != ADMIN_PREFIX + email && CarriedOver(store.rows, row, email, settles)
    {
      SettledRow(store.rows, upserted, row, customer, email, code, tier, at, settles);
    }
  }

  lemma OwnIsCarried(rows: seq<Row>, own: Row, email: Address, settles: bool)
    requires CarriedInto(rows, own, email, settles)
    ensures exists row :: row in rows && row.customer == own.customer
  {
    var row :| row in rows && SettledFrom(own, row, email, settles);
  }

  lemma SettledRow(rows: seq<Row>, upserted: seq<Row>, row: Row, customer: string, email: Address, code: string,
                   tier: Tier, at: int, settles: bool)
    requires CarriedOver(upserted, row, email, settles)
    requires forall was | was in upserted && was.customer == customer ::
               HoldsInvite(was, customer, email, code, tier, at, false)
    requires forall was | was in upserted && was.customer != customer ::
               was in rows && was.customer != ADMIN_PREFIX + email
    ensures row.customer == customer ==> HoldsInvite(row, customer, email, code, tier, at, settles)
    ensures row.customer != customer ==> row.customer != ADMIN_PREFIX + email && CarriedOver(rows, row, email, settles)
  {
    var was :| was in upserted && was.customer == row.customer && SettledFrom(was, row, email, settles);
  }

  lemma UpsertedRows(rows: seq<Row>, customer: string, email: Address, code: string, tier: Tier, at: int)
    requires customer != ADMIN_PREFIX + email
    ensures var upserted := UpsertPending(rows, customer, email, code, tier, at);
            && (exists row :: row in upserted && row.customer == customer)
            && (forall row | row in upserted && row.customer == customer ::
                HoldsInvite(row, customer, email, code, tier, at, false))
            && (forall row | row in upserted && row.customer != customer ::
                row in rows && row.customer != ADMIN_PREFIX + email)
            && (forall row | row in rows && row.customer != customer && row.customer != ADMIN_PREFIX + email ::
                row in upserted)
  {
    var kept := Filter((row: Row) => row.customer != ADMIN_PREFIX + email, rows);
    if exists row :: row in kept && row.customer == customer {
      UpdatedRows(kept, UpsertPending(rows, customer, email, code, tier, at), customer, email, code, tier, at);
    } else {
      var upserted := UpsertPending(rows, customer, email, code, tier, at);
      assert upserted[|kept|] in upserted;
    }
  }

  /** A row as the upsert leaves it. */
  function Written(was: Row, customer: string, email: Address, code: string, tier: Tier, at: int): Row {
    if was.customer != customer then was
    else was.(email := email, code := Some(code), tier := Some(tier), invitedAt := Some(at), subscribed := true)
  }

  lemma UpdatedRows(kept: seq<Row>, upserted: seq<Row>, customer: string, email: Address, code: string, tier: Tier,
                    at: int)
    requires exists row :: row in kept && row.customer == customer
    requires |upserted| == |kept|
    requires forall i | 0 <= i < |kept| :: upserted[i] == Written(kept[i], customer, email, code, tier, at)
    ensures exists row :: row in upserted && row.customer == customer
    ensures forall row | row in upserted && row.customer == customer ::
              HoldsInvite(row, customer, email, code, tier, at, false)
    ensures forall row: Row | row.customer != customer :: row in upserted <==> row in kept
  {
    var row :| row in kept && row.customer == customer;
    var i :| 0 <= i < |kept| && kept[i] == row;
    assert upserted[i] in upserted && upserted[i].customer == customer;
    forall was: Row | was.customer != customer ensures was in upserted <==> was in kept {
      if was in kept {
        var k :| 0 <= k < |kept| && kept[k] == was;
        assert upserted[k] == was;
      }
      if was in upserted {
        var k :| 0 <= k < |kept| && upserted[k] == was;
        assert kept[k] in kept;
      }
    }
  }

  /**
   * With no customer named, every row of the address holds the invite and keeps the rest; where there was
   * none, one is added that answers for no customer, paying or behind.
   */
  lemma AddressHoldsTheInvite(store: Store, email: Address, code: string, tier: Tier, at: int)
    ensures var rows := Write(store, RowWritten(None, email, code, tier, at, false)).rows;
            && (exists row :: row in rows && row.email == email)
            && (forall row | row in rows && row.email == email ::
                  row.code == Some(code) && row.tier == Some(tier) && row.invitedAt == Some(at))
            && (forall row | row in rows && row.email != email :: row in store.rows)
            && (forall was | was in store.rows :: Invited(was, email, code, tier, at) in rows)
            && (forall row | row in rows ::
                  || (exists was :: was in store.rows && row == Invited(was, email, code, tier, at))
                  || row == Row("admin:" + email, email, Some(code), Some(tier), Some(at), false, false))
  {
    if exists row :: row in store.rows && row.email == email {
      InvitedInPlace(store.rows, email, code, tier, at);
    } else {
      InvitedAnew(store.rows, email, code, tier, at);
      assert forall was | was in store.rows :: was == Invited(was, email, code, tier, at);
    }
    hide UpsertByEmail;
  }

  lemma InvitedAnew(rows: seq<Row>, email: Address, code: string, tier: Tier, at: int)
    requires forall row | row in rows :: row.email != email
    ensures var after := UpsertByEmail(rows, email, code, tier, at);
            && (exists row :: row in after && row.email == email)
            && (forall was | was in rows :: Invited(was, email, code, tier, at) in after)
            && (forall row | row in after && row.email == email ::
                  row.code == Some(code) && row.tier == Some(tier) && row.invitedAt == Some(at))
            && (forall row | row in after && row.email != email :: row in rows)
            && (forall row | row in after ::
                  || row in rows
                  || row == Row("admin:" + email, email, Some(code), Some(tier), Some(at), false, false))
  {
    var after := UpsertByEmail(rows, email, code, tier, at);
    assert after[|rows|] in after;
    assert forall row | row in after :: row in rows || row == after[|rows|];
  }

  /** A row of the address with the invite on it and everything else as it was; any other row as it was. */
  function Invited(was: Row, email: Address, code: string, tier: Tier, at: int): Row {
    if was.email != email then was else was.(code := Some(code), tier := Some(tier), invitedAt := Some(at))
  }

  lemma InvitedInPlace(rows: seq<Row>, email: Address, code: string, tier: Tier, at: int)
    requires exists row :: row in rows && row.email == email
    ensures var after := UpsertByEmail(rows, email, code, tier, at);
            && (exists row :: row in after && row.email == email)
            && (forall was | was in rows :: Invited(was, email, code, tier, at) in after)
            && (forall row | row in after :: exists was :: was in rows && row == Invited(was, email, code, tier, at))
  {
    var after := UpsertByEmail(rows, email, code, tier, at);
    assert |after| == |rows| && forall i | 0 <= i < |rows| :: after[i] == Invited(rows[i], email, code, tier, at);
    hide UpsertByEmail;
    var row :| row in rows && row.email == email;
    var i :| 0 <= i < |rows| && rows[i] == row;
    assert after[i] in after && after[i].email == email;
    forall was | was in rows ensures Invited(was, email, code, tier, at) in after {
      var k :| 0 <= k < |rows| && rows[k] == was;
      assert after[k] in after;
    }
    forall row | row in after ensures exists was :: was in rows && row == Invited(was, email, code, tier, at) {
      var k :| 0 <= k < |after| && after[k] == row;
      assert rows[k] in rows;
    }
  }

  // ---------------------------------------------------------------- retiring duplicates

  lemma {:induction false} EveryDunningIsCancelled(ans: Answers, dunning: seq<Subscription>, s: Subscription)
    requires s in dunning
    ensures Cancelled(s.id, s.customer) in Cancelling(ans, dunning)
    ensures forall invoice | invoice in InvoicesOf(ans, s.id) :: Voided(invoice) in Cancelling(ans, dunning)
    decreases |dunning|
  {
    var plan, rest := Cancelling(ans, dunning), Cancelling(ans, dunning[1..]);
    var voiding := Voiding(InvoicesOf(ans, dunning[0].id));
    assert plan == [Cancelled(dunning[0].id, dunning[0].customer), Asked(StripeInvoices)] + voiding + rest;
    if s == dunning[0] {
      assert plan[0] == Cancelled(s.id, s.customer);
      forall invoice | invoice in InvoicesOf(ans, s.id) ensures Voided(invoice) in plan {
        var i :| 0 <= i < |InvoicesOf(ans, s.id)| && InvoicesOf(ans, s.id)[i] == invoice;
        assert voiding[i] == Voided(invoice) && plan[i + 2] == voiding[i];
      }
    } else {
      assert s in dunning[1..];
      EveryDunningIsCancelled(ans, dunning[1..], s);
    }
  }

  /** What a checkout owes the other customers at its address, on the way to the records. */
  lemma CheckoutRetires(store: Store, session: Option<string>, customer: string, email: Address, tier: Tier,
                        ans: Answers, effect: Effect)
    requires var event := CheckoutCompleted(session, Some(customer), Some(email), tier);
             !IsBanned(TagOf(store, PersonOf(store, event, ans))) && effect in CheckoutRetiring(Some(customer), ans)
    ensures effect in EventPlan(store, CheckoutCompleted(session, Some(customer), Some(email), tier), ans)
  {
    hide Resolve, SnapshotOf, TagOf, Inviting, Issuing, CheckoutRetiring, CheckoutResetting;
  }

  /**
   * Unless Stripe throws, a checkout nobody is banned from cancels every dunning subscription of its
   * payer's other customers, and voids each invoice that one left open.
   */
  lemma CheckoutRetiresDuplicates(store: Store, session: Option<string>, customer: string, email: Address, tier: Tier,
                                  ans: Answers, s: Subscription)
    requires !IsBanned(TagOf(store,
                             PersonOf(store, CheckoutCompleted(session, Some(customer), Some(email), tier), ans)))
    requires RetirementOf(ans, customer) != Failed && s in DunningOthers(ans, customer)
    ensures var plan := EventPlan(store, CheckoutCompleted(session, Some(customer), Some(email), tier), ans);
            && Cancelled(s.id, s.customer) in plan
            && forall invoice | invoice in InvoicesOf(ans, s.id) :: Voided(invoice) in plan
  {
    EveryDunningIsCancelled(ans, DunningOthers(ans, customer), s);
    hide DunningOthers, Cancelling, Listing, EventPlan, PersonOf, TagOf;
    CheckoutRetires(store, session, customer, email, tier, ans, Cancelled(s.id, s.customer));
    forall invoice | invoice in InvoicesOf(ans, s.id)
      ensures Voided(invoice) in EventPlan(store, CheckoutCompleted(session, Some(customer), Some(email), tier), ans)
    {
      CheckoutRetires(store, session, customer, email, tier, ans, Voided(invoice));
    }
  }

  predicate Retires(effect: Effect) {
    effect.Cancelled? || effect.Voided?
  }

  /** What the operator has to hear of. */
  predicate Reported(effect: Effect) {
    Retires(effect) || effect.Mailed?
  }

  /** Whatever a plan cancels, voids or mails, an alert comes after it. */
  ghost predicate Told(plan: Effects) {
    forall i | 0 <= i < |plan| && Reported(plan[i]) :: exists j :: i < j < |plan| && plan[j].Alerted?
  }

  lemma ToldConcat(first: Effects, rest: Effects)
    requires Told(first) && Told(rest)
    ensures Told(first + rest)
  {
    var plan := first + rest;
    forall i | 0 <= i < |plan| && Reported(plan[i]) ensures exists j :: i < j < |plan| && plan[j].Alerted? {
      if i < |first| {
        var j :| i < j < |first| && first[j].Alerted?;
        assert plan[j].Alerted?;
      } else {
        assert Reported(rest[i - |first|]);
        var j :| i - |first| < j < |rest| && rest[j].Alerted?;
        assert plan[|first| + j].Alerted?;
      }
    }
  }

  lemma AlertTells(plan: Effects)
    ensures Told(plan + [Alerted])
  {
    assert (plan + [Alerted])[|plan|].Alerted?;
  }

  lemma NothingToTell(plan: Effects)
    requires forall effect | effect in plan :: !Reported(effect)
    ensures Told(plan)
  {
    assert forall i | 0 <= i < |plan| :: plan[i] in plan;
  }

  lemma RetiringIsTold(ans: Answers, payingUnder: string)
    ensures RetirementOf(ans, payingUnder) != Failed ==> Told(Retiring(ans, payingUnder))
    ensures Told(Retiring(ans, payingUnder) + [Alerted])
  {
    AlertTells(Retiring(ans, payingUnder));
    if RetirementOf(ans, payingUnder) == NoneToRetire {
      hide DunningOthers;
      NothingToTell(Retiring(ans, payingUnder));
    } else {
      hide Told;
      AlertTells(CancelAndVoid(ans, payingUnder));
    }
  }

  /** Nothing is mailed, cancelled or voided, by any event and wherever Stripe then throws, that no alert follows. */
  lemma EveryCallIsTold(store: Store, event: Event, ans: Answers)
    ensures Told(EventPlan(store, event, ans))
  {
    hide CheckoutPlan, InvoicePaidPlan, PaymentFailedPlan, DeletedPlan, Told;
    match event
    case CheckoutCompleted(session, customer, email, tier) =>
      CheckoutIsTold(store, session, customer, email, tier, ans);
    case InvoicePaid(invoice, customer, own, first) =>
      RenewalIsTold(store, invoice, customer, own, first, ans);
    case PaymentFailed(customer, own) =>
      FailureIsTold(store, customer, own, ans);
    case SubscriptionUpdated(_, _, _) =>
      NothingToTell(EventPlan(store, event, ans));
    case SubscriptionDeleted(customer, own) =>
      CancellationRetiresNothing(store, customer, own, ans);
      NothingToTell(EventPlan(store, event, ans));
    case OtherEvent =>
      NothingToTell([]);
  }

  lemma CheckoutIsTold(store: Store, session: Option<string>, customer: Option<string>, email: Option<Address>,
                       tier: Tier, ans: Answers)
    ensures Told(CheckoutPlan(store, session, customer, email, tier, ans))
  {
    hide Told, Resolve, SnapshotOf, TagOf, Inviting, Issuing, Retiring, RetirementOf, CheckoutResetting, CheckoutPerson;
    var plan := CheckoutPlan(store, session, customer, email, tier, ans);
    if email.None? || IsBanned(TagOf(store, CheckoutPerson(store, customer, email.value, ans))) {
      NothingToTell(plan);
    } else {
      var key := SessionKey(session);
      var inviting := Inviting(store, key, customer, email.value, tier, true, ans);
      var asks := [Asked(Wizarr), Asked(Libraries)];
      var front := asks + inviting;
      var resetting := CheckoutResetting(store, Issuing(store, key, customer, email.value, tier, true, ans), customer,
                                         email.value, ans);
      InvitingIsTold(store, key, customer, email.value, tier, true, ans);
      NothingToTell(asks);
      ToldConcat(asks, inviting);
      CheckoutRestIsQuiet(store, Issuing(store, key, customer, email.value, tier, true, ans), customer, email.value,
                          ans);
      NothingToTell(resetting);
      NothingToTell([]);
      if customer.Some? {
        RetiringIsTold(ans, customer.value);
        assert Retiring(ans, customer.value) + [] == Retiring(ans, customer.value);
      }
      ToldConcat(CheckoutRetiring(customer, ans), resetting);
      ToldConcat(front, CheckoutRetiring(customer, ans) + resetting);
      assert plan == front + (CheckoutRetiring(customer, ans) + resetting);
    }
  }

  lemma InvitingIsTold(store: Store, key: Option<string>, customer: Option<string>, email: Address, tier: Tier,
                       settles: bool, ans: Answers)
    ensures Told(Inviting(store, key, customer, email, tier, settles, ans))
  {
    var issuing := Issuing(store, key, customer, email, tier, settles, ans);
    var delivering := Delivering(store, key, email, IssuedCode(store, key, ans));
    assert Told(issuing) by {
      hide IssuedCode, Told;
      NothingToTell(issuing);
    }
    assert Told(delivering) by {
      hide IssuedCode, Told;
      if AlreadyMailed(store, key) {
        NothingToTell(delivering);
      } else {
        AlertTells([Mailed(key, email, IssuedCode(store, key, ans))] + if key.Some? then [MarkedMailed(key.value)]
                   else []);
      }
    }
    hide Issuing, Delivering, Told;
    ToldConcat(issuing, delivering);
  }

  lemma RenewingIsTold(paid: Store, invoice: Option<string>, customer: string, email: Address, ans: Answers)
    ensures Told(Renewing(paid, invoice, customer, email, ans))
  {
    hide Told;
    if Restores(paid, invoice, customer, email, ans) {
      RestoringShape(paid, invoice, customer, email, ans);
      var raised := Write(paid, SubscribedSet(email, true));
      var front := [SubscribedSet(email, true), Asked(Libraries)];
      var key := Some(OperationKey(Recovery(invoice.value)));
      InvitingIsTold(raised, key, Some(customer), email, TierAt(raised.rows, email), false, ans);
      NothingToTell(front);
      hide Renewing, Inviting, Restores;
      ToldConcat(front, Inviting(raised, key, Some(customer), email, TierAt(raised.rows, email), false, ans));
    } else {
      UnrestoringTellsNothing(paid, invoice, customer, email, ans);
      NothingToTell(Renewing(paid, invoice, customer, email, ans));
    }
  }

  lemma UnrestoringTellsNothing(paid: Store, invoice: Option<string>, customer: string, email: Address, ans: Answers)
    requires !Restores(paid, invoice, customer, email, ans)
    ensures forall effect | effect in Renewing(paid, invoice, customer, email, ans) :: !Reported(effect)
  {
    hide Resolve, SnapshotOf, TagOf, Write, TierAt, Inviting;
  }

  lemma RenewalIsTold(store: Store, invoice: Option<string>, customer: Option<string>, own: Option<Address>,
                      first: bool, ans: Answers)
    ensures Told(InvoicePaidPlan(store, invoice, customer, own, first, ans))
  {
    hide InvoicePaidPlan, Renewing, PayerAsks, PayerEmail, Write, Told;
    var email := PayerEmail(store.rows, own, customer, ans);
    if customer.None? || first || email.None? {
      UnrenewedTellsNothing(store, invoice, customer, own, first, ans);
      NothingToTell(InvoicePaidPlan(store, invoice, customer, own, first, ans));
    } else {
      var settle, asks := PaymentStateSet(email.value, false), PayerAsks(store.rows, own, customer);
      InvoicePaidShape(store, invoice, customer.value, own, email.value, ans);
      RenewingIsTold(Write(store, settle), invoice, customer.value, email.value, ans);
      AsksOnly(store.rows, own, customer);
      NothingToTell(asks + [settle, Asked(Wizarr)]);
      ToldConcat(asks + [settle, Asked(Wizarr)],
                 Renewing(Write(store, settle), invoice, customer.value, email.value, ans));
    }
  }

  lemma AsksOnly(rows: seq<Row>, own: Option<Address>, customer: Option<string>)
    ensures forall effect | effect in PayerAsks(rows, own, customer) :: effect.Asked?
  {
    hide MappedEmail;
  }

  lemma UnrenewedTellsNothing(store: Store, invoice: Option<string>, customer: Option<string>, own: Option<Address>,
                              first: bool, ans: Answers)
    requires customer.None? || first || PayerEmail(store.rows, own, customer, ans).None?
    ensures forall effect | effect in InvoicePaidPlan(store, invoice, customer, own, first, ans) :: !Reported(effect)
  {
    hide Resolve, SnapshotOf, PayerEmail, MappedEmail, Write, Renewing;
  }

  lemma CancellationRetiresNothing(store: Store, customer: Option<string>, own: Option<Address>, ans: Answers)
    ensures forall effect | effect in DeletedPlan(store, customer, own, ans) :: !Reported(effect)
  {
    hide PayerEmail, PayerAsks, DeletedRest, UnknownRest;
    AsksOnly(store.rows, own, customer);
    if customer.Some? {
      var email := PayerEmail(store.rows, own, customer, ans);
      if email.Some? {
        DeletedRestIsSilent(store, customer.value, email.value, ans);
      } else {
        UnknownRestIsSilent(store, customer.value, ans);
      }
    }
  }

  lemma UnknownRestIsSilent(store: Store, customer: string, ans: Answers)
    ensures forall effect | effect in UnknownRest(store, customer, ans) :: !Reported(effect)
  {
    hide Resolve, SnapshotOf;
  }

  lemma DeletedRestIsSilent(store: Store, customer: string, email: Address, ans: Answers)
    ensures forall effect | effect in DeletedRest(store, customer, email, ans) :: !Reported(effect)
  {
    hide Resolve, SnapshotOf, TagOf, LiveSibling, Siblings, Write, SubscribedElsewhere;
  }

  lemma FailureIsTold(store: Store, customer: Option<string>, own: Option<Address>, ans: Answers)
    ensures Told(PaymentFailedPlan(store, customer, own, ans))
  {
    hide Told, PayerEmail, MappedEmail, Siblings, LiveSibling, Retiring, RetirementOf;
    var email := PayerEmail(store.rows, own, customer, ans);
    var plan, asks := PaymentFailedPlan(store, customer, own, ans), PayerAsks(store.rows, own, customer);
    if email.Some? && customer.Some? && LiveSibling(store.rows, email.value, customer.value, ans).Some? {
      var sibling := LiveSibling(store.rows, email.value, customer.value, ans).value;
      var first := asks + SiblingAsks(store.rows, email.value, customer.value);
      var rest := Retiring(ans, sibling) + if RetirementOf(ans, sibling) != Retired then [Alerted] else [];
      RetiringIsTold(ans, sibling);
      assert Retiring(ans, sibling) + [] == Retiring(ans, sibling);
      NothingToTell(first);
      ToldConcat(first, rest);
      assert plan == first + rest;
    } else {
      NothingToTell(plan);
    }
  }

  // ---------------------------------------------------------------- what a Stripe failure costs

  /** Everything but asking a service, retiring a subscription and telling the operator. */
  predicate Lasts(effect: Effect) {
    !effect.Asked? && !Retires(effect) && !effect.Alerted?
  }

  function Lasting(plan: Effects): Effects {
    Filter(Lasts, plan)
  }

  lemma {:induction false} LastingConcat(first: Effects, rest: Effects)
    ensures Lasting(first + rest) == Lasting(first) + Lasting(rest)
    decreases |first|
  {
    if |first| == 0 {
      assert first + rest == rest;
    } else {
      assert (first + rest)[1..] == first[1..] + rest;
      LastingConcat(first[1..], rest);
    }
  }

  lemma {:induction false} NothingLasts(plan: Effects)
    requires forall effect | effect in plan :: !Lasts(effect)
    ensures Lasting(plan) == []
    decreases |plan|
  {
    if |plan| > 0 {
      NothingLasts(plan[1..]);
    }
  }

  lemma RetiringLeavesNothing(customer: Option<string>, ans: Answers)
    ensures Lasting(CheckoutRetiring(customer, ans)) == []
  {
    if customer.Some? {
      RetiringMeans(ans, customer.value);
    }
    hide Retiring, RetirementOf, DunningOthers;
    NothingLasts(CheckoutRetiring(customer, ans));
  }

  /**
   * Wherever Stripe throws in a retirement, the event invites, writes, disables and stamps what it would
   * have anyway.
   */
  lemma StripeCostsOnlyTheRetirement(store: Store, event: Event, ans: Answers, throwsAt: Option<nat>)
    ensures Lasting(EventPlan(store, event, ans))
            == Lasting(EventPlan(store, event, ans.(retirementThrowsAt := throwsAt)))
  {
    var other := ans.(retirementThrowsAt := throwsAt);
    hide CheckoutPlan, InvoicePaidPlan, PaymentFailedPlan, UpdatedPlan, DeletedPlan;
    match event
    case CheckoutCompleted(session, customer, email, tier) =>
      CheckoutLasts(store, session, customer, email, tier, ans, other);
    case InvoicePaid(invoice, customer, own, first) =>
      RenewalLasts(store, invoice, customer, own, first, ans, other);
    case PaymentFailed(customer, own) =>
      FailureLasts(store, customer, own, ans, other);
    case SubscriptionUpdated(customer, own, status) =>
      UpdateLasts(store, customer, own, status, ans, other);
    case SubscriptionDeleted(customer, own) =>
      CancellationLasts(store, customer, own, ans, other);
    case OtherEvent =>
  }

  /** The same answers but for where a retirement is stopped. */
  predicate SameButThrow(ans: Answers, other: Answers) {
    other == ans.(retirementThrowsAt := other.retirementThrowsAt)
  }

  lemma CheckoutLasts(store: Store, session: Option<string>, customer: Option<string>, email: Option<Address>,
                      tier: Tier, ans: Answers, other: Answers)
    requires SameButThrow(ans, other)
    ensures Lasting(CheckoutPlan(store, session, customer, email, tier, ans))
            == Lasting(CheckoutPlan(store, session, customer, email, tier, other))
  {
    if email.Some? {
      var key := SessionKey(session);
      SameLooks(store, key, customer, email.value, tier, ans, other);
      RetiringLeavesNothing(customer, ans);
      RetiringLeavesNothing(customer, other);
      hide Lasting, CheckoutPerson, CheckoutRetiring, CheckoutResetting, Inviting, Issuing, TagOf;
      var front := [Asked(Wizarr), Asked(Libraries)];
      var inviting := Inviting(store, key, customer, email.value, tier, true, ans);
      var resetting := CheckoutResetting(store, Issuing(store, key, customer, email.value, tier, true, ans), customer,
                                         email.value, ans);
      FulfilmentLasts(front, inviting, CheckoutRetiring(customer, ans), resetting);
      FulfilmentLasts(front, inviting, CheckoutRetiring(customer, other), resetting);
    }
  }

  lemma FulfilmentLasts(front: Effects, inviting: Effects, retiring: Effects, resetting: Effects)
    requires Lasting(retiring) == []
    ensures Lasting(front + (inviting + (retiring + resetting)))
            == Lasting(front) + (Lasting(inviting) + Lasting(resetting))
  {
    LastingConcat(front, inviting + (retiring + resetting));
    LastingConcat(inviting, retiring + resetting);
    LastingConcat(retiring, resetting);
  }

  lemma SameLooks(store: Store, key: Option<string>, customer: Option<string>, email: Address, tier: Tier, ans: Answers,
                  other: Answers)
    requires SameButThrow(ans, other)
    ensures CheckoutPerson(store, customer, email, ans) == CheckoutPerson(store, customer, email, other)
    ensures Inviting(store, key, customer, email, tier, true, ans)
            == Inviting(store, key, customer, email, tier, true, other)
    ensures CheckoutResetting(store, Issuing(store, key, customer, email, tier, true, ans), customer, email, ans)
            == CheckoutResetting(store, Issuing(store, key, customer, email, tier, true, other), customer, email, other)
  {
    hide Resolve, TagOf, After, Delivering;
    SameResets(ans, other);
    hide Resetting;
  }

  lemma SameResets(ans: Answers, other: Answers)
    requires SameButThrow(ans, other)
    ensures forall person :: Resetting(person, ans) == Resetting(person, other)
  {
    hide StaleRecords;
  }

  lemma RenewingLasts(store: Store, invoice: Option<string>, customer: string, email: Address, ans: Answers,
                      other: Answers)
    requires SameButThrow(ans, other)
    ensures Renewing(store, invoice, customer, email, ans) == Renewing(store, invoice, customer, email, other)
  {
    hide Resolve, TagOf, Write, TierAt, Delivering;
  }

  lemma RenewalLasts(store: Store, invoice: Option<string>, customer: Option<string>, own: Option<Address>, first: bool,
                     ans: Answers, other: Answers)
    requires SameButThrow(ans, other)
    ensures InvoicePaidPlan(store, invoice, customer, own, first, ans)
            == InvoicePaidPlan(store, invoice, customer, own, first, other)
  {
    hide Resolve, MappedEmail, Write, Renewing, PayerAsks;
    var email := PayerEmail(store.rows, own, customer, ans);
    if customer.Some? && email.Some? {
      RenewingLasts(Write(store, PaymentStateSet(email.value, false)), invoice, customer.value, email.value, ans,
                    other);
    }
  }

  lemma UpdateLasts(store: Store, customer: Option<string>, own: Option<Address>, status: string, ans: Answers,
                    other: Answers)
    requires SameButThrow(ans, other)
    ensures UpdatedPlan(store, customer, own, status, ans) == UpdatedPlan(store, customer, own, status, other)
  {
    hide MappedEmail;
  }

  lemma SameSiblings(rows: seq<Row>, email: Address, dead: string, ans: Answers, other: Answers)
    requires SameButThrow(ans, other)
    ensures LiveSibling(rows, email, dead, ans) == LiveSibling(rows, email, dead, other)
  {
    hide Siblings, BestStatus;
  }

  lemma CancellationLasts(store: Store, customer: Option<string>, own: Option<Address>, ans: Answers, other: Answers)
    requires SameButThrow(ans, other)
    ensures DeletedPlan(store, customer, own, ans) == DeletedPlan(store, customer, own, other)
  {
    hide Resolve, TagOf, MappedEmail, Write, LiveSibling, SubscribedElsewhere;
    if customer.Some? && PayerEmail(store.rows, own, customer, ans).Some? {
      SameSiblings(store.rows, PayerEmail(store.rows, own, customer, ans).value, customer.value, ans, other);
    }
  }

  lemma FailureLasts(store: Store, customer: Option<string>, own: Option<Address>, ans: Answers, other: Answers)
    requires SameButThrow(ans, other)
    ensures Lasting(PaymentFailedPlan(store, customer, own, ans))
            == Lasting(PaymentFailedPlan(store, customer, own, other))
  {
    hide MappedEmail, Siblings, LiveSibling, Retiring, RetirementOf, Lasting;
    var email := PayerEmail(store.rows, own, customer, ans);
    if email.Some? && customer.Some? {
      SameSiblings(store.rows, email.value, customer.value, ans, other);
      if LiveSibling(store.rows, email.value, customer.value, ans).Some? {
        FailureLeavesNothing(store, customer.value, own, email.value, ans);
        FailureLeavesNothing(store, customer.value, own, email.value, other);
      }
    }
  }

  lemma FailureLeavesNothing(store: Store, customer: string, own: Option<Address>, email: Address, ans: Answers)
    requires PayerEmail(store.rows, own, Some(customer), ans) == Some(email)
             && LiveSibling(store.rows, email, customer, ans).Some?
    ensures Lasting(PaymentFailedPlan(store, Some(customer), own, ans)) == []
  {
    var sibling := LiveSibling(store.rows, email, customer, ans).value;
    var first := PayerAsks(store.rows, own, Some(customer)) + SiblingAsks(store.rows, email, customer);
    var rest := Retiring(ans, sibling) + if RetirementOf(ans, sibling) != Retired then [Alerted] else [];
    TellingLeavesNothing(ans, sibling);
    FailureShape(store, customer, own, email, ans);
    hide *;
    NothingLasts(first);
    LastingConcat(first, rest);
  }

  lemma FailureShape(store: Store, customer: string, own: Option<Address>, email: Address, ans: Answers)
    requires PayerEmail(store.rows, own, Some(customer), ans) == Some(email)
             && LiveSibling(store.rows, email, customer, ans).Some?
    ensures var sibling := LiveSibling(store.rows, email, customer, ans).value;
            var first := PayerAsks(store.rows, own, Some(customer)) + SiblingAsks(store.rows, email, customer);
            && PaymentFailedPlan(store, Some(customer), own, ans)
               == first + (Retiring(ans, sibling) + if RetirementOf(ans, sibling) != Retired then [Alerted] else [])
            && forall effect | effect in first :: !Lasts(effect)
  {
    hide PayerEmail, MappedEmail, Siblings, LiveSibling, Retiring, RetirementOf;
  }

  lemma TellingLeavesNothing(ans: Answers, sibling: string)
    ensures Lasting(Retiring(ans, sibling) + if RetirementOf(ans, sibling) != Retired then [Alerted] else []) == []
  {
    RetiringMeans(ans, sibling);
    hide Retiring, RetirementOf, DunningOthers;
    NothingLasts(Retiring(ans, sibling) + if RetirementOf(ans, sibling) != Retired then [Alerted] else []);
  }

  // ---------------------------------------------------------------- the records

  /** Whether a reset lets records live: found under the member's own address, every one on a covered server. */
  predicate Covers(person: Person, covered: set<string>) {
    person.via == ViaEmail
      && forall record | record in person.records :: record.server.Some? && record.server.value in covered
  }

  /**
   * A reset changes every record of the person in exactly one way: all of them live on, with the paid
   * expiry, when the tier covers them and that can be judged; otherwise all of them go.
   */
  lemma ResetTouchesEveryRecord(person: Person, ans: Answers, record: Record)
    requires record in person.records
    ensures Covers(person, ans.covered) ==>
              Stamped(record.id, ans.now + ans.settings.accessDays * 86_400_000) in Resetting(person, ans)
                && Disabled(record.id) !in Resetting(person, ans)
    ensures !Covers(person, ans.covered) ==>
              Disabled(record.id) in Resetting(person, ans)
                && forall at :: Stamped(record.id, at) !in Resetting(person, ans)
  {
    PaidWindow(ans);
    ResettingParts(person, ans);
    StampingMeans(person.records, ans);
    DisablingMeans(person.records);
    hide AccessExpiry, Stamping, Disabling, Resetting, Covers;
  }

  lemma ResettingParts(person: Person, ans: Answers)
    ensures Resetting(person, ans)
            == if Covers(person, ans.covered) then Stamping(person.records, ans) else Disabling(person.records)
  {
    var gone := set record | record in person.records :: record.id;
    if Covers(person, ans.covered) {
      Surviving(person.records, {});
      assert (set record: Record | record in [] :: record.id) == {};
      assert Disabling([]) + Stamping(person.records, ans) == Stamping(person.records, ans);
    } else {
      NoneSurvive(person.records, gone);
      assert Disabling(person.records) + Stamping([], ans) == Disabling(person.records);
    }
  }

  lemma {:induction false} NoneSurvive(records: seq<Record>, gone: set<int>)
    requires forall record | record in records :: record.id in gone
    ensures Filter((record: Record) => record.id !in gone, records) == []
    decreases |records|
  {
    if |records| > 0 {
      NoneSurvive(records[1..], gone);
    }
  }

  lemma {:induction false} Surviving(records: seq<Record>, gone: set<int>)
    requires gone == {}
    ensures Filter((record: Record) => record.id !in gone, records) == records
    decreases |records|
  {
    if |records| > 0 {
      Surviving(records[1..], gone);
    }
  }

  /** What a payment buys: the access days, in milliseconds, from the moment it is handled. */
  lemma PaidWindow(ans: Answers)
    ensures AccessExpiry(ans) == ans.now + ans.settings.accessDays * 86_400_000
  {
  }

  lemma StampingMeans(records: seq<Record>, ans: Answers)
    ensures forall record | record in records :: Stamped(record.id, AccessExpiry(ans)) in Stamping(records, ans)
    ensures forall effect | effect in Stamping(records, ans) ::
              exists record :: record in records && effect == Stamped(record.id, AccessExpiry(ans))
  {
    forall record | record in records ensures Stamped(record.id, AccessExpiry(ans)) in Stamping(records, ans) {
      var i :| 0 <= i < |records| && records[i] == record;
      assert Stamping(records, ans)[i] == Stamped(record.id, AccessExpiry(ans));
    }
    forall effect | effect in Stamping(records, ans)
      ensures exists record :: record in records && effect == Stamped(record.id, AccessExpiry(ans))
    {
      var i :| 0 <= i < |records| && Stamping(records, ans)[i] == effect;
      assert records[i] in records;
    }
  }

  lemma DisablingMeans(records: seq<Record>)
    ensures forall record | record in records :: Disabled(record.id) in Disabling(records)
    ensures forall effect | effect in Disabling(records) ::
              exists record :: record in records && effect == Disabled(record.id)
  {
    forall record | record in records ensures Disabled(record.id) in Disabling(records) {
      var i :| 0 <= i < |records| && records[i] == record;
      assert Disabling(records)[i] == Disabled(record.id);
    }
    forall effect | effect in Disabling(records)
      ensures exists record :: record in records && effect == Disabled(record.id) {
      var i :| 0 <= i < |records| && Disabling(records)[i] == effect;
      assert records[i] in records;
    }
  }

  /**
   * A renewal of a known payer settles the dunning flag, raises `subscribed` exactly when nobody is
   * banned, and extends each record exactly when no tag exempts the person.
   */
  lemma RenewalExtendsExactly(store: Store, invoice: Option<string>, customer: string, own: Option<Address>,
                              ans: Answers, record: Record)
    requires PayerOf(store, InvoicePaid(invoice, Some(customer), own, false), ans).Some?
    requires record in PersonOf(store, InvoicePaid(invoice, Some(customer), own, false), ans).records
    ensures var event := InvoicePaid(invoice, Some(customer), own, false);
            var payer, plan := PayerOf(store, event, ans).value, EventPlan(store, event, ans);
            var tag := TagOf(store, PersonOf(store, event, ans));
            && PaymentStateSet(payer, false) in plan
            && (SubscribedSet(payer, true) in plan <==> !IsBanned(tag))
            && (Stamped(record.id, ans.now + ans.settings.accessDays * 86_400_000) in plan <==> IsTimeBoxed(tag))
  {
    var event := InvoicePaid(invoice, Some(customer), own, false);
    var payer, person := PayerOf(store, event, ans).value, PersonOf(store, event, ans);
    RenewedPlan(store, invoice, customer, own, payer, ans);
    RenewalShape(store, invoice, customer, own, payer, ans);
    RenewedMeans(person, TagOf(store, person), payer, ans, record);
    hide *;
  }

  lemma RenewedMeans(person: Person, tag: Option<Tag>, payer: Address, ans: Answers, record: Record)
    requires record in person.records
    ensures SubscribedSet(payer, true) in Renewed(person, tag, payer, ans) <==> !IsBanned(tag)
    ensures Stamped(record.id, ans.now + ans.settings.accessDays * 86_400_000) in Renewed(person, tag, payer, ans)
            <==> IsTimeBoxed(tag)
  {
    PaidWindow(ans);
    StampingMeans(person.records, ans);
    hide Stamping;
  }

  /** What a renewal plans for the person found before it wrote anything. */
  function Renewed(person: Person, tag: Option<Tag>, payer: Address, ans: Answers): Effects
  {
    if IsBanned(tag) then []
    else [SubscribedSet(payer, true)] + if HoldsStandingGrant(tag) then [] else Stamping(person.records, ans)
  }

  lemma RenewedPlan(store: Store, invoice: Option<string>, customer: string, own: Option<Address>, payer: Address,
                    ans: Answers)
    requires PayerOf(store, InvoicePaid(invoice, Some(customer), own, false), ans) == Some(payer)
    requires |PersonOf(store, InvoicePaid(invoice, Some(customer), own, false), ans).records| > 0
    ensures var person := PersonOf(store, InvoicePaid(invoice, Some(customer), own, false), ans);
            Renewing(Write(store, PaymentStateSet(payer, false)), invoice, customer, payer, ans)
            == Renewed(person, TagOf(store, person), payer, ans)
  {
    FlagsKeepIdentity(store, PaymentStateSet(payer, false), ans, Some(customer), Some(payer));
    hide PayerEmail, Resolve, SnapshotOf, Governing, Write, Stamping;
  }

  lemma RenewalShape(store: Store, invoice: Option<string>, customer: string, own: Option<Address>, payer: Address,
                     ans: Answers)
    requires PayerOf(store, InvoicePaid(invoice, Some(customer), own, false), ans) == Some(payer)
    ensures var settle := PaymentStateSet(payer, false);
            EventPlan(store, InvoicePaid(invoice, Some(customer), own, false), ans)
            == PayerAsks(store.rows, own, Some(customer))
               + ([settle] + ([Asked(Wizarr)] + Renewing(Write(store, settle), invoice, customer, payer, ans)))
    ensures forall effect | effect in PayerAsks(store.rows, own, Some(customer)) :: effect.Asked?
  {
    hide PayerEmail, MappedEmail, Write, Renewing;
  }

  /** Why a cancellation leaves somebody's records alone, read from the tables as it finds them. */
  predicate Kept(store: Store, customer: string, own: Option<Address>, ans: Answers)
    requires PayerOf(store, SubscriptionDeleted(Some(customer), own), ans).Some?
  {
    var event := SubscriptionDeleted(Some(customer), own);
    var payer, person := PayerOf(store, event, ans).value, PersonOf(store, event, ans);
    || HoldsStandingGrant(TagOf(store, person))
    || LiveSibling(store.rows, payer, customer, ans).Some?
    || exists a :: a in person.addresses && a != payer && Subscribed(store.rows, a)
  }

  /**
   * A cancellation of a known payer disables every record of the person or none at all: none exactly
   * when a VIP tag, a live customer at the address or another paying address of theirs keeps them.
   */
  lemma CancellationCutsExactly(store: Store, customer: string, own: Option<Address>, ans: Answers, record: Record)
    requires PayerOf(store, SubscriptionDeleted(Some(customer), own), ans).Some?
    requires record in PersonOf(store, SubscriptionDeleted(Some(customer), own), ans).records
    ensures Disabled(record.id) in EventPlan(store, SubscriptionDeleted(Some(customer), own), ans)
            <==> !Kept(store, customer, own, ans)
  {
    var event := SubscriptionDeleted(Some(customer), own);
    var payer, person := PayerOf(store, event, ans).value, PersonOf(store, event, ans);
    DeletedShape(store, customer, own, payer, ans);
    CuttingMeans(store, customer, own, ans);
    DisablingMeans(person.records);
    hide EventPlan, PayerOf, PersonOf, Disabling, Kept;
  }

  lemma DeletedShape(store: Store, customer: string, own: Option<Address>, payer: Address, ans: Answers)
    requires PayerOf(store, SubscriptionDeleted(Some(customer), own), ans) == Some(payer)
    ensures var plan := EventPlan(store, SubscriptionDeleted(Some(customer), own), ans);
            forall effect: Effect | effect.Disabled? ::
              effect in plan <==> effect in Cutting(store, customer, payer,
                                                    LiveSibling(store.rows, payer, customer, ans), ans)
  {
    var sibling := LiveSibling(store.rows, payer, customer, ans);
    var flag := if sibling.Some? then PaymentStateSet(payer, false) else SubscribedSet(payer, false);
    CuttingFlagged(store, flag, customer, payer, sibling, ans);
    DeletedParts(store, customer, own, payer, ans);
    NothingDisabledYet(store.rows, own, customer, payer, flag);
    hide *;
  }

  lemma DeletedParts(store: Store, customer: string, own: Option<Address>, payer: Address, ans: Answers)
    requires PayerOf(store, SubscriptionDeleted(Some(customer), own), ans) == Some(payer)
    ensures var sibling := LiveSibling(store.rows, payer, customer, ans);
            var flag := if sibling.Some? then PaymentStateSet(payer, false) else SubscribedSet(payer, false);
            EventPlan(store, SubscriptionDeleted(Some(customer), own), ans)
            == PayerAsks(store.rows, own, Some(customer))
               + (SiblingAsks(store.rows, payer, customer) + [flag, Asked(Wizarr)]
                  + Cutting(Write(store, flag), customer, payer, sibling, ans))
  {
    hide PayerEmail, PayerAsks, SiblingAsks, Write, LiveSibling, Cutting;
  }

  lemma NothingDisabledYet(rows: seq<Row>, own: Option<Address>, customer: string, payer: Address, flag: Effect)
    requires SetsFlag(flag)
    ensures forall effect | effect in PayerAsks(rows, own, Some(customer)) :: !effect.Disabled?
    ensures forall effect | effect in SiblingAsks(rows, payer, customer) + [flag, Asked(Wizarr)] :: !effect.Disabled?
  {
    hide MappedEmail, Siblings;
  }

  lemma CuttingMeans(store: Store, customer: string, own: Option<Address>, ans: Answers)
    requires PayerOf(store, SubscriptionDeleted(Some(customer), own), ans).Some?
    ensures var event := SubscriptionDeleted(Some(customer), own);
            var payer := PayerOf(store, event, ans).value;
            Cutting(store, customer, payer, LiveSibling(store.rows, payer, customer, ans), ans)
            == if Kept(store, customer, own, ans) then [] else Disabling(PersonOf(store, event, ans).records)
  {
    hide PayerEmail, Resolve, SnapshotOf, TagOf, LiveSibling, Subscribed, Disabling;
  }

  /** The payer's own flag decides nothing about their records. */
  lemma CuttingFlagged(store: Store, flag: Effect, customer: string, payer: Address, sibling: Option<string>,
                       ans: Answers)
    requires SetsFlag(flag) && flag.email == payer
    ensures Cutting(Write(store, flag), customer, payer, sibling, ans) == Cutting(store, customer, payer, sibling, ans)
  {
    FlagsKeepIdentity(store, flag, ans, Some(customer), Some(payer));
    forall other | other != payer
      ensures Subscribed(Write(store, flag).rows, other) <==> Subscribed(store.rows, other) {
      FlagLeavesOthers(store, flag, other);
    }
    hide Resolve, SnapshotOf, Governing, Write, Subscribed;
  }
}
