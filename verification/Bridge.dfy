/**
 * The bridge itself: its tables, and the handlers as the ordered calls they make. Any call may be the
 * last one of a delivery; each method is proved to do exactly its plan in module WebhookPlans, or the
 * part of it that came off.
 */
module Bridge {
  import opened Options
  import opened Identity
  import opened Standing
  import opened BridgeStore
  import opened WebhookPlans
  import opened Delivery

  // ---------------------------------------------------------------- the tables

  class Database {
    var rows: seq<Row>
    var bindings: map<string, Issuance>
    var processed: set<string>
    var tags: map<Address, Tag>
    var links: map<Address, Address>

    constructor ()
      ensures State() == EMPTY.store
    {
      rows, bindings, processed, tags, links := [], map[], {}, map[], map[];
    }

    function State(): Store
      reads this
    {
      Store(rows, bindings, processed, tags, links)
    }

    /** The first binding of an operation stands. */
    method RecordInviteIssuance(key: string, code: string)
      modifies this`bindings
      ensures State() == Write(old(State()), Bound(key, code))
      ensures bindings == if key in old(bindings) then old(bindings) else old(bindings)[key := Issuance(code, false)]
    {
      if key !in bindings {
        bindings := bindings[key := Issuance(code, false)];
      }
    }

    method MarkInviteEmailed(key: string)
      modifies this`bindings
      ensures State() == Write(old(State()), MarkedMailed(key))
      ensures bindings == if key in old(bindings) then old(bindings)[key := old(bindings)[key].(emailed := true)]
                          else old(bindings)
    {
      if key in bindings {
        bindings := bindings[key := bindings[key].(emailed := true)];
      }
    }

    method SetPaymentState(email: Address, pastDue: bool)
      modifies this`rows
      ensures State() == Write(old(State()), PaymentStateSet(email, pastDue))
      ensures |rows| == |old(rows)|
      ensures forall i | 0 <= i < |rows| ::
                rows[i] == if old(rows)[i].email == email then old(rows)[i].(pastDue := pastDue) else old(rows)[i]
    {
      ghost var before := rows;
      for i := 0 to |rows|
        invariant |rows| == |before|
        invariant forall k | 0 <= k < |rows| ::
                    rows[k] == if k < i && before[k].email == email then before[k].(pastDue := pastDue) else before[k]
      {
        if rows[i].email == email {
          rows := rows[i := rows[i].(pastDue := pastDue)];
        }
      }
      assert rows == WithPaymentState(before, email, pastDue);
    }

    method SetSubscribed(email: Address, value: bool)
      modifies this`rows
      ensures State() == Write(old(State()), SubscribedSet(email, value))
      ensures |rows| == |old(rows)|
      ensures forall i | 0 <= i < |rows| ::
                rows[i] == if old(rows)[i].email == email then old(rows)[i].(subscribed := value) else old(rows)[i]
    {
      ghost var before := rows;
      for i := 0 to |rows|
        invariant |rows| == |before|
        invariant forall k | 0 <= k < |rows| ::
                    rows[k] == if k < i && before[k].email == email then before[k].(subscribed := value) else before[k]
      {
        if rows[i].email == email {
          rows := rows[i := rows[i].(subscribed := value)];
        }
      }
      assert rows == WithSubscribed(before, email, value);
    }

    /** One transaction: the pending row, and a completed checkout's settled payment with it. */
    method WritePending(customer: Option<string>, email: Address, code: string, tier: Tier, at: int, settles: bool)
      modifies this`rows
      ensures State() == Write(old(State()), RowWritten(customer, email, code, tier, at, settles))
    {
      if customer.Some? {
        rows := UpsertPending(rows, customer.value, email, code, tier, at);
      } else {
        rows := UpsertByEmail(rows, email, code, tier, at);
      }
      if settles {
        SetPaymentState(email, false);
      }
    }

    method MarkEventProcessed(event: string)
      modifies this`processed
      ensures State() == Write(old(State()), Processed(event))
      ensures processed == old(processed) + {event}
    {
      processed := processed + {event};
    }
  }

  // ---------------------------------------------------------------- one delivery at a time

  /** Performing nothing more once a call has failed. */
  lemma ThenDead(w: World, first: Effects, rest: Effects)
    requires Execute(w, first).dead
    ensures Execute(w, first + rest) == Execute(w, first)
  {
    ExecuteConcat(w, first, rest);
    ExecuteDead(Execute(w, first), rest);
  }

  lemma Then(w: World, first: Effects, middle: World, rest: Effects)
    requires Execute(w, first) == middle
    ensures Execute(w, first + rest) == Execute(middle, rest)
  {
    ExecuteConcat(w, first, rest);
  }

  lemma Once(w: World, effect: Effect)
    ensures Execute(w, [effect]) == Act(w, effect)
  {
    assert [effect][1..] == [];
  }

  /** A live process that did all of a plan has the tables the plan leaves. */
  lemma {:induction false} LiveStore(w: World, plan: Effects)
    requires !Execute(w, plan).dead
    ensures !w.dead && Execute(w, plan).store == After(w.store, plan)
    decreases |plan|
  {
    if |plan| > 0 {
      LiveStore(Act(w, plan[0]), plan[1..]);
    }
  }

  // ---------------------------------------------------------------- calls that may throw

  /** No call made so far was the one that throws. */
  predicate NotThrown(calls: nat, throwsAt: Option<nat>) {
    throwsAt.Some? ==> calls <= throwsAt.value
  }

  predicate Thrown(plan: Effects, calls: nat, throwsAt: Option<nat>) {
    throwsAt.Some? && throwsAt.value < calls + |plan|
  }

  /** The calls of a list that come back, after some that did. */
  function Made(plan: Effects, calls: nat, throwsAt: Option<nat>): Effects
    requires NotThrown(calls, throwsAt)
  {
    if Thrown(plan, calls, throwsAt) then plan[..throwsAt.value - calls] else plan
  }

  lemma MadeConcat(first: Effects, rest: Effects, calls: nat, throwsAt: Option<nat>)
    requires NotThrown(calls, throwsAt)
    ensures Thrown(first + rest, calls, throwsAt)
            == (Thrown(first, calls, throwsAt) || Thrown(rest, calls + |first|, throwsAt))
    ensures Thrown(first, calls, throwsAt) ==> Made(first + rest, calls, throwsAt) == Made(first, calls, throwsAt)
    ensures !Thrown(first, calls, throwsAt) ==>
              && Made(first, calls, throwsAt) == first && NotThrown(calls + |first|, throwsAt)
              && Made(first + rest, calls, throwsAt) == first + Made(rest, calls + |first|, throwsAt)
    ensures Made(first, calls, throwsAt) <= Made(first + rest, calls, throwsAt)
  {
  }

  lemma AllMade(plan: Effects, calls: nat, throwsAt: Option<nat>)
    requires NotThrown(calls + |plan|, throwsAt)
    ensures NotThrown(calls, throwsAt) && Made(plan, calls, throwsAt) == plan && !Thrown(plan, calls, throwsAt)
  {
  }

  /** A process that died on the way through a plan did no more of it. */
  lemma StoppedShort(w: World, done: Effects, plan: Effects)
    requires done <= plan && Execute(w, done).dead
    ensures Execute(w, plan) == Execute(w, done)
  {
    assert plan == done + plan[|done|..];
    ThenDead(w, done, plan[|done|..]);
  }

  /** One part of a list of calls, after the parts before it: what comes off of the whole. */
  lemma PartMade(done: Effects, one: Effects, rest: Effects, calls: nat, throwsAt: Option<nat>)
    requires NotThrown(calls + |done|, throwsAt)
    ensures NotThrown(calls, throwsAt)
    ensures var at, whole := calls + |done|, done + one + rest;
            && Made(whole, calls, throwsAt) == done + Made(one + rest, at, throwsAt)
            && Made(one, at, throwsAt) <= Made(one + rest, at, throwsAt)
            && (Thrown(one, at, throwsAt) ==>
                  Thrown(whole, calls, throwsAt) && Made(one + rest, at, throwsAt) == Made(one, at, throwsAt))
            && (!Thrown(one, at, throwsAt) ==> Made(one, at, throwsAt) == one && NotThrown(at + |one|, throwsAt))
  {
    AllMade(done, calls, throwsAt);
    MadeConcat(done, one + rest, calls, throwsAt);
    MadeConcat(one, rest, calls + |done|, throwsAt);
    assert done + one + rest == done + (one + rest);
    hide *;
  }

  /** A part that died ends the whole. */
  lemma PartDied(w: World, done: Effects, before: World, made: Effects, all: Effects)
    requires Execute(w, done) == before && made <= all && Execute(before, made).dead
    ensures Execute(w, done + all) == Execute(before, made)
  {
    Then(w, done, before, made);
    hide *;
    MorePrefix(done, made, all);
    StoppedShort(w, done + made, done + all);
  }

  lemma MorePrefix(first: Effects, some: Effects, all: Effects)
    requires some <= all
    ensures first + some <= first + all
  {
  }

  lemma WholeRetirement(ans: Answers, payingUnder: string)
    ensures var whole := CancelAndVoid(ans, payingUnder);
            && Made(whole, 0, ans.retirementThrowsAt) <= Retiring(ans, payingUnder)
            && (Thrown(whole, 0, ans.retirementThrowsAt) ==> RetirementThrows(ans, payingUnder))
            && (RetirementThrows(ans, payingUnder)
                ==> Retiring(ans, payingUnder) == Made(whole, 0, ans.retirementThrowsAt))
            && (!RetirementThrows(ans, payingUnder) ==> Made(whole, 0, ans.retirementThrowsAt) == whole)
  {
    hide Listing, Cancelling, DunningOthers;
  }

  lemma CancellingNext(ans: Answers, dunning: seq<Subscription>, i: nat)
    requires i < |dunning|
    ensures Cancelling(ans, dunning[i..]) == CancellingOne(ans, dunning[i]) + Cancelling(ans, dunning[i + 1..])
  {
    hide CancellingOne;
    assert dunning[i..][0] == dunning[i] && dunning[i..][1..] == dunning[i + 1..];
  }

  class Process {
    const db: Database
    var log: Effects
    var fuel: nat
    var dead: bool

    constructor (db: Database)
      ensures this.db == db && log == [] && fuel == 0 && !dead
    {
      this.db := db;
      log, fuel, dead := [], 0, false;
    }

    function Now(): World
      reads this, db
    {
      World(db.State(), log, fuel, dead)
    }

    /** One call to a service or one committed write, which may be the last. */
    method Perform(effect: Effect) returns (ok: bool)
      modifies this, db
      ensures Now() == Act(old(Now()), effect)
      ensures ok == !dead
    {
      if dead {
        return false;
      }
      if fuel == 0 || effect.Died? {
        log, dead := log + [Died], true;
        return false;
      }
      match effect {
        case Bound(key, code) => db.RecordInviteIssuance(key, code);
        case MarkedMailed(key) => db.MarkInviteEmailed(key);
        case RowWritten(customer, email, code, tier, at, settles) =>
          db.WritePending(customer, email, code, tier, at, settles);
        case PaymentStateSet(email, pastDue) => db.SetPaymentState(email, pastDue);
        case SubscribedSet(email, value) => db.SetSubscribed(email, value);
        case Processed(event) => db.MarkEventProcessed(event);
        case _ =>
      }
      log, fuel := log + [effect], fuel - 1;
      return true;
    }

    /** `eachInOrder`: a call that fails leaves the ones after it unmade. */
    method PerformAll(plan: Effects) returns (ok: bool)
      modifies this, db
      ensures Now() == Execute(old(Now()), plan)
      ensures ok == !dead
      decreases |plan|
    {
      if |plan| == 0 {
        return !dead;
      }
      ok := Perform(plan[0]);
      ghost var next := Now();
      if !ok {
        ExecuteDead(next, plan[1..]);
        return false;
      }
      ok := PerformAll(plan[1..]);
    }

    // ---------------------------------------------------------------- inviting

    method IssueInvite(key: Option<string>, customer: Option<string>, email: Address, tier: Tier, settles: bool,
                       ans: Answers)
      returns (ok: bool, code: string, emailed: bool)
      modifies this, db
      ensures Now() == Execute(old(Now()), Issuing(old(db.State()), key, customer, email, tier, settles, ans))
      ensures ok == !dead
      ensures code == IssuedCode(old(db.State()), key, ans) && emailed == AlreadyMailed(old(db.State()), key)
    {
      ghost var w, store := Now(), db.State();
      hide Act, Execute;
      var bound := key.Some? && key.value in db.bindings;
      code := if bound then db.bindings[key.value].code else ans.code;
      emailed := bound && db.bindings[key.value].emailed;
      var minting := if bound then [] else [Minted(key, code)] + if key.Some? then [Bound(key.value, code)] else [];
      var row := RowWritten(customer, email, code, tier, ans.now, settles);
      assert Issuing(store, key, customer, email, tier, settles, ans) == minting + [row];
      ok := PerformAll(minting);
      if !ok {
        ThenDead(w, minting, [row]);
        return;
      }
      Then(w, minting, Now(), [row]);
      Once(Now(), row);
      ok := Perform(row);
    }

    /** Sends an issued link once per recorded operation, and tells the operator when it went out. */
    method DeliverInvite(key: Option<string>, email: Address, code: string, emailed: bool) returns (ok: bool)
      modifies this, db
      ensures ok == !dead
      ensures Now() == Execute(old(Now()), if emailed then [] else
                [Mailed(key, email, code)] + (if key.Some? then [MarkedMailed(key.value)] else []) + [Alerted])
    {
      if emailed {
        return !dead;
      }
      ghost var w := Now();
      hide Act, Execute;
      var sending := [Mailed(key, email, code)] + if key.Some? then [MarkedMailed(key.value)] else [];
      ok := PerformAll(sending);
      if !ok {
        ThenDead(w, sending, [Alerted]);
        return;
      }
      Then(w, sending, Now(), [Alerted]);
      Once(Now(), Alerted);
      ok := Perform(Alerted);
    }

    method Invite(key: Option<string>, customer: Option<string>, email: Address, tier: Tier, settles: bool,
                  ans: Answers) returns (ok: bool)
      modifies this, db
      ensures Now() == Execute(old(Now()), Inviting(old(db.State()), key, customer, email, tier, settles, ans))
      ensures ok == !dead
    {
      ghost var w, store := Now(), db.State();
      hide Act, Execute, Issuing, AlreadyMailed, IssuedCode;
      ghost var issuing := Issuing(store, key, customer, email, tier, settles, ans);
      ghost var delivering := Delivering(store, key, email, IssuedCode(store, key, ans));
      var code: string, emailed: bool;
      ok, code, emailed := IssueInvite(key, customer, email, tier, settles, ans);
      if !ok {
        ThenDead(w, issuing, delivering);
        return;
      }
      Then(w, issuing, Now(), delivering);
      ok := DeliverInvite(key, email, code, emailed);
    }

    // ---------------------------------------------------------------- retiring duplicates

    /** One Stripe call of a retirement, which throws when it is the one that does. */
    method Attempt(effect: Effect, calls: nat, throwsAt: Option<nat>) returns (ok: bool, threw: bool)
      modifies this, db
      ensures threw == (throwsAt == Some(calls))
      ensures Now() == if threw then old(Now()) else Act(old(Now()), effect)
      ensures ok == !dead
    {
      threw := throwsAt == Some(calls);
      if threw {
        return !dead, threw;
      }
      ok := Perform(effect);
    }

    /** Makes the calls of one list in order, up to the one that throws. */
    method AttemptEach(plan: Effects, calls: nat, throwsAt: Option<nat>) returns (ok: bool, threw: bool)
      requires !dead && NotThrown(calls, throwsAt)
      modifies this, db
      ensures Now() == Execute(old(Now()), Made(plan, calls, throwsAt))
      ensures ok == !dead && (ok ==> threw == Thrown(plan, calls, throwsAt))
    {
      ghost var w := Now();
      hide Act, Execute;
      Nothing(w);
      for i := 0 to |plan|
        invariant !dead && Now() == Execute(w, plan[..i]) && NotThrown(calls + i, throwsAt)
      {
        ghost var before := Now();
        ok, threw := Attempt(plan[i], calls + i, throwsAt);
        if threw {
          return;
        }
        assert plan[..i + 1] == plan[..i] + [plan[i]];
        Once(before, plan[i]);
        Then(w, plan[..i], before, [plan[i]]);
        if !ok {
          StoppedShort(w, plan[..i + 1], Made(plan, calls, throwsAt));
          return;
        }
      }
      assert plan[..|plan|] == plan;
      return true, false;
    }

    /** Cancels one subscription, then voids each invoice it left open. */
    method RetireOne(s: Subscription, ans: Answers, calls: nat) returns (ok: bool, threw: bool)
      requires !dead && NotThrown(calls, ans.retirementThrowsAt)
      modifies this, db
      ensures Now() == Execute(old(Now()), Made(CancellingOne(ans, s), calls, ans.retirementThrowsAt))
      ensures ok == !dead && (ok ==> threw == Thrown(CancellingOne(ans, s), calls, ans.retirementThrowsAt))
    {
      ghost var w := Now();
      hide Act, Execute;
      var cancelling := [Cancelled(s.id, s.customer), Asked(StripeInvoices)];
      var voiding := Voiding(InvoicesOf(ans, s.id));
      MadeConcat(cancelling, voiding, calls, ans.retirementThrowsAt);
      hide Made, Voiding;
      ok, threw := AttemptEach(cancelling, calls, ans.retirementThrowsAt);
      if !ok {
        StoppedShort(w, Made(cancelling, calls, ans.retirementThrowsAt),
                     Made(cancelling + voiding, calls, ans.retirementThrowsAt));
        return;
      }
      if threw {
        return;
      }
      Then(w, cancelling, Now(), Made(voiding, calls + 2, ans.retirementThrowsAt));
      ok, threw := AttemptEach(voiding, calls + 2, ans.retirementThrowsAt);
    }

    /** Every subscription in turn, each cancelled before its invoices are voided. */
    method RetireEach(dunning: seq<Subscription>, ans: Answers, calls: nat) returns (ok: bool, threw: bool)
      requires !dead && NotThrown(calls, ans.retirementThrowsAt)
      modifies this, db
      ensures Now() == Execute(old(Now()), Made(Cancelling(ans, dunning), calls, ans.retirementThrowsAt))
      ensures ok == !dead && (ok ==> threw == Thrown(Cancelling(ans, dunning), calls, ans.retirementThrowsAt))
    {
      ghost var w := Now();
      hide Act, Execute, CancellingOne, Made;
      ghost var whole := Cancelling(ans, dunning);
      ghost var done: Effects := [];
      var made := calls;
      Nothing(w);
      assert [] + whole == whole && dunning[0..] == dunning;
      for i := 0 to |dunning|
        invariant !dead && Now() == Execute(w, done) && made == calls + |done|
                  && NotThrown(made, ans.retirementThrowsAt)
        invariant whole == done + Cancelling(ans, dunning[i..])
      {
        ghost var before := Now();
        ghost var one, rest := CancellingOne(ans, dunning[i]), Cancelling(ans, dunning[i + 1..]);
        CancellingNext(ans, dunning, i);
        assert whole == done + (one + rest) == (done + one) + rest;
        ok, threw := RetireOne(dunning[i], ans, made);
        ghost var part := Made(one, made, ans.retirementThrowsAt);
        PartMade(done, one, rest, calls, ans.retirementThrowsAt);
        if !ok {
          PartDied(w, done, before, part, Made(one + rest, made, ans.retirementThrowsAt));
          return;
        }
        Then(w, done, before, part);
        if threw {
          return;
        }
        done := done + one;
        made := made + |CancellingOne(ans, dunning[i])|;
      }
      assert Cancelling(ans, dunning[|dunning|..]) == [] && whole == done;
      AllMade(whole, calls, ans.retirementThrowsAt);
      return true, false;
    }

    /** A Stripe call that throws ends the retirement, not the delivery. */
    method RetireDuplicates(payingUnder: string, ans: Answers) returns (ok: bool, status: Retirement)
      modifies this, db
      ensures Now() == Execute(old(Now()), Retiring(ans, payingUnder))
      ensures ok == !dead && (ok ==> status == RetirementOf(ans, payingUnder))
    {
      ghost var w := Now();
      hide Act, Execute, Listing, Cancelling, DunningOthers, Made;
      if dead {
        ExecuteDead(w, Retiring(ans, payingUnder));
        return false, Failed;
      }
      var listing, dunning := Listing(ans, payingUnder), DunningOthers(ans, payingUnder);
      ghost var cancelling := Cancelling(ans, dunning);
      MadeConcat(listing, cancelling, 0, ans.retirementThrowsAt);
      WholeRetirement(ans, payingUnder);
      var threw: bool;
      ok, threw := AttemptEach(listing, 0, ans.retirementThrowsAt);
      if !ok {
        StoppedShort(w, Made(listing, 0, ans.retirementThrowsAt), Retiring(ans, payingUnder));
        return ok, Failed;
      }
      if threw {
        return ok, Failed;
      }
      ghost var listed := Now();
      Then(w, listing, listed, Made(cancelling, |listing|, ans.retirementThrowsAt));
      ok, threw := RetireEach(dunning, ans, |listing|);
      if !ok {
        StoppedShort(w, Made(listing + cancelling, 0, ans.retirementThrowsAt), Retiring(ans, payingUnder));
        return ok, Failed;
      }
      status := if threw || RetirementThrows(ans, payingUnder) then Failed
                else if |dunning| == 0 then NoneToRetire else Retired;
      if status == Retired {
        Then(w, listing + cancelling, Now(), [Alerted]);
        Once(Now(), Alerted);
        ok := Perform(Alerted);
      }
    }

    // ---------------------------------------------------------------- the handlers

    /** The payer of an event, asking Stripe only when neither the event nor the tables name one. */
    method Payer(own: Option<Address>, customer: Option<string>, ans: Answers)
      returns (ok: bool, email: Option<Address>)
      modifies this, db
      ensures Now() == Execute(old(Now()), PayerAsks(old(db.rows), own, customer))
      ensures ok == !dead && (ok ==> db.State() == old(db.State()))
      ensures email == PayerEmail(old(db.rows), own, customer, ans)
    {
      if own.Some? || customer.None? {
        return !dead, own;
      }
      email := MappedEmail(db.rows, customer.value);
      if email.Some? {
        return !dead, email;
      }
      Once(Now(), Asked(StripeCustomer));
      ok := Perform(Asked(StripeCustomer));
      email := NonEmpty(ans.stripeEmail);
    }

    method RescopeAndStamp(person: Person, ans: Answers) returns (ok: bool)
      modifies this, db
      ensures Now() == Execute(old(Now()), Resetting(person, ans))
      ensures ok == !dead
    {
      ghost var w := Now();
      hide Act, Execute;
      var stale := if person.via == ViaEmail then StaleRecords(person.records, ans.covered) else person.records;
      var gone := set record | record in stale :: record.id;
      var surviving := Filter((record: Record) => record.id !in gone, person.records);
      ok := PerformAll(Disabling(stale));
      if !ok {
        ThenDead(w, Disabling(stale), Stamping(surviving, ans));
        return;
      }
      Then(w, Disabling(stale), Now(), Stamping(surviving, ans));
      ok := PerformAll(Stamping(surviving, ans));
    }

    method RetireForCheckout(customer: Option<string>, ans: Answers) returns (ok: bool)
      modifies this, db
      ensures Now() == Execute(old(Now()), CheckoutRetiring(customer, ans))
      ensures ok == !dead
    {
      if customer.None? {
        return !dead;
      }
      ghost var w := Now();
      hide Act, Execute, Retiring, RetirementOf;
      ghost var retiring := Retiring(ans, customer.value);
      var status: Retirement;
      ok, status := RetireDuplicates(customer.value, ans);
      ghost var alert := if RetirementOf(ans, customer.value) == Failed then [Alerted] else [];
      if !ok {
        ThenDead(w, retiring, alert);
        return;
      }
      Then(w, retiring, Now(), alert);
      if status == Failed {
        Once(Now(), Alerted);
        ok := Perform(Alerted);
      } else {
        Nothing(Now());
      }
    }

    /** Mints and mails the invite of a completed checkout once, then retires duplicates and resets records. */
    method OnCheckoutCompleted(session: Option<string>, customer: Option<string>, email: Option<Address>, tier: Tier,
                               ans: Answers) returns (ok: bool)
      modifies this, db
      ensures Now() == Execute(old(Now()), CheckoutPlan(old(db.State()), session, customer, email, tier, ans))
      ensures ok == !dead
    {
      if email.None? {
        return !dead;
      }
      ghost var w, store := Now(), db.State();
      hide Act, Execute, SnapshotOf, Resolve, TagOf, FulfilPlan;
      var snapshot := SnapshotOf(db.State(), ans);
      var tag := TagOf(db.State(), Resolve(snapshot, db.rows, customer, email));
      if IsBanned(tag) {
        ok := PerformAll([Asked(Wizarr), Alerted]);
        return;
      }
      var asks := [Asked(Wizarr), Asked(Libraries)];
      ghost var rest := FulfilPlan(store, session, customer, email.value, tier, ans);
      ok := PerformAll(asks);
      if !ok {
        ThenDead(w, asks, rest);
        return;
      }
      AsksKeepTables(w, asks);
      Then(w, asks, Now(), rest);
      ok := Fulfil(session, customer, email.value, tier, snapshot, tag, ans);
    }

    /** The checkout once nobody's ban stops it: the tag and the snapshot were read before anything is written. */
    method Fulfil(session: Option<string>, customer: Option<string>, email: Address, tier: Tier, snapshot: Snapshot,
                  tag: Option<Tag>, ans: Answers)
      returns (ok: bool)
      requires snapshot == SnapshotOf(db.State(), ans)
               && tag == TagOf(db.State(), Resolve(snapshot, db.rows, customer, Some(email)))
      modifies this, db
      ensures Now() == Execute(old(Now()), FulfilPlan(old(db.State()), session, customer, email, tier, ans))
      ensures ok == !dead
    {
      ghost var w, store := Now(), db.State();
      hide Act, Execute, SnapshotOf, Resolve, TagOf, Inviting, Issuing, CheckoutRetiring, Resetting;
      var key := SessionKey(session);
      ghost var inviting := Inviting(store, key, customer, email, tier, true, ans);
      ghost var issuing := Issuing(store, key, customer, email, tier, true, ans);
      ghost var after := CheckoutRetiring(customer, ans) + CheckoutResetting(store, issuing, customer, email, ans);
      ok := Invite(key, customer, email, tier, true, ans);
      if !ok {
        ThenDead(w, inviting, after);
        return;
      }
      Then(w, inviting, Now(), after);
      LiveStore(w, inviting);
      InvitingWritesOneRow(store, key, customer, email, tier, true, ans);
      hide After;
      ok := RetireAndReset(customer, email, snapshot, tag, ans);
    }

    method RetireAndReset(customer: Option<string>, email: Address, snapshot: Snapshot, tag: Option<Tag>, ans: Answers)
      returns (ok: bool)
      modifies this, db
      ensures Now() == Execute(old(Now()), CheckoutRetiring(customer, ans)
                + if HoldsStandingGrant(tag) then []
                  else Resetting(Resolve(snapshot, old(db.rows), customer, Some(email)), ans))
      ensures ok == !dead
    {
      ghost var w := Now();
      hide Act, Execute, Resolve, CheckoutRetiring, Resetting;
      ghost var resetting := if HoldsStandingGrant(tag) then []
          else Resetting(Resolve(snapshot, db.rows, customer, Some(email)), ans);
      ok := RetireForCheckout(customer, ans);
      if !ok {
        ThenDead(w, CheckoutRetiring(customer, ans), resetting);
        return;
      }
      Then(w, CheckoutRetiring(customer, ans), Now(), resetting);
      LiveStore(w, CheckoutRetiring(customer, ans));
      RetiringWritesNoRow(customer, ans);
      RowsStay(w.store, CheckoutRetiring(customer, ans));
      if HoldsStandingGrant(tag) {
        Nothing(Now());
        return;
      }
      ok := RescopeAndStamp(Resolve(snapshot, db.rows, customer, Some(email)), ans);
    }

    /** Invites a paid-up member with no records again, once per invoice. */
    method RestoreAccess(invoice: Option<string>, customer: Option<string>, email: Address, ans: Answers)
      returns (ok: bool)
      modifies this, db
      ensures Now() == Execute(old(Now()), Restoring(old(db.State()), invoice, customer, email, ans))
      ensures ok == !dead
    {
      ghost var w := Now();
      hide Act, Execute, Inviting;
      if invoice.None? {
        Once(w, Died);
        ok := Perform(Died);
        return;
      }
      var tier, key := TierAt(db.rows, email), KeyOf(Some(Recovery(invoice.value)));
      ghost var inviting := Inviting(db.State(), key, customer, email, tier, false, ans);
      ok := PerformAll([Asked(Libraries)]);
      if !ok {
        ThenDead(w, [Asked(Libraries)], inviting);
        return;
      }
      AsksKeepTables(w, [Asked(Libraries)]);
      Then(w, [Asked(Libraries)], Now(), inviting);
      ok := Invite(key, customer, email, tier, false, ans);
    }

    method Renew(invoice: Option<string>, customer: string, email: Address, ans: Answers) returns (ok: bool)
      modifies this, db
      ensures Now() == Execute(old(Now()), Renewing(old(db.State()), invoice, customer, email, ans))
      ensures ok == !dead
    {
      ghost var w, store := Now(), db.State();
      hide Act, Execute, SnapshotOf, Resolve, TagOf, Restoring;
      var person := Resolve(SnapshotOf(db.State(), ans), db.rows, Some(customer), Some(email));
      var tag := TagOf(db.State(), person);
      if IsBanned(tag) {
        Nothing(w);
        return !dead;
      }
      var paid := SubscribedSet(email, true);
      ghost var rest := if HoldsStandingGrant(tag) then []
                        else if |person.records| > 0 then Stamping(person.records, ans)
                        else Restoring(Write(store, paid), invoice, Some(customer), email, ans);
      ok := PerformAll([paid]);
      if !ok {
        ThenDead(w, [paid], rest);
        return;
      }
      LiveStore(w, [paid]);
      AfterOne(store, paid);
      Then(w, [paid], Now(), rest);
      if HoldsStandingGrant(tag) {
        Nothing(Now());
      } else if |person.records| > 0 {
        ok := PerformAll(Stamping(person.records, ans));
      } else {
        ok := RestoreAccess(invoice, Some(customer), email, ans);
      }
    }

    /** Settles any dunning, then extends a renewal's access or restores it. */
    method OnInvoicePaid(invoice: Option<string>, customer: Option<string>, own: Option<Address>, first: bool,
                         ans: Answers) returns (ok: bool)
      modifies this, db
      ensures Now() == Execute(old(Now()), InvoicePaidPlan(old(db.State()), invoice, customer, own, first, ans))
      ensures ok == !dead
    {
      ghost var w, store := Now(), db.State();
      if customer.None? {
        Once(w, Died);
        ok := Perform(Died);
        return;
      }
      hide Act, Execute, PayerAsks, PayerEmail, InvoicePaidRest;
      ghost var asks := PayerAsks(store.rows, own, customer);
      var email: Option<Address>;
      ok, email := Payer(own, customer, ans);
      ghost var rest := InvoicePaidRest(store, invoice, customer.value, email, first, ans);
      if !ok {
        ThenDead(w, asks, rest);
        return;
      }
      Then(w, asks, Now(), rest);
      ok := Settle(invoice, customer.value, email, first, ans);
    }

    method Settle(invoice: Option<string>, customer: string, email: Option<Address>, first: bool, ans: Answers)
      returns (ok: bool)
      modifies this, db
      ensures Now() == Execute(old(Now()), InvoicePaidRest(old(db.State()), invoice, customer, email, first, ans))
      ensures ok == !dead
    {
      ghost var w, store := Now(), db.State();
      hide Act, Execute, RenewedRest, Write;
      ghost var settling := if email.Some? then [PaymentStateSet(email.value, false)] else [];
      ghost var settledStore := if email.Some? then Write(store, PaymentStateSet(email.value, false)) else store;
      ghost var rest := if first then [] else RenewedRest(settledStore, invoice, customer, email, ans);
      if email.Some? {
        ok := PerformAll([PaymentStateSet(email.value, false)]);
        if !ok {
          ThenDead(w, settling, rest);
          return;
        }
        LiveStore(w, settling);
        AfterOne(store, PaymentStateSet(email.value, false));
      } else {
        ok := !dead;
        Nothing(w);
      }
      Then(w, settling, Now(), rest);
      if first {
        Nothing(Now());
        return;
      }
      ok := RenewOrStamp(invoice, customer, email, ans);
    }

    method RenewOrStamp(invoice: Option<string>, customer: string, email: Option<Address>, ans: Answers)
      returns (ok: bool)
      modifies this, db
      ensures Now() == Execute(old(Now()), RenewedRest(old(db.State()), invoice, customer, email, ans))
      ensures ok == !dead
    {
      ghost var w, store := Now(), db.State();
      hide Act, Execute, SnapshotOf, Resolve, Renewing;
      ghost var rest := if email.None?
          then Stamping(Resolve(SnapshotOf(store, ans), store.rows, Some(customer), None).records, ans)
                        else Renewing(store, invoice, customer, email.value, ans);
      ok := PerformAll([Asked(Wizarr)]);
      if !ok {
        ThenDead(w, [Asked(Wizarr)], rest);
        return;
      }
      AsksKeepTables(w, [Asked(Wizarr)]);
      Then(w, [Asked(Wizarr)], Now(), rest);
      if email.None? {
        ok := PerformAll(Stamping(Resolve(SnapshotOf(db.State(), ans), db.rows, Some(customer), None).records, ans));
        return;
      }
      ok := Renew(invoice, customer, email.value, ans);
    }

    /** The first live customer recorded at an address besides one, with the one question it takes. */
    method Sibling(email: Address, deadCustomer: string, ans: Answers) returns (ok: bool, sibling: Option<string>)
      modifies this, db
      ensures Now() == Execute(old(Now()), SiblingAsks(old(db.rows), email, deadCustomer))
      ensures ok == !dead && (ok ==> db.State() == old(db.State()))
      ensures sibling == LiveSibling(old(db.rows), email, deadCustomer, ans)
    {
      hide Siblings;
      var siblings := Siblings(db.rows, email, deadCustomer);
      if |siblings| == 0 {
        return !dead, None;
      }
      sibling := First((customer: string) => IsLive(BestStatus(ans.allSubscriptions, customer)), siblings);
      Once(Now(), Asked(StripeSubscriptions));
      ok := Perform(Asked(StripeSubscriptions));
    }

    /** Flags a payer as past due and says so; a charge on a duplicate of a paying customer is cancelled instead. */
    method OnPaymentFailed(customer: Option<string>, own: Option<Address>, ans: Answers) returns (ok: bool)
      modifies this, db
      ensures Now() == Execute(old(Now()), PaymentFailedPlan(old(db.State()), customer, own, ans))
      ensures ok == !dead
    {
      ghost var w, store := Now(), db.State();
      hide Act, Execute, PayerAsks, PayerEmail, SiblingAsks, LiveSibling, Retiring, RetirementOf;
      ghost var asks := PayerAsks(store.rows, own, customer);
      var email: Option<Address>;
      ok, email := Payer(own, customer, ans);
      if email.None? {
        assert asks + [] == asks;
        return;
      }
      ghost var siblingAsks := if customer.Some? then SiblingAsks(store.rows, email.value, customer.value) else [];
      ghost var found := if customer.Some? then LiveSibling(store.rows, email.value, customer.value, ans) else None;
      ghost var rest := if found.Some?
          then Retiring(ans, found.value) + (if RetirementOf(ans, found.value) != Retired then [Alerted] else [])
                        else [PaymentStateSet(email.value, true), Asked(Wizarr), Alerted]
                             + if ans.settings.billingPortal then [MemberNotified(email.value)] else [];
      assert PaymentFailedPlan(store, customer, own, ans) == asks + (siblingAsks + rest);
      if !ok {
        ThenDead(w, asks, siblingAsks + rest);
        return;
      }
      ghost var asked := Now();
      Then(w, asks, asked, siblingAsks + rest);
      var sibling := None;
      if customer.Some? {
        ok, sibling := Sibling(email.value, customer.value, ans);
        if !ok {
          ThenDead(asked, siblingAsks, rest);
          return;
        }
      } else {
        Nothing(asked);
      }
      Then(asked, siblingAsks, Now(), rest);
      if sibling.Some? {
        ok := RetireOrAlert(sibling.value, ans);
        return;
      }
      ok := PerformAll([PaymentStateSet(email.value, true), Asked(Wizarr), Alerted]
                       + if ans.settings.billingPortal then [MemberNotified(email.value)] else []);
    }

    method RetireOrAlert(payingUnder: string, ans: Answers) returns (ok: bool)
      modifies this, db
      ensures Now() == Execute(old(Now()),
                               Retiring(ans, payingUnder)
                               + if RetirementOf(ans, payingUnder) != Retired then [Alerted] else [])
      ensures ok == !dead
    {
      ghost var w := Now();
      hide Act, Execute, Retiring, RetirementOf;
      var status: Retirement;
      ok, status := RetireDuplicates(payingUnder, ans);
      ghost var alert := if RetirementOf(ans, payingUnder) != Retired then [Alerted] else [];
      if !ok {
        ThenDead(w, Retiring(ans, payingUnder), alert);
        return;
      }
      Then(w, Retiring(ans, payingUnder), Now(), alert);
      if status != Retired {
        Once(Now(), Alerted);
        ok := Perform(Alerted);
      } else {
        Nothing(Now());
      }
    }

    /** Mirrors a subscription's new status onto the dunning flag. */
    method OnSubscriptionUpdated(customer: Option<string>, own: Option<Address>, status: string, ans: Answers)
      returns (ok: bool)
      modifies this, db
      ensures Now() == Execute(old(Now()), UpdatedPlan(old(db.State()), customer, own, status, ans))
      ensures ok == !dead
    {
      ghost var w, store := Now(), db.State();
      hide Act, Execute, PayerAsks, PayerEmail;
      ghost var asks := PayerAsks(store.rows, own, customer);
      var email: Option<Address>;
      ok, email := Payer(own, customer, ans);
      var rule := RuleOf(status);
      var setting := if email.Some? && rule.Some? then [PaymentStateSet(email.value, rule.value.pastDue)] else [];
      if !ok {
        ThenDead(w, asks, setting);
        return;
      }
      Then(w, asks, Now(), setting);
      ok := PerformAll(setting);
    }

    /** Disables the member's records, unless somebody still pays for them. */
    method OnSubscriptionDeleted(customer: Option<string>, own: Option<Address>, ans: Answers) returns (ok: bool)
      modifies this, db
      ensures Now() == Execute(old(Now()), DeletedPlan(old(db.State()), customer, own, ans))
      ensures ok == !dead
    {
      ghost var w, store := Now(), db.State();
      if customer.None? {
        Once(w, Died);
        ok := Perform(Died);
        return;
      }
      hide Act, Execute, PayerAsks, PayerEmail, DeletedRest, UnknownRest;
      ghost var asks := PayerAsks(store.rows, own, customer);
      var email: Option<Address>;
      ok, email := Payer(own, customer, ans);
      ghost var rest := if email.None? then UnknownRest(store, customer.value, ans)
          else DeletedRest(store, customer.value, email.value, ans);
      if !ok {
        ThenDead(w, asks, rest);
        return;
      }
      Then(w, asks, Now(), rest);
      if email.None? {
        ok := CancelUnknown(customer.value, ans);
      } else {
        ok := CancelFor(customer.value, email.value, ans);
      }
    }

    method CancelUnknown(customer: string, ans: Answers) returns (ok: bool)
      modifies this, db
      ensures Now() == Execute(old(Now()), UnknownRest(old(db.State()), customer, ans))
      ensures ok == !dead
    {
      ghost var w, store := Now(), db.State();
      hide Act, Execute, SnapshotOf, Resolve;
      ghost var disabling := Disabling(Resolve(SnapshotOf(store, ans), store.rows, Some(customer), None).records);
      ok := PerformAll([Asked(Wizarr)]);
      if !ok {
        ThenDead(w, [Asked(Wizarr)], disabling);
        return;
      }
      AsksKeepTables(w, [Asked(Wizarr)]);
      Then(w, [Asked(Wizarr)], Now(), disabling);
      ok := PerformAll(Disabling(Resolve(SnapshotOf(db.State(), ans), db.rows, Some(customer), None).records));
    }

    method CancelFor(customer: string, email: Address, ans: Answers) returns (ok: bool)
      modifies this, db
      ensures Now() == Execute(old(Now()), DeletedRest(old(db.State()), customer, email, ans))
      ensures ok == !dead
    {
      ghost var w, store := Now(), db.State();
      hide Act, Execute, SiblingAsks, LiveSibling, Cutting, Write, DeletedRest;
      DeletedShape(store, customer, email, ans);
      ghost var siblingAsks := SiblingAsks(store.rows, email, customer);
      var sibling: Option<string>;
      ok, sibling := Sibling(email, customer, ans);
      var flag := if sibling.Some? then PaymentStateSet(email, false) else SubscribedSet(email, false);
      ghost var rest := [flag] + ([Asked(Wizarr)] + Cutting(Write(store, flag), customer, email, sibling, ans));
      if !ok {
        ThenDead(w, siblingAsks, rest);
        return;
      }
      Then(w, siblingAsks, Now(), rest);
      ok := FlagAndCut(customer, email, flag, sibling, ans);
    }

    method FlagAndCut(customer: string, email: Address, flag: Effect, sibling: Option<string>, ans: Answers)
      returns (ok: bool)
      modifies this, db
      ensures Now() == Execute(old(Now()),
                               [flag] + ([Asked(Wizarr)]
                                         + Cutting(Write(old(db.State()), flag), customer, email, sibling, ans)))
      ensures ok == !dead
    {
      ghost var w, store := Now(), db.State();
      hide Act, Execute, Cutting, Write;
      ghost var cutting := Cutting(Write(store, flag), customer, email, sibling, ans);
      ok := PerformAll([flag]);
      if !ok {
        ThenDead(w, [flag], [Asked(Wizarr)] + cutting);
        return;
      }
      LiveStore(w, [flag]);
      AfterOne(store, flag);
      ghost var flagged := Now();
      Then(w, [flag], flagged, [Asked(Wizarr)] + cutting);
      ok := PerformAll([Asked(Wizarr)]);
      if !ok {
        ThenDead(flagged, [Asked(Wizarr)], cutting);
        return;
      }
      AsksKeepTables(flagged, [Asked(Wizarr)]);
      Then(flagged, [Asked(Wizarr)], Now(), cutting);
      ok := Cut(customer, email, sibling, ans);
    }

    method Cut(customer: string, email: Address, sibling: Option<string>, ans: Answers) returns (ok: bool)
      modifies this, db
      ensures Now() == Execute(old(Now()), Cutting(old(db.State()), customer, email, sibling, ans))
      ensures ok == !dead
    {
      hide Act, SnapshotOf, Resolve, TagOf, SubscribedElsewhere;
      var person := Resolve(SnapshotOf(db.State(), ans), db.rows, Some(customer), Some(email));
      if HoldsStandingGrant(TagOf(db.State(), person)) {
        return !dead;
      }
      if sibling.Some? || SubscribedElsewhere(db.rows, email, person) {
        return !dead;
      }
      ok := PerformAll(Disabling(person.records));
    }

    method Handle(event: Event, ans: Answers) returns (ok: bool)
      modifies this, db
      ensures Now() == Execute(old(Now()), EventPlan(old(db.State()), event, ans))
      ensures ok == !dead
    {
      hide Act, Execute, CheckoutPlan, InvoicePaidPlan, PaymentFailedPlan, UpdatedPlan, DeletedPlan;
      match event
      case CheckoutCompleted(session, customer, email, tier) =>
        ok := OnCheckoutCompleted(session, customer, email, tier, ans);
      case InvoicePaid(invoice, customer, email, first) => ok := OnInvoicePaid(invoice, customer, email, first, ans);
      case PaymentFailed(customer, email) => ok := OnPaymentFailed(customer, email, ans);
      case SubscriptionUpdated(customer, email, status) => ok := OnSubscriptionUpdated(customer, email, status, ans);
      case SubscriptionDeleted(customer, email) => ok := OnSubscriptionDeleted(customer, email, ans);
      case OtherEvent =>
        Nothing(Now());
        ok := !dead;
    }

    /** One delivery, from a process started afresh: the event is marked only once its handler is through. */
    method HandleEvent(id: Option<string>, event: Event, ans: Answers, calls: nat) returns (ok: bool)
      modifies this, db
      ensures Now() == Deliver(old(Now()), Delivered(id, event, ans, calls))
      ensures ok == !dead
    {
      fuel, dead := calls, false;
      ghost var w, store := Now(), db.State();
      hide Act, Execute, EventPlan;
      if id.Some? && id.value in db.processed {
        Nothing(w);
        return true;
      }
      ghost var handling := EventPlan(store, event, ans);
      ghost var marking := if id.Some? then [Processed(id.value)] else [];
      ok := Handle(event, ans);
      if !ok {
        ThenDead(w, handling, marking);
        return;
      }
      Then(w, handling, Now(), marking);
      if id.Some? {
        Once(Now(), Processed(id.value));
        ok := Perform(Processed(id.value));
      } else {
        Nothing(Now());
      }
    }
  }

  /** What the queue starts next once the job before it has settled: a delivery, or an admin's change. */
  method Settled(p: Process, step: Step)
    modifies p, p.db
    ensures p.Now() == Deliver(old(p.Now()), step)
  {
    match step
    case Delivered(id, event, answers, calls) =>
      var ok := p.HandleEvent(id, event, answers, calls);
    case Administered(rows, tags, links) =>
      p.db.rows, p.db.tags, p.db.links := rows, tags, links;
  }

  /** `serialQueue`: each job starts where the one before it left off, however that one ended. */
  method RunQueue(p: Process, steps: seq<Step>)
    modifies p, p.db
    ensures p.Now() == Run(old(p.Now()), steps)
  {
    ghost var w := p.Now();
    hide Deliver;
    for i := 0 to |steps|
      invariant p.Now() == Run(w, steps[..i])
    {
      assert steps[..i + 1][..i] == steps[..i] && steps[..i + 1][i] == steps[i];
      Settled(p, steps[i]);
    }
    assert steps[..|steps|] == steps;
  }

  lemma DeletedShape(store: Store, customer: string, email: Address, ans: Answers)
    ensures var sibling := LiveSibling(store.rows, email, customer, ans);
            var flag := if sibling.Some? then PaymentStateSet(email, false) else SubscribedSet(email, false);
            DeletedRest(store, customer, email, ans)
            == SiblingAsks(store.rows, email, customer)
               + ([flag] + ([Asked(Wizarr)] + Cutting(Write(store, flag), customer, email, sibling, ans)))
  {
    hide SiblingAsks, LiveSibling, Cutting, Write;
  }

  lemma Nothing(w: World)
    ensures Execute(w, []) == w
  {
  }

  lemma AfterOne(store: Store, effect: Effect)
    ensures After(store, [effect]) == Write(store, effect)
  {
    assert [effect][1..] == [];
  }

  /** Asking a service changes no table. */
  lemma {:induction false} AsksKeepTables(w: World, asks: Effects)
    requires forall effect | effect in asks :: effect.Asked?
    ensures Execute(w, asks).store == w.store
    decreases |asks|
  {
    if |asks| > 0 {
      assert asks[0] in asks && forall effect | effect in asks[1..] :: effect in asks;
      AsksKeepTables(Act(w, asks[0]), asks[1..]);
    }
  }

  /** Delivering changes no row, so inviting leaves the rows that issuing left. */
  lemma InvitingWritesOneRow(store: Store, key: Option<string>, customer: Option<string>, email: Address, tier: Tier,
                             settles: bool, ans: Answers)
    ensures After(store, Inviting(store, key, customer, email, tier, settles, ans)).rows
            == After(store, Issuing(store, key, customer, email, tier, settles, ans)).rows
  {
    var issuing, delivering := Issuing(store, key, customer, email, tier, settles, ans),
                               Delivering(store, key, email, IssuedCode(store, key, ans));
    AfterConcat(store, issuing, delivering);
    hide Issuing, IssuedCode, AlreadyMailed;
    RowsStay(After(store, issuing), delivering);
  }
}
