/**
 * A member who returns to an older customer: deliveries that leave a table where the guard across
 * addresses looks at the wrong row, and what the next deletion then takes away.
 */
module ReturningMembers {
  import opened Options
  import opened Identity
  import opened Standing
  import opened BridgeStore
  import opened WebhookPlans
  import opened Delivery
  import opened TagRules
  import opened Outcomes
  import opened Duplicates
  import Resolutions

  // ---------------------------------------------------------------- where the guard is blind

  /** What `e` and `o` have bought by the time cus_3 ends: cus_1 was the first customer at `e` and the last to pay. */
  function ReturningMember(): Store {
    Store([Row("cus_1", "e", Some("I4"), Some(Gold), Some(5), true, false),
           Row("cus_2", "e", Some("I2"), Some(Gold), Some(2), false, false),
           Row("cus_3", "o", Some("I3"), Some(Gold), Some(3), true, false)],
          map[], {}, map[], map["o" := "e"])
  }

  function OtherAddressEnds(): Step {
    Delivered(None, SubscriptionDeleted(Some("cus_3"), Some("o")),
              Answers(Settings(30, false), 0, [Record(7, "e", "m", None, None)], [], {}, "",
                      [Subscription("s", "cus_1", "active")],
                      [], map[], map[], None, None), 9)
  }

  /**
   * The guard across addresses asks only the row that answers for an address. Without that row being
   * subscribed, a deletion at another address of a payer in good standing disables their records.
   */
  lemma AnOlderRowDoesNotGuard()
    ensures var store, step := ReturningMember(), OtherAddressEnds();
            && Concerns(store, step, "cus_1", "e") && PaysAt(store.rows, "cus_1", "e")
            && !Subscribed(store.rows, "e")
            && Disabled(7) in EventPlan(store, step.event, step.answers)
  {
    var store, step := ReturningMember(), OtherAddressEnds();
    ReturningMemberRows();
    ReturningMemberIs();
    ReturningMemberIsConcerned();
    var person := PersonOf(store, step.event, step.answers);
    assert person.records[0] in person.records && person.records[0].id == 7;
    ReturningMemberStands();
    CancellationCutsExactly(store, "cus_3", Some("o"), step.answers, person.records[0]);
    NobodyKeepsThem(store, step.answers);
    hide EventPlan, Concerns, PaysAt, PersonOf;
  }

  lemma NobodyKeepsThem(store: Store, ans: Answers)
    requires store == ReturningMember() && ans == OtherAddressEnds().answers
    ensures !Kept(store, "cus_3", Some("o"), ans)
  {
    ReturningMemberRows();
    ReturningMemberIs();
    ReturningMemberStands();
    NoSibling(store.rows, "o", "cus_3", ans);
    hide *;
    NothingKeeps(store, "cus_3", Some("o"), ans, "o", "e");
  }

  lemma ReturningMemberStands()
    ensures ReturningMember().tags == map[] && !Subscribed(ReturningMember().rows, "e")
    ensures PayerOf(ReturningMember(), SubscriptionDeleted(Some("cus_3"), Some("o")), OtherAddressEnds().answers)
            == Some("o")
    ensures OtherAddressEnds().event == SubscriptionDeleted(Some("cus_3"), Some("o"))
  {
    ReturningMemberRows();
    hide CustomerRow, Siblings, Mapping, CustomerIds;
  }

  lemma NoSibling(rows: seq<Row>, email: Address, dead: string, ans: Answers)
    requires Siblings(rows, email, dead) == []
    ensures LiveSibling(rows, email, dead, ans).None?
  {
    hide Siblings;
  }

  lemma NothingKeeps(store: Store, dead: string, own: Option<Address>, ans: Answers, payer: Address, other: Address)
    requires PayerOf(store, SubscriptionDeleted(Some(dead), own), ans) == Some(payer) && store.tags == map[]
    requires PersonOf(store, SubscriptionDeleted(Some(dead), own), ans).addresses == {other, payer}
    requires !Subscribed(store.rows, other) && LiveSibling(store.rows, payer, dead, ans).None?
    ensures !Kept(store, dead, own, ans)
  {
    hide PersonOf, PayerOf, Subscribed, LiveSibling;
  }

  lemma ReturningMemberIsConcerned()
    ensures Concerns(ReturningMember(), OtherAddressEnds(), "cus_1", "e")
            && PaysAt(ReturningMember().rows, "cus_1", "e")
  {
    var store, step := ReturningMember(), OtherAddressEnds();
    ReturningMemberIs();
    hide PersonOf;
    assert store.rows[0] in store.rows && step.answers.allSubscriptions[0] in step.answers.allSubscriptions;
  }

  lemma ReturningMemberRows()
    ensures var rows := ReturningMember().rows;
            && CustomerRow(rows, "e") == Some(rows[1])
            && CustomerIds(rows, "o") == ["cus_3"]
            && Siblings(rows, "o", "cus_3") == []
            && Mapping(rows, "cus_3") == Some(rows[2])
  {
    var rows := ReturningMember().rows;
    assert rows[..2][..1] == [rows[0]] && rows[..2] == [rows[0], rows[1]];
  }

  /** With no invitation listed, only the links an admin stated join anybody. */
  lemma NobodyRedeemed(s: Snapshot, code: Option<string>)
    requires s.invitations == []
    ensures RedeemerOf(s, code).None? && RedeemerAddress(s, code) == "" && ImpliedLinks(s) == map[]
  {
  }

  lemma ReturningMemberIs()
    ensures var person := PersonOf(ReturningMember(), OtherAddressEnds().event, OtherAddressEnds().answers);
            person.addresses == {"e", "o"} && person.records == [Record(7, "e", "m", None, None)]
  {
    var store, ans := ReturningMember(), OtherAddressEnds().answers;
    var s := SnapshotOf(store, ans);
    NobodyRedeemed(s, MappedCode(store.rows, Some("cus_3")));
    NobodyRedeemedHere(s);
    var links := MergedLinks(s);
    assert RecordsAt(s.users, "e") == s.users && RecordsAt(s.users, "o") == [];
    assert {"o", ""} - {""} == {"o"};
    BothAddresses(links);
    hide MergedLinks, ImpliedLinks, RedeemerAddress, RedeemerOf, Invites, MappedCode, LinkedTo, RecordsAt;
  }

  lemma NobodyRedeemedHere(s: Snapshot)
    requires s.invitations == [] && s.links == map["o" := "e"]
    ensures MergedLinks(s) == map["o" := "e"]
  {
    NobodyRedeemed(s, None);
    hide ImpliedLinks;
  }

  lemma BothAddresses(links: map<Address, Address>)
    requires links == map["o" := "e"]
    ensures LinkedTo(links, {"o"}) == {"e", "o"}
  {
    assert "o" in links && links["o"] == "e";
  }

  // ---------------------------------------------------------------- how such a table comes about

  /** Answers to somebody nobody knows yet: no records, no other customer, nothing live. */
  function FirstAnswers(code: string, at: int): Answers {
    Answers(Settings(30, false), at, [], [], {}, code, [], [], map[], map[], None, None)
  }

  function Buys(customer: string, email: Address, code: string, at: int): Step {
    Delivered(None, CheckoutCompleted(None, Some(customer), Some(email), Gold), FirstAnswers(code, at), 9)
  }

  function Ends(customer: string, email: Address, at: int): Step {
    Delivered(None, SubscriptionDeleted(Some(customer), Some(email)), FirstAnswers("", at), 9)
  }

  predicate Idle(effect: Effect) {
    effect.Asked? || effect.Minted? || effect.Mailed? || effect.Alerted?
  }

  predicate AllIdle(plan: Effects) {
    forall effect | effect in plan :: Idle(effect)
  }

  /** A live process with calls to spare makes them all, and idle ones change no table. */
  lemma {:induction false} IdleCalls(w: World, plan: Effects)
    requires !w.dead && w.fuel >= |plan| && AllIdle(plan)
    ensures var after := Execute(w, plan); after.store == w.store && !after.dead && after.fuel == w.fuel - |plan|
    decreases |plan|
  {
    if |plan| > 0 {
      assert plan[0] in plan && forall effect | effect in plan[1..] :: effect in plan;
      IdleCalls(Act(w, plan[0]), plan[1..]);
    }
  }

  /** One write among idle calls is all such a process does to the tables. */
  lemma OneWrite(w: World, before: Effects, effect: Effect, after: Effects)
    requires !w.dead && w.fuel >= |before| + 1 + |after| && !effect.Died? && AllIdle(before) && AllIdle(after)
    ensures Execute(w, before + [effect] + after).store == Write(w.store, effect)
  {
    var ready := Execute(w, before);
    IdleCalls(w, before);
    assert before + [effect] + after == before + ([effect] + after);
    ExecuteConcat(w, before, [effect] + after);
    assert ([effect] + after)[1..] == after;
    assert Execute(ready, [effect] + after) == Execute(Act(ready, effect), after);
    IdleCalls(Act(ready, effect), after);
  }

  lemma NobodyYet(store: Store, ans: Answers, customer: Option<string>, email: Option<Address>)
    requires ans.users == [] && ans.invitations == [] && store.tags == map[]
    ensures Resolve(SnapshotOf(store, ans), store.rows, customer, email).records == []
    ensures TagOf(store, Resolve(SnapshotOf(store, ans), store.rows, customer, email)).None?
  {
    hide MergedLinks, LinkedTo, Invites, Mapping;
  }

  lemma NothingToRetire(ans: Answers, customer: string)
    requires ans.customersAt == [] && ans.retirementThrowsAt.None?
    ensures Retiring(ans, customer) == [Asked(StripeListing)] && RetirementOf(ans, customer) == NoneToRetire
  {
  }

  function BeforeRow(code: string): Effects {
    [Asked(Wizarr), Asked(Libraries), Minted(None, code)]
  }

  function AfterRow(email: Address, code: string): Effects {
    [Mailed(None, email, code), Alerted, Asked(StripeListing)]
  }

  lemma BuyingPlan(store: Store, customer: string, email: Address, code: string, at: int)
    requires store.tags == map[]
    ensures CheckoutPlan(store, None, Some(customer), Some(email), Gold, FirstAnswers(code, at))
            == BeforeRow(code) + [RowWritten(Some(customer), email, code, Gold, at, true)] + AfterRow(email, code)
  {
    var ans := FirstAnswers(code, at);
    var issuing := Issuing(store, None, Some(customer), email, Gold, true, ans);
    var row := RowWritten(Some(customer), email, code, Gold, at, true);
    NobodyYet(store, ans, Some(customer), Some(email));
    KeylessInviting(store, customer, email, code, at);
    NothingToRetire(ans, customer);
    NobodyIsReset(store, issuing, customer, email, ans);
    assert !IsBanned(TagOf(store, CheckoutPerson(store, Some(customer), email, ans))) by {
      hide TagOf, Resolve, SnapshotOf;
    }
    assert CheckoutRetiring(Some(customer), ans) == [Asked(StripeListing)] by {
      hide Retiring, RetirementOf;
    }
    hide *;
    hide AfterRow, BeforeRow;
    Resolutions.PlanParts(store, None, Some(customer), email, Gold, ans);
    PartsInOrder(code, row, email);
  }

  lemma PartsInOrder(code: string, row: Effect, email: Address)
    ensures [Asked(Wizarr), Asked(Libraries)] + [Minted(None, code), row, Mailed(None, email, code), Alerted]
            + [Asked(StripeListing)] + []
            == BeforeRow(code) + [row] + AfterRow(email, code)
  {
  }

  lemma KeylessInviting(store: Store, customer: string, email: Address, code: string, at: int)
    ensures SessionKey(None) == None
    ensures Inviting(store, None, Some(customer), email, Gold, true, FirstAnswers(code, at))
            == [Minted(None, code), RowWritten(Some(customer), email, code, Gold, at, true), Mailed(None, email, code),
                Alerted]
  {
  }

  lemma NobodyIsReset(store: Store, issuing: Effects, customer: string, email: Address, ans: Answers)
    requires ans.users == [] && ans.invitations == []
    ensures CheckoutResetting(store, issuing, Some(customer), email, ans) == []
  {
    var person := Resolve(SnapshotOf(store, ans), After(store, issuing).rows, Some(customer), Some(email));
    assert person.records == [] by {
      hide MergedLinks, LinkedTo, Invites, Mapping, After;
    }
    hide Resolve, SnapshotOf, After, TagOf, CheckoutPerson;
  }

  lemma BuyingWrites(w: World, customer: string, email: Address, code: string, at: int)
    requires w.store.tags == map[]
    ensures Deliver(w, Buys(customer, email, code, at)).store
            == Write(w.store, RowWritten(Some(customer), email, code, Gold, at, true))
  {
    BuyingPlan(w.store, customer, email, code, at);
    assert AllIdle(BeforeRow(code)) && AllIdle(AfterRow(email, code));
    hide CheckoutPlan, Execute, Write, AllIdle;
    Carried(w, Buys(customer, email, code, at), BeforeRow(code),
            RowWritten(Some(customer), email, code, Gold, at, true), AfterRow(email, code));
  }

  lemma Carried(w: World, step: Step, before: Effects, effect: Effect, after: Effects)
    requires step.Delivered? && step.id.None?
             && EventPlan(w.store, step.event, step.answers) == before + [effect] + after
    requires step.fuel >= |before| + 1 + |after| && !effect.Died? && AllIdle(before) && AllIdle(after)
    ensures Deliver(w, step).store == Write(w.store, effect)
  {
    var plan := EventPlan(w.store, step.event, step.answers);
    hide EventPlan, Execute, Write;
    assert plan + [] == plan;
    OneWrite(w.(fuel := step.fuel, dead := false), before, effect, after);
  }

  lemma EndingPlan(store: Store, customer: string, email: Address, at: int)
    requires store.tags == map[]
    ensures var plan := DeletedPlan(store, Some(customer), Some(email), FirstAnswers("", at));
            plan == SiblingAsks(store.rows, email, customer) + [SubscribedSet(email, false)] + [Asked(Wizarr)]
  {
    var ans := FirstAnswers("", at);
    var flagged := Write(store, SubscribedSet(email, false));
    NobodyYet(flagged, ans, Some(customer), Some(email));
    hide Resolve, SnapshotOf, Write, SiblingAsks, Siblings, SubscribedElsewhere;
    assert forall c :: !IsLive(BestStatus(ans.allSubscriptions, c));
  }

  lemma EndingWrites(w: World, customer: string, email: Address, at: int)
    requires w.store.tags == map[]
    ensures Deliver(w, Ends(customer, email, at)).store == Write(w.store, SubscribedSet(email, false))
  {
    var step := Ends(customer, email, at);
    EndingPlan(w.store, customer, email, at);
    EndsIs(w.store, customer, email, at);
    AsksAreIdle(w.store.rows, email, customer);
    hide *;
    Carried(w, step, SiblingAsks(w.store.rows, email, customer), SubscribedSet(email, false), [Asked(Wizarr)]);
  }

  lemma EndsIs(store: Store, customer: string, email: Address, at: int)
    ensures var step := Ends(customer, email, at);
            && step.Delivered? && step.id.None? && step.fuel == 9
            && EventPlan(store, step.event, step.answers)
               == DeletedPlan(store, Some(customer), Some(email), FirstAnswers("", at))
  {
    hide DeletedPlan;
  }

  lemma AsksAreIdle(rows: seq<Row>, email: Address, customer: string)
    ensures AllIdle(SiblingAsks(rows, email, customer)) && |SiblingAsks(rows, email, customer)| <= 1
    ensures AllIdle([Asked(Wizarr)])
  {
    hide Siblings;
  }

  /** A row for a customer nobody knows goes last; the address's other rows are settled already. */
  lemma NewRow(store: Store, customer: string, email: Address, code: string, at: int)
    requires Unknown(store.rows, customer)
    ensures Write(store, RowWritten(Some(customer), email, code, Gold, at, true))
            == store.(rows := store.rows + [BoughtRow(customer, email, code, at)])
  {
    forall row | row in store.rows ensures row.customer != ADMIN_PREFIX + email {
      StripesOwn(row.customer, email);
    }
    KeepsAll((row: Row) => row.customer != ADMIN_PREFIX + email, store.rows);
    var rows := store.rows + [BoughtRow(customer, email, code, at)];
    AllSettled(rows, email);
  }

  lemma {:induction false} KeepsAll(keep: Row -> bool, rows: seq<Row>)
    requires forall row | row in rows :: keep(row)
    ensures Filter(keep, rows) == rows
    decreases |rows|
  {
    if |rows| > 0 {
      assert rows[0] in rows && forall row | row in rows[1..] :: row in rows;
      KeepsAll(keep, rows[1..]);
    }
  }

  function Ended(row: Row): Row {
    row.(subscribed := false)
  }

  /** Both customers at `e` come to read as ended. */
  lemma BothEnd(store: Store, first: Row, second: Row, third: Row)
    requires store.rows == [first, second, third]
    requires first.email == "e" && second.email == "e" && third.email == "o"
    ensures Write(store, SubscribedSet("e", false)) == store.(rows := [Ended(first), Ended(second), third])
  {
  }

  /** The older one then pays again, and its row stays where it was. */
  lemma OldRowAgain(store: Store, first: Row, second: Row, third: Row)
    requires store.rows == [first, second, third] && !second.pastDue && !third.pastDue && !first.pastDue
    requires first.customer == "cus_1" && second.customer == "cus_2" && third.customer == "cus_3"
    ensures Write(store, RowWritten(Some("cus_1"), "e", "I4", Gold, 5, true))
            == store.(rows := [BoughtRow("cus_1", "e", "I4", 5), second, third])
  {
    Names();
    FirstRowAgain(store, "cus_1", first, second, third);
  }

  lemma FirstRowAgain(store: Store, customer: string, first: Row, second: Row, third: Row)
    requires store.rows == [first, second, third] && !second.pastDue && !third.pastDue && !first.pastDue
    requires IsStripeCustomer(first.customer) && IsStripeCustomer(second.customer) && IsStripeCustomer(third.customer)
    requires customer == first.customer && second.customer != customer && third.customer != customer
    ensures Write(store, RowWritten(Some(customer), "e", "I4", Gold, 5, true))
            == store.(rows := [BoughtRow(customer, "e", "I4", 5), second, third])
  {
    var rows := store.rows;
    forall row | row in rows ensures row.customer != ADMIN_PREFIX + "e" {
      StripesOwn(row.customer, "e");
    }
    hide IsStripeCustomer;
    KeepsAll((row: Row) => row.customer != ADMIN_PREFIX + "e", rows);
    assert rows[0] in rows && rows[0].customer == customer;
    var upserted := UpsertPending(rows, customer, "e", "I4", Gold, 5);
    assert upserted == [BoughtRow(customer, "e", "I4", 5), second, third];
    hide UpsertPending;
    AllSettled(upserted, "e");
  }

  lemma AllSettled(rows: seq<Row>, email: Address)
    requires forall row | row in rows :: !row.pastDue
    ensures WithPaymentState(rows, email, false) == rows
  {
  }

  /** The member's story, up to an admin linking the two addresses. */
  function Story(): seq<Step> {
    [Buys("cus_1", "e", "I1", 1), Buys("cus_2", "e", "I2", 2), Buys("cus_3", "o", "I3", 3), Ends("cus_2", "e", 4),
     Buys("cus_1", "e", "I4", 5), Administered(ReturningMember().rows, map[], map["o" := "e"])]
  }

  /** The row a checkout leaves for a customer nobody knew. */
  function BoughtRow(customer: string, email: Address, code: string, at: int): Row {
    Row(customer, email, Some(code), Some(Gold), Some(at), true, false)
  }

  /** After three checkouts the table has the three rows, in the order their customers came. */
  lemma ThreeBought()
    ensures Run(EMPTY, Story()[..3]).store
            == EMPTY.store.(rows := [] + [BoughtRow("cus_1", "e", "I1", 1)] + [BoughtRow("cus_2", "e", "I2", 2)]
                                    + [BoughtRow("cus_3", "o", "I3", 3)])
  {
    var w1, w2 := Run(EMPTY, Story()[..1]), Run(EMPTY, Story()[..2]);
    Names();
    StorySteps();
    assert EMPTY.store.rows == [] && EMPTY.store.tags == map[];
    hide *;
    Bought(EMPTY, "cus_1", "e", "I1", 1);
    OneMoreKnown([], "cus_1", "e", "I1", 1, "cus_2");
    OneMoreKnown([], "cus_1", "e", "I1", 1, "cus_3");
    Bought(w1, "cus_2", "e", "I2", 2);
    OneMoreKnown(w1.store.rows, "cus_2", "e", "I2", 2, "cus_3");
    Bought(w2, "cus_3", "o", "I3", 3);
  }

  lemma OneByOne(first: Row, second: Row, third: Row)
    ensures [] + [first] + [second] + [third] == [first, second, third]
    ensures forall row :: Ended(row).customer == row.customer && Ended(row).pastDue == row.pastDue
  {
  }

  lemma TheirRows(first: Row, second: Row, third: Row)
    requires first == BoughtRow("cus_1", "e", "I1", 1) && second == BoughtRow("cus_2", "e", "I2", 2)
    requires third == BoughtRow("cus_3", "o", "I3", 3)
    ensures first.customer == "cus_1" && second.customer == "cus_2" && third.customer == "cus_3"
    ensures first.email == "e" && second.email == "e" && third.email == "o"
    ensures !first.pastDue && !second.pastDue && !third.pastDue
    ensures EMPTY.store.tags == map[]
    ensures EMPTY.store.(rows := [BoughtRow("cus_1", "e", "I4", 5), Ended(second), third])
            == ReturningMember().(links := map[])
  {
  }

  /** The table is one the bridge comes to by itself, but for the link. */
  lemma TheStoryLeadsThere()
    ensures Run(EMPTY, Story()[..5]).store == ReturningMember().(links := map[])
    ensures Run(EMPTY, Story()).store == ReturningMember()
  {
    var w3, w4, w5 := Run(EMPTY, Story()[..3]), Run(EMPTY, Story()[..4]), Run(EMPTY, Story()[..5]);
    var one, two := BoughtRow("cus_1", "e", "I1", 1), BoughtRow("cus_2", "e", "I2", 2);
    var three := BoughtRow("cus_3", "o", "I3", 3);
    ThreeBought();
    StorySteps();
    hide *;
    TheirRows(one, two, three);
    OneByOne(one, two, three);
    EndingWrites(w3, "cus_2", "e", 4);
    BothEnd(w3.store, one, two, three);
    BuyingWrites(w4, "cus_1", "e", "I4", 5);
    OldRowAgain(w4.store, Ended(one), Ended(two), three);
    LinkedLast(w5);
  }

  /** A customer of Stripe's that no row is for yet, in a table of such customers with nobody in dunning. */
  predicate Unknown(rows: seq<Row>, customer: string) {
    forall row | row in rows :: IsStripeCustomer(row.customer) && row.customer != customer && !row.pastDue
  }

  lemma StripesOwn(customer: string, email: Address)
    requires IsStripeCustomer(customer)
    ensures customer != ADMIN_PREFIX + email
  {
    assert customer[..4][0] == 'c' && (ADMIN_PREFIX + email)[0] == 'a';
  }

  lemma OneMoreKnown(rows: seq<Row>, customer: string, email: Address, code: string, at: int, next: string)
    requires Unknown(rows, next) && IsStripeCustomer(customer) && customer != next
    ensures Unknown(rows + [BoughtRow(customer, email, code, at)], next)
  {
    hide IsStripeCustomer;
  }

  lemma Names()
    ensures IsStripeCustomer("cus_1") && IsStripeCustomer("cus_2") && IsStripeCustomer("cus_3")
    ensures "cus_1" != "cus_2" && "cus_1" != "cus_3" && "cus_2" != "cus_3"
    ensures Unknown([], "cus_1") && Unknown([], "cus_2") && Unknown([], "cus_3")
  {
    assert "cus_1"[4] == '1' && "cus_2"[4] == '2' && "cus_3"[4] == '3';
  }

  /** Buying under a customer nobody knows adds its row. */
  lemma Bought(w: World, customer: string, email: Address, code: string, at: int)
    requires w.store.tags == map[] && Unknown(w.store.rows, customer)
    ensures Deliver(w, Buys(customer, email, code, at)).store
            == w.store.(rows := w.store.rows + [BoughtRow(customer, email, code, at)])
  {
    BuyingWrites(w, customer, email, code, at);
    NewRow(w.store, customer, email, code, at);
    hide Deliver, Write;
  }

  lemma LinkedLast(w: World)
    requires w.store == ReturningMember().(links := map[])
    ensures Deliver(w, Administered(ReturningMember().rows, map[], map["o" := "e"])).store == ReturningMember()
  {
  }

  lemma StorySteps()
    ensures Run(EMPTY, Story()[..1]) == Deliver(EMPTY, Buys("cus_1", "e", "I1", 1))
    ensures Run(EMPTY, Story()[..2]) == Deliver(Run(EMPTY, Story()[..1]), Buys("cus_2", "e", "I2", 2))
    ensures Run(EMPTY, Story()[..3]) == Deliver(Run(EMPTY, Story()[..2]), Buys("cus_3", "o", "I3", 3))
    ensures Run(EMPTY, Story()[..4]) == Deliver(Run(EMPTY, Story()[..3]), Ends("cus_2", "e", 4))
    ensures Run(EMPTY, Story()[..5]) == Deliver(Run(EMPTY, Story()[..4]), Buys("cus_1", "e", "I4", 5))
    ensures Run(EMPTY, Story())
            == Deliver(Run(EMPTY, Story()[..5]), Administered(ReturningMember().rows, map[], map["o" := "e"]))
  {
    StoryStep(0);
    StoryStep(1);
    StoryStep(2);
    StoryStep(3);
    StoryStep(4);
    StoryStep(5);
    StoryIs();
    hide *;
  }

  lemma StoryIs()
    ensures Story()[0] == Buys("cus_1", "e", "I1", 1) && Story()[1] == Buys("cus_2", "e", "I2", 2)
    ensures Story()[2] == Buys("cus_3", "o", "I3", 3) && Story()[3] == Ends("cus_2", "e", 4)
    ensures Story()[4] == Buys("cus_1", "e", "I4", 5)
    ensures Story()[5] == Administered(ReturningMember().rows, map[], map["o" := "e"]) && Story()[..6] == Story()
  {
    hide Buys, Ends, ReturningMember;
  }

  lemma StoryStep(n: nat)
    requires n < 6
    ensures Run(EMPTY, Story()[..n + 1]) == Deliver(Run(EMPTY, Story()[..n]), Story()[n])
    ensures Run(EMPTY, Story()[..0]) == EMPTY
  {
    hide Deliver;
    assert Story()[..n + 1][..n] == Story()[..n];
  }
}
