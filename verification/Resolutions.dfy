/**
 * A delivery may resolve its payer twice: a checkout looks again after it has written its row. What a
 * tag forbids over both looks, exactly when the second look slips past it, and whose rows can hide a payer.
 */
module Resolutions {
  import opened Options
  import opened Identity
  import opened Standing
  import opened BridgeStore
  import opened WebhookPlans
  import opened Delivery
  import opened TagRules
  import opened Outcomes

  // ---------------------------------------------------------------- the second look

  /** Wizarr answers a code that was on no invitation it listed before. */
  predicate FreshCode(ans: Answers) {
    forall invitation | invitation in ans.invitations :: invitation.code != ans.code
  }

  /** The code a checkout stores against its customer, known before it runs when its session is bound. */
  function CheckoutCode(store: Store, session: Option<string>, ans: Answers): string {
    IssuedCode(store, SessionKey(session), ans)
  }

  /** Who the event is about when its delivery looks for the last time. */
  function LastPerson(store: Store, event: Event, ans: Answers): Person {
    match event
    case CheckoutCompleted(session, Some(customer), Some(email), tier) =>
      Resolve(SnapshotOf(store, ans),
              After(store, Issuing(store, SessionKey(session), Some(customer), email, tier, true, ans)).rows,
              Some(customer), Some(email))
    case _ => PersonOf(store, event, ans)
  }

  lemma UpsertedCode(rows: seq<Row>, customer: string, email: Address, code: string, tier: Tier, at: int)
    ensures var row := Mapping(UpsertPending(rows, customer, email, code, tier, at), customer);
            row.Some? && row.value.code == Some(code)
  {
    var kept := Filter((row: Row) => row.customer != ADMIN_PREFIX + email, rows);
    var upserted := UpsertPending(rows, customer, email, code, tier, at);
    if row :| row in kept && row.customer == customer {
      var i :| 0 <= i < |kept| && kept[i] == row;
      assert upserted[i] in upserted && upserted[i].customer == customer;
    } else {
      assert upserted[|kept|] in upserted;
    }
  }

  /** After the row is written the customer's invite is the one this checkout issued. */
  lemma MappedAfterIssuing(store: Store, key: Option<string>, customer: string, email: Address, tier: Tier,
                           ans: Answers)
    ensures MappedCode(After(store, Issuing(store, key, Some(customer), email, tier, true, ans)).rows, Some(customer))
            == Some(IssuedCode(store, key, ans))
  {
    var code := IssuedCode(store, key, ans);
    var row := RowWritten(Some(customer), email, code, tier, ans.now, true);
    var settle := PaymentStateSet(email, false);
    RowsAfterIssuing(store, key, Some(customer), email, tier, ans);
    UpsertedCode(store.rows, customer, email, code, tier, ans.now);
    var upserted := UpsertPending(store.rows, customer, email, code, tier, ans.now);
    hide UpsertPending, IssuedCode, Issuing, Mapping;
    MappingFlagged(upserted, settle, customer);
    assert Write(store, row).rows == FlaggedRows(upserted, settle);
  }

  lemma RowsAfterIssuing(store: Store, key: Option<string>, customer: Option<string>, email: Address, tier: Tier,
                         ans: Answers)
    ensures var row := RowWritten(customer, email, IssuedCode(store, key, ans), tier, ans.now, true);
            After(store, Issuing(store, key, customer, email, tier, true, ans)).rows == Write(store, row).rows
  {
    hide IssuedCode;
    var row := RowWritten(customer, email, IssuedCode(store, key, ans), tier, ans.now, true);
    var minting := if key.Some? && key.value in store.bindings then []
                   else [Minted(key, ans.code)] + if key.Some? then [Bound(key.value, ans.code)] else [];
    AfterConcat(store, minting, [row]);
    RowsStay(store, minting);
    assert [row][1..] == [];
  }

  // ---------------------------------------------------------------- what each look sees

  /** The addresses joined to whoever redeemed an invite. */
  function Behind(store: Store, ans: Answers, code: Option<string>): set<Address> {
    LinkedTo(MergedLinks(SnapshotOf(store, ans)), {RedeemerAddress(SnapshotOf(store, ans), code)} - {""})
  }

  function JoinedTo(store: Store, ans: Answers, email: Address): set<Address> {
    LinkedTo(MergedLinks(SnapshotOf(store, ans)), {email} - {""})
  }

  lemma LinkedToUnion(links: map<Address, Address>, a: set<Address>, b: set<Address>)
    ensures LinkedTo(links, a + b) == LinkedTo(links, a) + LinkedTo(links, b)
  {
    assert (set seed | seed in a + b :: Owner(links, seed))
        == (set seed | seed in a :: Owner(links, seed)) + (set seed | seed in b :: Owner(links, seed));
  }

  /** A look finds the addresses joined to the payer and those joined to the invite's redeemer. */
  lemma LookSees(store: Store, ans: Answers, email: Address, code: Option<string>)
    ensures IdentityFor(SnapshotOf(store, ans), Some(email), code).addresses
            == JoinedTo(store, ans, email) + Behind(store, ans, code)
  {
    var s := SnapshotOf(store, ans);
    hide SnapshotOf, MergedLinks, LinkedTo, RedeemerAddress, RedeemerRecords;
    var redeemer := RedeemerAddress(s, code);
    LinkedToUnion(MergedLinks(s), {email} - {""}, {redeemer} - {""});
    assert {email, redeemer} - {""} == ({email} - {""}) + ({redeemer} - {""});
  }

  /** An invite somebody is found through leads to records. */
  lemma RedeemedHasRecords(s: Snapshot, email: Address, code: Option<string>)
    requires RedeemerAddress(s, code) != ""
    ensures |IdentityFor(s, Some(email), code).records| > 0
  {
    var record := RedeemerOf(s, code).value;
    assert record in RecordsAt(s.users, record.email);
    hide MergedLinks, LinkedTo, RedeemerOf, RecordsAt;
  }

  lemma GoverningUnion(tags: map<Address, Tag>, a: set<Address>, b: set<Address>)
    ensures Governing(tags, a + b)
            == if Ranked(Governing(tags, b)) > Ranked(Governing(tags, a)) then Governing(tags, b)
               else Governing(tags, a)
  {
    assert forall x :: x in a + b <==> x in a || x in b;
  }

  // ---------------------------------------------------------------- when the second look slips

  /**
   * A checkout whose session is already bound to an invite the customer's row no longer holds, when
   * that invite leads to an address tagged so and the first look found nobody tagged as strongly.
   */
  predicate Slips(store: Store, event: Event, ans: Answers, tag: Tag) {
    match event
    case CheckoutCompleted(Some(session), Some(customer), Some(email), tier) =>
      var key := OperationKey(Checkout(session));
      && key in store.bindings
      && MappedCode(store.rows, Some(customer)) != Some(store.bindings[key].code)
      && Governing(store.tags, Behind(store, ans, Some(store.bindings[key].code))) == Some(tag)
      && Ranked(TagOf(store, PersonOf(store, event, ans))) < Strength(tag)
    case _ => false
  }

  lemma NoTagBehindNobody(store: Store, ans: Answers, code: Option<string>)
    requires Governing(store.tags, Behind(store, ans, code)).Some?
    ensures RedeemerAddress(SnapshotOf(store, ans), code) != ""
  {
    hide SnapshotOf, RedeemerAddress, MergedLinks;
    if RedeemerAddress(SnapshotOf(store, ans), code) == "" {
      assert Behind(store, ans, code) == {} by {
        assert {""} - {""} == {};
        NoSeeds(MergedLinks(SnapshotOf(store, ans)));
      }
    }
  }

  lemma NoSeeds(links: map<Address, Address>)
    ensures LinkedTo(links, {}) == {}
  {
  }

  lemma FreshLeadsNowhere(store: Store, ans: Answers)
    requires FreshCode(ans)
    ensures RedeemerAddress(SnapshotOf(store, ans), Some(ans.code)) == ""
  {
  }

  /** The two looks of a checkout, each as the addresses it sees. */
  lemma TwoLooks(store: Store, session: Option<string>, customer: string, email: Address, tier: Tier, ans: Answers)
    ensures var event := CheckoutCompleted(session, Some(customer), Some(email), tier);
            && PersonOf(store, event, ans).addresses
               == JoinedTo(store, ans, email) + Behind(store, ans, MappedCode(store.rows, Some(customer)))
            && LastPerson(store, event, ans)
               == IdentityFor(SnapshotOf(store, ans), Some(email), Some(CheckoutCode(store, session, ans)))
            && LastPerson(store, event, ans).addresses
               == JoinedTo(store, ans, email) + Behind(store, ans, Some(CheckoutCode(store, session, ans)))
  {
    hide IdentityFor, SnapshotOf, MappedCode, After, Issuing, JoinedTo, Behind, IssuedCode;
    MappedAfterIssuing(store, SessionKey(session), customer, email, tier, ans);
    LookSees(store, ans, email, MappedCode(store.rows, Some(customer)));
    LookSees(store, ans, email, Some(CheckoutCode(store, session, ans)));
  }

  /** The last look finds a stronger tag than the first exactly when the checkout slips. */
  lemma SlipsMeans(store: Store, event: Event, ans: Answers, tag: Tag)
    requires FreshCode(ans)
    ensures Slips(store, event, ans, tag)
            <==> TagOf(store, LastPerson(store, event, ans)) == Some(tag)
                 && Ranked(TagOf(store, PersonOf(store, event, ans))) < Strength(tag)
    ensures Slips(store, event, ans, tag) ==> |LastPerson(store, event, ans).records| > 0
  {
    match event
    case CheckoutCompleted(session, Some(customer), Some(email), tier) =>
      CheckoutSlips(store, session, customer, email, tier, ans, tag);
    case _ =>
      hide PersonOf, TagOf;
  }

  lemma CheckoutSlips(store: Store, session: Option<string>, customer: string, email: Address, tier: Tier, ans: Answers,
                      tag: Tag)
    requires FreshCode(ans)
    ensures var event := CheckoutCompleted(session, Some(customer), Some(email), tier);
            && (Slips(store, event, ans, tag)
                <==> TagOf(store, LastPerson(store, event, ans)) == Some(tag)
                     && Ranked(TagOf(store, PersonOf(store, event, ans))) < Strength(tag))
            && (Slips(store, event, ans, tag) ==> |LastPerson(store, event, ans).records| > 0)
  {
    var event := CheckoutCompleted(session, Some(customer), Some(email), tier);
    var was, code := MappedCode(store.rows, Some(customer)), CheckoutCode(store, session, ans);
    TwoLooks(store, session, customer, email, tier, ans);
    GoverningUnion(store.tags, JoinedTo(store, ans, email), Behind(store, ans, was));
    GoverningUnion(store.tags, JoinedTo(store, ans, email), Behind(store, ans, Some(code)));
    hide PersonOf, LastPerson, MappedCode, Governing, Behind, JoinedTo, SnapshotOf, IdentityFor, RedeemerAddress;
    if Governing(store.tags, Behind(store, ans, Some(code))).Some? {
      NoTagBehindNobody(store, ans, Some(code));
      RedeemedHasRecords(SnapshotOf(store, ans), email, Some(code));
    }
    FreshLeadsNowhere(store, ans);
  }

  // ---------------------------------------------------------------- rows carry an address

  predicate Addressed(rows: seq<Row>) {
    forall row | row in rows :: row.email != ""
  }

  /** An event's own address is missing or is one. */
  predicate Named(event: Event) {
    !event.OtherEvent? ==> event.email != Some("")
  }

  /** With every row addressed, an event that names no payer is about nobody. */
  lemma UnnamedIsNobody(store: Store, event: Event, ans: Answers)
    requires Addressed(store.rows) && PayerOf(store, event, ans).None? && !event.CheckoutCompleted?
    ensures PersonOf(store, event, ans).records == [] && PersonOf(store, event, ans).addresses == {}
    ensures TagOf(store, PersonOf(store, event, ans)).None?
  {
    var customer := CustomerOf(event);
    assert MappedCode(store.rows, customer).None? by {
      if customer.Some? && Mapping(store.rows, customer.value).Some? {
        assert Mapping(store.rows, customer.value).value in store.rows;
      }
    }
    NobodyIsEmpty(SnapshotOf(store, ans));
  }

  lemma NobodyIsEmpty(s: Snapshot)
    ensures IdentityFor(s, None, None).records == [] && IdentityFor(s, None, None).addresses == {}
  {
    hide MergedLinks;
    assert {"", ""} - {""} == {};
    NoSeeds(MergedLinks(s));
  }

  // ---------------------------------------------------------------- both rules over both looks

  lemma UnbannedCheckoutGrants(store: Store, event: Event, ans: Answers)
    requires event.CheckoutCompleted? && event.email.Some? && !IsBanned(TagOf(store, PersonOf(store, event, ans)))
    ensures exists effect :: effect in EventPlan(store, event, ans) && Grants(effect)
  {
    CheckoutIsAllowed(store, None, event.session, event.customer, event.email, event.tier, ans);
    hide CheckoutPlan, IssuedCode, After;
    var row := RowWritten(event.customer, event.email.value, IssuedCode(store, SessionKey(event.session), ans),
                          event.tier, ans.now, true);
    assert row in EventPlan(store, event, ans) && Grants(row);
  }

  /** What a checkout nobody's tag stops does before it comes to the records. */
  function BeforeReset(store: Store, event: Event, ans: Answers): Effects
    requires event.CheckoutCompleted? && event.email.Some?
  {
    [Asked(Wizarr), Asked(Libraries)]
    + Inviting(store, SessionKey(event.session), event.customer, event.email.value, event.tier, true, ans)
    + CheckoutRetiring(event.customer, ans)
  }

  lemma FirstLook(store: Store, event: Event, ans: Answers)
    requires event.CheckoutCompleted? && event.email.Some?
    ensures PersonOf(store, event, ans) == CheckoutPerson(store, event.customer, event.email.value, ans)
  {
    hide Resolve, SnapshotOf;
  }

  /** An untagged checkout ends by resetting whoever its last look finds. */
  lemma CheckoutShape(store: Store, event: Event, ans: Answers)
    requires event.CheckoutCompleted? && event.email.Some? && IsTimeBoxed(TagOf(store, PersonOf(store, event, ans)))
    ensures EventPlan(store, event, ans)
            == BeforeReset(store, event, ans) + Resetting(LastPerson(store, event, ans), ans)
  {
    FirstLook(store, event, ans);
    ResetsTheLast(store, event, ans);
    hide PersonOf, TagOf, LastPerson, CheckoutPerson, Resetting;
    PlanParts(store, event.session, event.customer, event.email.value, event.tier, ans);
    hide CheckoutPlan, CheckoutResetting, Inviting, CheckoutRetiring, Issuing;
  }

  lemma PlanParts(store: Store, session: Option<string>, customer: Option<string>, email: Address, tier: Tier,
                  ans: Answers)
    requires !IsBanned(TagOf(store, CheckoutPerson(store, customer, email, ans)))
    ensures var key := SessionKey(session);
            CheckoutPlan(store, session, customer, Some(email), tier, ans)
            == [Asked(Wizarr), Asked(Libraries)] + Inviting(store, key, customer, email, tier, true, ans)
               + CheckoutRetiring(customer, ans)
               + CheckoutResetting(store, Issuing(store, key, customer, email, tier, true, ans), customer, email, ans)
  {
    hide CheckoutPerson, TagOf, Inviting, CheckoutRetiring, CheckoutResetting, Issuing;
  }

  lemma ResetsTheLast(store: Store, event: Event, ans: Answers)
    requires event.CheckoutCompleted? && event.email.Some?
    requires !HoldsStandingGrant(TagOf(store, CheckoutPerson(store, event.customer, event.email.value, ans)))
    ensures var issuing :=
              Issuing(store, SessionKey(event.session), event.customer, event.email.value, event.tier, true, ans);
            CheckoutResetting(store, issuing, event.customer, event.email.value, ans)
              == Resetting(LastPerson(store, event, ans), ans)
  {
    var email := event.email.value;
    var issuing := Issuing(store, SessionKey(event.session), event.customer, email, event.tier, true, ans);
    LastLook(store, event, ans);
    hide *;
    ResettingOf(store, issuing, event.customer, email, ans);
  }

  lemma ResettingOf(store: Store, issuing: Effects, customer: Option<string>, email: Address, ans: Answers)
    requires !HoldsStandingGrant(TagOf(store, CheckoutPerson(store, customer, email, ans)))
    ensures CheckoutResetting(store, issuing, customer, email, ans)
            == Resetting(Resolve(SnapshotOf(store, ans), After(store, issuing).rows, customer, Some(email)), ans)
  {
    hide Resolve, SnapshotOf, TagOf, After, Resetting, CheckoutPerson;
  }

  lemma LastLook(store: Store, event: Event, ans: Answers)
    requires event.CheckoutCompleted? && event.email.Some?
    ensures var issuing :=
              Issuing(store, SessionKey(event.session), event.customer, event.email.value, event.tier, true, ans);
            LastPerson(store, event, ans)
            == Resolve(SnapshotOf(store, ans), After(store, issuing).rows, event.customer, Some(event.email.value))
  {
    if event.customer.None? {
      SameLook(store, event, ans);
    }
    hide Resolve, SnapshotOf, After, Issuing, PersonOf;
  }

  lemma LastLookIsReset(store: Store, event: Event, ans: Answers, effect: Effect)
    requires event.CheckoutCompleted? && event.email.Some?
    requires IsTimeBoxed(TagOf(store, PersonOf(store, event, ans)))
             && effect in Resetting(LastPerson(store, event, ans), ans)
    ensures effect in EventPlan(store, event, ans)
  {
    CheckoutShape(store, event, ans);
    hide *;
  }

  lemma NothingTouchedBefore(store: Store, event: Event, ans: Answers)
    requires event.CheckoutCompleted? && event.email.Some?
    ensures forall effect | effect in BeforeReset(store, event, ans) :: !TouchesRecords(effect)
  {
    InvitingTouchesNoRecord(store, SessionKey(event.session), event.customer, event.email.value, event.tier, true, ans);
    if event.customer.Some? {
      RetiringOnlyFlags(ans, event.customer.value);
    }
    hide Inviting, Retiring, RetirementOf;
  }

  /** A checkout touches records in its reset alone. */
  lemma OnlyTheResetTouches(store: Store, event: Event, ans: Answers, effect: Effect)
    requires event.CheckoutCompleted? && event.email.Some? && IsTimeBoxed(TagOf(store, PersonOf(store, event, ans)))
    requires TouchesRecords(effect) && effect in EventPlan(store, event, ans)
    ensures effect in Resetting(LastPerson(store, event, ans), ans)
  {
    CheckoutShape(store, event, ans);
    NothingTouchedBefore(store, event, ans);
    hide *;
  }

  /** A checkout of no customer sees the same both times. */
  lemma SameLook(store: Store, event: Event, ans: Answers)
    requires event.CheckoutCompleted? && event.email.Some? && event.customer.None?
    ensures forall rows ::
              Resolve(SnapshotOf(store, ans), rows, event.customer, event.email) == LastPerson(store, event, ans)
  {
    hide IdentityFor, SnapshotOf;
  }

  /**
   * A checkout of somebody no tag exempts stamps every record its last look finds, or disables every one:
   * it stamps them exactly when they were found under the payer's own address and the tier covers them all.
   */
  lemma CheckoutResetsExactly(store: Store, event: Event, ans: Answers, record: Record)
    requires event.CheckoutCompleted? && event.email.Some? && IsTimeBoxed(TagOf(store, PersonOf(store, event, ans)))
    requires record in LastPerson(store, event, ans).records
    ensures Stamped(record.id, ans.now + ans.settings.accessDays * 86_400_000) in EventPlan(store, event, ans)
            <==> Covers(LastPerson(store, event, ans), ans.covered)
    ensures Disabled(record.id) in EventPlan(store, event, ans) <==> !Covers(LastPerson(store, event, ans), ans.covered)
  {
    var person := LastPerson(store, event, ans);
    ResetTouchesEveryRecord(person, ans, record);
    var stamp := Stamped(record.id, ans.now + ans.settings.accessDays * 86_400_000);
    hide EventPlan, PersonOf, LastPerson, Resetting, Covers, TagOf;
    forall effect | effect == stamp || effect == Disabled(record.id)
      ensures effect in EventPlan(store, event, ans) <==> effect in Resetting(person, ans)
    {
      if effect in EventPlan(store, event, ans) {
        OnlyTheResetTouches(store, event, ans, effect);
      } else if effect in Resetting(person, ans) {
        LastLookIsReset(store, event, ans, effect);
      }
    }
  }

  lemma CheckoutTouchesTheLast(store: Store, event: Event, ans: Answers)
    requires event.CheckoutCompleted? && event.email.Some? && event.customer.Some?
    requires IsTimeBoxed(TagOf(store, PersonOf(store, event, ans))) && |LastPerson(store, event, ans).records| > 0
    ensures exists effect :: effect in EventPlan(store, event, ans) && TouchesRecords(effect)
  {
    var person := LastPerson(store, event, ans);
    var resetting := Resetting(person, ans);
    ResettingParts(person, ans);
    hide Resetting, Covers, EventPlan, LastPerson, PersonOf;
    assert TouchesRecords(resetting[0]);
    LastLookIsReset(store, event, ans, resetting[0]);
  }

  /**
   * If anybody the delivery resolves is banned, nothing is minted, mailed, stamped or re-subscribed,
   * unless a stale session leads past the first look, and then something is.
   */
  lemma BanHoldsUnlessItSlips(store: Store, event: Event, ans: Answers)
    requires Addressed(store.rows) && FreshCode(ans)
    requires IsBanned(TagOf(store, PersonOf(store, event, ans)))
             || IsBanned(TagOf(store, LastPerson(store, event, ans)))
    ensures (forall effect | effect in EventPlan(store, event, ans) :: !Grants(effect))
            <==> !Slips(store, event, ans, Banned)
  {
    SlipsMeans(store, event, ans, Banned);
    if PayerOf(store, event, ans).None? {
      NoPayer(store, event, ans);
    } else {
      hide EventPlan, PayerOf, PersonOf, LastPerson, Slips, TagOf, Grants;
      if IsBanned(TagOf(store, PersonOf(store, event, ans))) {
        BannedPayerIsGrantedNothing(store, event, ans);
      } else {
        SecondLooker(store, event, ans);
        UnbannedCheckoutGrants(store, event, ans);
      }
    }
  }

  lemma NoPayer(store: Store, event: Event, ans: Answers)
    requires Addressed(store.rows) && PayerOf(store, event, ans).None?
    ensures event.CheckoutCompleted? ==> EventPlan(store, event, ans) == []
    ensures forall tag :: !Slips(store, event, ans, tag)
    ensures LastPerson(store, event, ans) == PersonOf(store, event, ans)
    ensures !event.CheckoutCompleted? ==> TagOf(store, PersonOf(store, event, ans)).None?
  {
    if !event.CheckoutCompleted? {
      UnnamedIsNobody(store, event, ans);
    }
    hide PersonOf, TagOf;
  }

  /** Only a checkout of a named customer looks twice. */
  lemma SecondLooker(store: Store, event: Event, ans: Answers)
    requires LastPerson(store, event, ans) != PersonOf(store, event, ans)
    ensures event.CheckoutCompleted? && event.email.Some? && event.customer.Some?
  {
  }

  /**
   * If anybody the delivery resolves is VIP, no record is disabled or stamped, unless a stale session
   * leads past the first look, and then some record is.
   */
  lemma VipHoldsUnlessItSlips(store: Store, event: Event, ans: Answers)
    requires Addressed(store.rows) && FreshCode(ans)
    requires HoldsStandingGrant(TagOf(store, PersonOf(store, event, ans)))
             || HoldsStandingGrant(TagOf(store, LastPerson(store, event, ans)))
    ensures (forall effect | effect in EventPlan(store, event, ans) :: !TouchesRecords(effect))
            <==> !Slips(store, event, ans, Vip)
  {
    SlipsMeans(store, event, ans, Vip);
    if PayerOf(store, event, ans).None? {
      NoPayer(store, event, ans);
    } else {
      var tag := TagOf(store, PersonOf(store, event, ans));
      hide EventPlan, PayerOf, PersonOf, LastPerson, Slips, TagOf, TouchesRecords;
      if HoldsStandingGrant(tag) {
        VipRecordsAreLeftAlone(store, event, ans);
      } else {
        SecondLooker(store, event, ans);
        if IsBanned(tag) {
          BannedCheckoutStops(store, event, ans);
        } else {
          CheckoutTouchesTheLast(store, event, ans);
        }
      }
    }
  }

  lemma BannedCheckoutStops(store: Store, event: Event, ans: Answers)
    requires event.CheckoutCompleted? && event.email.Some? && IsBanned(TagOf(store, PersonOf(store, event, ans)))
    ensures EventPlan(store, event, ans) == [Asked(Wizarr), Alerted]
  {
    hide Resolve, SnapshotOf, TagOf, FulfilPlan;
  }

  // ---------------------------------------------------------------- a session that slips

  const STALE_ANSWERS := Answers(
    Settings(30, false), 0, [Record(7, "p", "p", None, None)], [Invitation("I1", ById(7))], {}, "I3",
    [], [], map[], map[], None, None)

  const STALE_CHECKOUT := CheckoutCompleted(Some("sess1"), Some("cus_1"), Some("e"), Gold)

  /** The session was bound to one invite, and another has since been put on the customer's row. */
  function StaleStore(tag: Tag): Store {
    Store([Row("cus_1", "e", Some("I2"), Some(Gold), Some(0), true, false)],
          map["sess1" := Issuance("I1", true)], {}, map["p" := tag], map[])
  }

  lemma StaleRedeemers(tag: Tag)
    ensures var s := SnapshotOf(StaleStore(tag), STALE_ANSWERS);
            && RedeemerAddress(s, Some("I1")) == "p" && RedeemerAddress(s, Some("I2")) == ""
            && RedeemerRecords(s, Some("I1")) == STALE_ANSWERS.users
  {
    hide Invites;
    var s := SnapshotOf(StaleStore(tag), STALE_ANSWERS);
    assert RedeemerOf(s, Some("I1")) == Some(STALE_ANSWERS.users[0]);
    assert First((row: Invitation) => row.code == "I2", s.invitations).None?;
  }

  lemma StaleLinks(tag: Tag)
    ensures MergedLinks(SnapshotOf(StaleStore(tag), STALE_ANSWERS)) == map[]
  {
    var store := StaleStore(tag);
    var s := SnapshotOf(store, STALE_ANSWERS);
    StaleRedeemers(tag);
    StaleInvites(store.rows);
    hide Invites, RedeemerAddress;
  }

  lemma StaleInvites(rows: seq<Row>)
    requires rows == [Row("cus_1", "e", Some("I2"), Some(Gold), Some(0), true, false)]
    ensures Invites(rows) == map["e" := "I2"]
  {
    assert rows[0] in rows;
    assert CustomerRow(rows, "e") == Some(rows[0]);
  }

  lemma SeedsAlone(seeds: set<Address>)
    ensures LinkedTo(map[], seeds) == seeds
  {
  }

  lemma StaleJoins(tag: Tag)
    ensures JoinedTo(StaleStore(tag), STALE_ANSWERS, "e") == {"e"}
    ensures Behind(StaleStore(tag), STALE_ANSWERS, Some("I1")) == {"p"}
    ensures Behind(StaleStore(tag), STALE_ANSWERS, Some("I2")) == {}
  {
    StaleRedeemers(tag);
    StaleLinks(tag);
    hide MergedLinks, SnapshotOf, RedeemerAddress, LinkedTo;
    SeedsAlone({"e"});
    SeedsAlone({"p"});
    SeedsAlone({});
    assert {"e"} - {""} == {"e"} && {"p"} - {""} == {"p"} && {""} - {""} == {};
  }

  lemma StaleLooks(tag: Tag)
    ensures PersonOf(StaleStore(tag), STALE_CHECKOUT, STALE_ANSWERS).addresses == {"e"}
    ensures LastPerson(StaleStore(tag), STALE_CHECKOUT, STALE_ANSWERS).records == STALE_ANSWERS.users
    ensures LastPerson(StaleStore(tag), STALE_CHECKOUT, STALE_ANSWERS).via == ViaInvite
  {
    var store := StaleStore(tag);
    TwoLooks(store, Some("sess1"), "cus_1", "e", Gold, STALE_ANSWERS);
    StaleJoins(tag);
    StaleRedeemers(tag);
    hide LastPerson, PersonOf, Behind, JoinedTo, MergedLinks, Invites, LinkedTo, RedeemerRecords, RedeemerAddress;
    assert MappedCode(store.rows, Some("cus_1")) == Some("I2");
    assert RecordsAt(STALE_ANSWERS.users, "e") == [];
  }

  /** A VIP's record is disabled, and a banned member's row written, by a session left behind another invite. */
  lemma StaleSessionSlips(tag: Tag)
    ensures FreshCode(STALE_ANSWERS) && Addressed(StaleStore(tag).rows)
    ensures TagOf(StaleStore(tag), PersonOf(StaleStore(tag), STALE_CHECKOUT, STALE_ANSWERS)).None?
    ensures Slips(StaleStore(tag), STALE_CHECKOUT, STALE_ANSWERS, tag)
    ensures var plan := EventPlan(StaleStore(tag), STALE_CHECKOUT, STALE_ANSWERS);
            Disabled(7) in plan && RowWritten(Some("cus_1"), "e", "I1", Gold, 0, true) in plan
  {
    var store := StaleStore(tag);
    StaleLooks(tag);
    StaleJoins(tag);
    StaleTags(tag);
    StaleFulfils(tag);
    hide PersonOf, LastPerson, Behind, JoinedTo, EventPlan;
  }

  lemma StaleTags(tag: Tag)
    ensures Governing(StaleStore(tag).tags, {"e"}).None? && Governing(StaleStore(tag).tags, {"p"}) == Some(tag)
    ensures MappedCode(StaleStore(tag).rows, Some("cus_1")) == Some("I2")
  {
    assert "p" in {"p"};
  }

  lemma StaleFulfils(tag: Tag)
    ensures var plan := EventPlan(StaleStore(tag), STALE_CHECKOUT, STALE_ANSWERS);
            Disabled(7) in plan && RowWritten(Some("cus_1"), "e", "I1", Gold, 0, true) in plan
  {
    var store := StaleStore(tag);
    StaleLooks(tag);
    StaleTags(tag);
    StaleWrites(store);
    DisablingMeans(STALE_ANSWERS.users);
    ResettingParts(LastPerson(store, STALE_CHECKOUT, STALE_ANSWERS), STALE_ANSWERS);
    hide EventPlan, LastPerson, PersonOf, Resetting, Disabling, Governing;
    assert STALE_ANSWERS.users[0] in STALE_ANSWERS.users;
    LastLookIsReset(store, STALE_CHECKOUT, STALE_ANSWERS, Disabled(7));
  }

  lemma StaleWrites(store: Store)
    requires store.bindings == map["sess1" := Issuance("I1", true)]
    requires TagOf(store, PersonOf(store, STALE_CHECKOUT, STALE_ANSWERS)).None?
    ensures RowWritten(Some("cus_1"), "e", "I1", Gold, 0, true) in EventPlan(store, STALE_CHECKOUT, STALE_ANSWERS)
  {
    CheckoutIsAllowed(store, None, Some("sess1"), Some("cus_1"), Some("e"), Gold, STALE_ANSWERS);
    hide Resolve, SnapshotOf, CheckoutPlan, After;
  }

  // ---------------------------------------------------------------- a row with no address

  const BLANK_STORE := Store([Row("cus_1", "", Some("I1"), Some(Gold), Some(0), true, false)],
                             map[], {}, map["p" := Banned], map[])

  /** Only a row that carries an invite and no address can hide its payer: here a banned member is extended. */
  lemma BlankRowHidesItsPayer()
    ensures !Addressed(BLANK_STORE.rows)
    ensures var event := InvoicePaid(None, Some("cus_1"), None, false);
            && PayerOf(BLANK_STORE, event, STALE_ANSWERS).None?
            && IsBanned(TagOf(BLANK_STORE, PersonOf(BLANK_STORE, event, STALE_ANSWERS)))
            && exists effect :: effect in EventPlan(BLANK_STORE, event, STALE_ANSWERS) && effect.Stamped?
  {
    assert BLANK_STORE.rows[0] in BLANK_STORE.rows;
    var s := SnapshotOf(BLANK_STORE, STALE_ANSWERS);
    assert RedeemerOf(s, Some("I1")) == Some(STALE_ANSWERS.users[0]);
    assert {"", "p"} - {""} == {"p"};
    WithoutAPayerTagsAreSkipped(BLANK_STORE, None, "cus_1", None, STALE_ANSWERS);
    hide EventPlan, MergedLinks;
  }

  // ---------------------------------------------------------------- rows stay addressed

  predicate WritesAnAddress(effect: Effect) {
    effect.RowWritten? ==> effect.email != ""
  }

  predicate KeepsAddresses(step: Step) {
    match step
    case Delivered(_, event, _, _) => Named(event)
    case Administered(rows, _, _) => Addressed(rows)
  }

  lemma PlansWriteAddresses(store: Store, event: Event, ans: Answers)
    requires Named(event)
    ensures forall effect | effect in EventPlan(store, event, ans) :: WritesAnAddress(effect)
  {
    hide CheckoutPlan, InvoicePaidPlan, PaymentFailedPlan, UpdatedPlan, DeletedPlan;
    match event
    case CheckoutCompleted(session, customer, email, tier) =>
      CheckoutWritesAddresses(store, session, customer, email, tier, ans);
    case InvoicePaid(invoice, customer, own, first) =>
      RenewalWritesAddresses(store, invoice, customer, own, first, ans);
    case PaymentFailed(customer, own) =>
      PaymentFailedIsQuiet(store, customer, own, ans);
    case SubscriptionUpdated(customer, own, status) =>
      UpdatesWriteNoRow(store, customer, own, status, ans);
    case SubscriptionDeleted(customer, own) =>
      DeletionsWriteNoRow(store, customer, own, ans);
    case OtherEvent =>
  }

  lemma CheckoutWritesAddresses(store: Store, session: Option<string>, customer: Option<string>, email: Option<Address>,
                                tier: Tier, ans: Answers)
    requires email != Some("")
    ensures forall effect | effect in CheckoutPlan(store, session, customer, email, tier, ans) ::
              WritesAnAddress(effect)
  {
    hide CheckoutPerson, CheckoutRetiring, CheckoutResetting, Inviting, IssuedCode, Issuing, TagOf;
    if email.Some? {
      var key := SessionKey(session);
      InvitingTouchesOneRow(store, key, customer, email.value, tier, true, ans);
      RetiringWritesNoRow(customer, ans);
      CheckoutRestIsQuiet(store, Issuing(store, key, customer, email.value, tier, true, ans), customer, email.value,
                          ans);
    }
  }

  lemma RenewalWritesAddresses(store: Store, invoice: Option<string>, customer: Option<string>, own: Option<Address>,
                               first: bool, ans: Answers)
    requires own != Some("")
    ensures forall effect | effect in InvoicePaidPlan(store, invoice, customer, own, first, ans) ::
              WritesAnAddress(effect)
  {
    hide Renewing, Resolve, SnapshotOf, Write, MappedEmail;
    if customer.Some? {
      var email := PayerEmail(store.rows, own, customer, ans);
      PayersAreNamed(store.rows, own, customer, ans);
      hide PayerEmail;
      if email.Some? && !first {
        RenewingWritesAddresses(Write(store, PaymentStateSet(email.value, false)), invoice, customer.value, email.value,
                                ans);
      }
    }
  }

  lemma PayersAreNamed(rows: seq<Row>, own: Option<Address>, customer: Option<string>, ans: Answers)
    requires own != Some("")
    ensures PayerEmail(rows, own, customer, ans) != Some("")
  {
  }

  lemma RenewingWritesAddresses(paid: Store, invoice: Option<string>, customer: string, email: Address, ans: Answers)
    requires email != ""
    ensures forall effect | effect in Renewing(paid, invoice, customer, email, ans) :: WritesAnAddress(effect)
  {
    hide Resolve, SnapshotOf, TagOf, Inviting, TierAt, Write;
    if invoice.Some? {
      var raised := Write(paid, SubscribedSet(email, true));
      InvitingTouchesOneRow(raised, Some(OperationKey(Recovery(invoice.value))), Some(customer), email,
                            TierAt(raised.rows, email), false, ans);
    }
  }

  lemma UpdatesWriteNoRow(store: Store, customer: Option<string>, own: Option<Address>, status: string, ans: Answers)
    ensures forall effect | effect in UpdatedPlan(store, customer, own, status, ans) :: WritesAnAddress(effect)
  {
  }

  lemma DeletionsWriteNoRow(store: Store, customer: Option<string>, own: Option<Address>, ans: Answers)
    ensures forall effect | effect in DeletedPlan(store, customer, own, ans) :: WritesAnAddress(effect)
  {
    hide Resolve, SnapshotOf, TagOf, LiveSibling, Siblings, PayerEmail, MappedEmail, Write, SubscribedElsewhere;
  }

  lemma WriteKeepsAddresses(store: Store, effect: Effect)
    requires Addressed(store.rows) && WritesAnAddress(effect)
    ensures Addressed(Write(store, effect).rows)
  {
    match effect
    case RowWritten(customer, email, code, tier, at, settles) =>
      UpsertKeepsAddresses(store.rows, customer, email, code, tier, at);
    case _ =>
  }

  lemma UpsertKeepsAddresses(rows: seq<Row>, customer: Option<string>, email: Address, code: string, tier: Tier,
                             at: int)
    requires Addressed(rows) && email != ""
    ensures var after := if customer.Some? then UpsertPending(rows, customer.value, email, code, tier, at)
                         else UpsertByEmail(rows, email, code, tier, at);
            Addressed(after) && Addressed(WithPaymentState(after, email, false))
  {
  }

  lemma {:induction false} PlanKeepsAddresses(w: World, plan: Effects)
    requires Addressed(w.store.rows) && forall effect | effect in plan :: WritesAnAddress(effect)
    ensures Addressed(Execute(w, plan).store.rows)
    decreases |plan|
  {
    if |plan| > 0 {
      assert plan[0] in plan && forall effect | effect in plan[1..] :: effect in plan;
      WriteKeepsAddresses(w.store, plan[0]);
      PlanKeepsAddresses(Act(w, plan[0]), plan[1..]);
    }
  }

  /** In every run of named events and addressed admin changes, every row carries an address. */
  lemma {:induction false} RunsStayAddressed(w: World, steps: seq<Step>)
    requires Addressed(w.store.rows) && forall step | step in steps :: KeepsAddresses(step)
    ensures Addressed(Run(w, steps).store.rows)
    decreases |steps|
  {
    if |steps| > 0 {
      var last := steps[|steps| - 1];
      RunsStayAddressed(w, steps[..|steps| - 1]);
      var before := Run(w, steps[..|steps| - 1]);
      assert last in steps;
      if last.Delivered? {
        PlansWriteAddresses(before.store, last.event, last.answers);
        hide EventPlan;
        PlanKeepsAddresses(before.(fuel := last.fuel, dead := false),
                           HandlePlan(before.store, last.id, last.event, last.answers));
      }
    }
  }

  // ---------------------------------------------------------------- both rules over runs

  /** Whoever the delivery resolves at either look carries this tag, as the strongest of that look. */
  predicate Meets(store: Store, event: Event, ans: Answers, tag: Tag) {
    TagOf(store, PersonOf(store, event, ans)) == Some(tag) || TagOf(store, LastPerson(store, event, ans)) == Some(tag)
  }

  /** After any run, both rules hold of everything a delivery did, wherever it failed, unless it slips. */
  lemma RunsKeepTheTagRules(steps: seq<Step>, id: Option<string>, event: Event, ans: Answers, fuel: nat, i: nat)
    requires (forall step | step in steps :: KeepsAddresses(step)) && FreshCode(ans)
    requires |Run(EMPTY, steps).log| <= i < |Run(EMPTY, steps + [Delivered(id, event, ans, fuel)]).log|
    ensures var was := Run(EMPTY, steps).store;
            var done := Run(EMPTY, steps + [Delivered(id, event, ans, fuel)]).log[i];
            && (Meets(was, event, ans, Banned) && !Slips(was, event, ans, Banned) ==> !Grants(done))
            && (Meets(was, event, ans, Vip) && !Slips(was, event, ans, Vip) ==> !TouchesRecords(done))
  {
    var w, step := Run(EMPTY, steps), Delivered(id, event, ans, fuel);
    var all := steps + [step];
    assert all[..|all| - 1] == steps && all[|all| - 1] == step;
    RunsStayAddressed(EMPTY, steps);
    DeliveryAddsOnlyItsPlan(w, id, event, ans, fuel, i);
    hide EventPlan, PersonOf, LastPerson, TagOf, Deliver, Slips, FreshCode, Addressed, Grants, TouchesRecords;
    var done := Deliver(w, step).log[i];
    if Meets(w.store, event, ans, Banned) {
      BanHoldsUnlessItSlips(w.store, event, ans);
    }
    if Meets(w.store, event, ans, Vip) {
      VipHoldsUnlessItSlips(w.store, event, ans);
    }
    MarksAreHarmless();
  }

  lemma MarksAreHarmless()
    ensures forall effect: Effect :: effect.Processed? || effect.Died? ==> !Grants(effect) && !TouchesRecords(effect)
  {
  }
}
