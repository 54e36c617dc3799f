/** The expiry sweep and the admin's reissue: what they do, and that both keep what a tag forbids. */
module Sweep {
  import opened Options
  import opened Identity
  import opened Standing
  import opened BridgeStore
  import opened WebhookPlans
  import opened Delivery
  import opened TagRules
  import opened Outcomes
  import opened Bridge
  import Roster

  // ---------------------------------------------------------------- the sweep

  /** The addresses of the rows, in the order they were first met. */
  function EmailsInOrder(rows: seq<Row>): (emails: seq<Address>)
    ensures forall email :: email in emails <==> exists row :: row in rows && row.email == email
  {
    if |rows| == 0 then []
    else
      var front := EmailsInOrder(rows[..|rows| - 1]);
      var last := rows[|rows| - 1];
      assert rows == rows[..|rows| - 1] + [last];
      if last.email in front then front else front + [last.email]
  }

  /** A member the sweep looks at: subscribed, with a sign-up to anchor the window on. */
  predicate Swept(rows: seq<Row>, email: Address) {
    var row := CustomerRow(rows, email);
    row.Some? && row.value.subscribed && row.value.invitedAt.Some?
  }

  function SweptPerson(store: Store, email: Address, ans: Answers): Person
    requires Swept(store.rows, email)
  {
    IdentityFor(SnapshotOf(store, ans), Some(email), CustomerRow(store.rows, email).value.code)
  }

  /** The window from the sign-up, or from the sweep itself when that one has closed. */
  function SweepExpiry(invitedAt: int, ans: Answers): int {
    var anchored := invitedAt + ans.settings.accessDays * DAY_MILLIS;
    if anchored <= ans.now then AccessExpiry(ans) else anchored
  }

  function StampingAt(records: seq<Record>, expires: int): (plan: Effects)
    ensures |plan| == |records|
  {
    seq(|records|, i requires 0 <= i < |records| => Stamped(records[i].id, expires))
  }

  function SweepMember(store: Store, email: Address, ans: Answers): Effects
    requires Swept(store.rows, email)
  {
    var person := SweptPerson(store, email, ans);
    if !IsTimeBoxed(TagOf(store, person)) then []
    else StampingAt(Filter((record: Record) => record.expires.None?, person.records),
                    SweepExpiry(CustomerRow(store.rows, email).value.invitedAt.value, ans))
  }

  function SweepEach(store: Store, emails: seq<Address>, ans: Answers): Effects
    requires forall email | email in emails :: Swept(store.rows, email)
  {
    if |emails| == 0 then []
    else SweepEach(store, emails[..|emails| - 1], ans) + SweepMember(store, emails[|emails| - 1], ans)
  }

  function SweptEmails(rows: seq<Row>): seq<Address> {
    Filter((email: Address) => Swept(rows, email), EmailsInOrder(rows))
  }

  function SweepPlan(store: Store, ans: Answers): Effects {
    if |SweptEmails(store.rows)| == 0 then [] else [Asked(Wizarr)] + SweepEach(store, SweptEmails(store.rows), ans)
  }

  /** `mapInOrder` over the members: a stamp that fails leaves the members after it unstamped. */
  method StampEach(p: Process, store: Store, emails: seq<Address>, ans: Answers) returns (ok: bool)
    requires forall email | email in emails :: Swept(store.rows, email)
    modifies p, p.db
    ensures p.Now() == Execute(old(p.Now()), SweepEach(store, emails, ans))
    ensures ok == !p.dead
    decreases |emails|
  {
    hide Act, Execute, SweepMember, Swept;
    ghost var w := p.Now();
    if |emails| == 0 {
      Nothing(w);
      return !p.dead;
    }
    var front, last := emails[..|emails| - 1], emails[|emails| - 1];
    ok := StampEach(p, store, front, ans);
    if !ok {
      ThenDead(w, SweepEach(store, front, ans), SweepMember(store, last, ans));
      return;
    }
    Then(w, SweepEach(store, front, ans), p.Now(), SweepMember(store, last, ans));
    ok := p.PerformAll(SweepMember(store, last, ans));
  }

  /** `reconcilePendingExpiries`: every member is resolved from the tables and the snapshot it starts with. */
  method ReconcilePendingExpiries(p: Process, ans: Answers) returns (ok: bool)
    modifies p, p.db
    ensures p.Now() == Execute(old(p.Now()), SweepPlan(old(p.db.State()), ans))
    ensures ok == !p.dead
  {
    ghost var w := p.Now();
    var store := p.db.State();
    var emails := SweptEmails(p.db.rows);
    hide Act, Execute, SweepEach;
    if |emails| == 0 {
      Nothing(w);
      return !p.dead;
    }
    ok := p.PerformAll([Asked(Wizarr)]);
    if !ok {
      ThenDead(w, [Asked(Wizarr)], SweepEach(store, emails, ans));
      return;
    }
    Then(w, [Asked(Wizarr)], p.Now(), SweepEach(store, emails, ans));
    ok := StampEach(p, store, emails, ans);
  }

  // ---------------------------------------------------------------- what the sweep stamps

  /** When the window a sign-up opened closes, and what a window opened now would close at. */
  function Closes(row: Row, ans: Answers): int
    requires row.invitedAt.Some?
  {
    row.invitedAt.value + ans.settings.accessDays * 86_400_000
  }

  /**
   * An expiry the sweep owes: an unlimited record of a member who reads as subscribed, with a sign-up on
   * record and no tag that exempts them.
   */
  ghost predicate OwedStamp(store: Store, ans: Answers, email: Address, record: Record, expires: int) {
    var row := CustomerRow(store.rows, email);
    && row.Some? && row.value.subscribed && row.value.invitedAt.Some?
    && expires == (if Closes(row.value, ans) > ans.now then Closes(row.value, ans)
                   else ans.now + ans.settings.accessDays * 86_400_000)
    && var person := IdentityFor(SnapshotOf(store, ans), Some(email), row.value.code);
       IsTimeBoxed(TagOf(store, person)) && record in person.records && record.expires.None?
  }

  lemma MemberStamps(store: Store, email: Address, ans: Answers, id: int, expires: int)
    requires Swept(store.rows, email)
    ensures Stamped(id, expires) in SweepMember(store, email, ans)
            <==> exists record :: OwedStamp(store, ans, email, record, expires) && record.id == id
  {
    hide TagOf, IdentityFor, SnapshotOf, CustomerRow;
    var person := SweptPerson(store, email, ans);
    var at := SweepExpiry(CustomerRow(store.rows, email).value.invitedAt.value, ans);
    var open := Filter((record: Record) => record.expires.None?, person.records);
    var plan := StampingAt(open, at);
    if record :| OwedStamp(store, ans, email, record, expires) && record.id == id {
      assert record in open;
      var i :| 0 <= i < |open| && open[i] == record;
      assert plan[i] == Stamped(id, expires);
    }
    if Stamped(id, expires) in SweepMember(store, email, ans) {
      var i :| 0 <= i < |plan| && plan[i] == Stamped(id, expires);
      assert open[i] in open && OwedStamp(store, ans, email, open[i], expires);
    }
  }

  lemma {:induction false} EachStamps(store: Store, emails: seq<Address>, ans: Answers, id: int, expires: int)
    requires forall email | email in emails :: Swept(store.rows, email)
    ensures Stamped(id, expires) in SweepEach(store, emails, ans)
            <==> exists email, record ::
                 email in emails && OwedStamp(store, ans, email, record, expires) && record.id == id
    decreases |emails|
  {
    hide SweepMember, OwedStamp, Swept;
    if |emails| > 0 {
      var front, last := emails[..|emails| - 1], emails[|emails| - 1];
      assert emails == front + [last];
      EachStamps(store, front, ans, id, expires);
      MemberStamps(store, last, ans, id, expires);
    }
  }

  lemma PlanStamps(store: Store, ans: Answers, id: int, expires: int)
    ensures Stamped(id, expires) in SweepPlan(store, ans)
            <==> Stamped(id, expires) in SweepEach(store, SweptEmails(store.rows), ans)
    ensures forall effect | effect in SweepPlan(store, ans) :: effect.Asked? || effect.Stamped?
  {
    var emails := SweptEmails(store.rows);
    OnlyStamps(store, emails, ans);
    hide SweepEach, SweptEmails, SweepMember;
  }

  /** The sweep stamps exactly the records it owes an expiry, and does nothing else. */
  lemma SweepStampsWhatItOwes(store: Store, ans: Answers, id: int, expires: int)
    ensures Stamped(id, expires) in SweepPlan(store, ans)
            <==> exists email, record :: OwedStamp(store, ans, email, record, expires) && record.id == id
    ensures forall effect | effect in SweepPlan(store, ans) :: effect.Asked? || effect.Stamped?
  {
    PlanStamps(store, ans, id, expires);
    EachStamps(store, SweptEmails(store.rows), ans, id, expires);
    forall email, record | OwedStamp(store, ans, email, record, expires) && record.id == id
      ensures email in SweptEmails(store.rows)
    {
      assert CustomerRow(store.rows, email).value in store.rows;
    }
    hide OwedStamp, Swept, SweepEach, SweepPlan, SweptEmails;
  }

  lemma {:induction false} OnlyStamps(store: Store, emails: seq<Address>, ans: Answers)
    requires forall email | email in emails :: Swept(store.rows, email)
    ensures forall effect | effect in SweepEach(store, emails, ans) :: effect.Stamped?
    decreases |emails|
  {
    hide SweptPerson, Swept, TagOf;
    if |emails| > 0 {
      OnlyStamps(store, emails[..|emails| - 1], ans);
    }
  }

  /**
   * Whatever the sweep stamps had no expiry, gets none in the past, and gets the window its member's
   * sign-up opened while that is still open; otherwise a full one from the sweep.
   */
  lemma SweepNeverRevokes(store: Store, ans: Answers, id: int, expires: int)
    requires Stamped(id, expires) in SweepPlan(store, ans)
    ensures expires >= ans.now && (ans.settings.accessDays > 0 ==> expires > ans.now)
    ensures exists email, record ::
              && OwedStamp(store, ans, email, record, expires) && record.id == id && record.expires.None?
              && Subscribed(store.rows, email)
  {
    SweepStampsWhatItOwes(store, ans, id, expires);
    hide SweepPlan, CustomerRow, IdentityFor, SnapshotOf, TagOf;
    assert ans.settings.accessDays * 86_400_000 >= 0;
  }

  /** The invite the sweep follows is the one a person is known by. */
  lemma SweptIsPersonAt(store: Store, email: Address, ans: Answers)
    requires Swept(store.rows, email)
    ensures SweptPerson(store, email, ans) == PersonAt(SnapshotOf(store, ans), email)
  {
    var s := SnapshotOf(store, ans);
    var code := CustomerRow(store.rows, email).value.code;
    var known := if email in s.invites then Some(s.invites[email]) else None;
    assert email in Emails(store.rows) by {
      assert CustomerRow(store.rows, email).value in store.rows;
    }
    assert RedeemerOf(s, code) == RedeemerOf(s, known);
    hide MergedLinks, LinkedTo, RecordsAt, RedeemerOf, CustomerRow;
  }

  /** A record somebody is reached at is stamped only if no tag on any address of theirs forbids it. */
  lemma SweepSparesTheTagged(store: Store, ans: Answers, user: Record, expires: int)
    requires Roster.Sound(SnapshotOf(store, ans)) && forall row | row in store.rows :: row.email != ""
    requires user in ans.users && user.email != "" && Stamped(user.id, expires) in SweepPlan(store, ans)
    ensures IsTimeBoxed(TagOf(store, PersonAt(SnapshotOf(store, ans), user.email)))
  {
    var s := SnapshotOf(store, ans);
    SweepStampsWhatItOwes(store, ans, user.id, expires);
    var email, record :| OwedStamp(store, ans, email, record, expires) && record.id == user.id;
    SweptIsPersonAt(store, email, ans);
    var person := PersonAt(s, email);
    assert CustomerRow(store.rows, email).value in store.rows && email != "";
    RecordsAreUsers(s, email, record);
    assert record == user;
    hide PersonAt, TagOf, SnapshotOf, SweepPlan, Swept, CustomerRow;
    RecordsFollowAddresses(s, email, user);
    PersonIsClass(s, email, user.email);
    hide Governing;
  }

  lemma RecordsAreUsers(s: Snapshot, email: Address, record: Record)
    requires record in PersonAt(s, email).records
    ensures record in s.users
  {
    hide MergedLinks, LinkedTo;
  }

  // ---------------------------------------------------------------- the admin's reissue

  /** `reissueInvite`: refused for the banned; otherwise the invite exists before any record is disabled. */
  function ReissuePlan(store: Store, email: Address, tier: Tier, mailed: bool, ans: Answers): Effects {
    [Asked(Wizarr)] +
    if IsBanned(TagOf(store, PersonAt(SnapshotOf(store, ans), email))) then []
    else
      [Asked(Libraries)] + Issuing(store, None, None, email, tier, false, ans)
      + (Disabling(StaleRecords(RecordsAt(ans.users, email), ans.covered))
         + if mailed then [Mailed(None, email, ans.code)] else [])
  }

  method ReissueInvite(p: Process, email: Address, tier: Tier, mailed: bool, ans: Answers)
    returns (ok: bool, refused: bool)
    modifies p, p.db
    ensures p.Now() == Execute(old(p.Now()), ReissuePlan(old(p.db.State()), email, tier, mailed, ans))
    ensures ok == !p.dead
    ensures ok ==> (refused
                    <==> IsBanned(TagOf(old(p.db.State()), PersonAt(SnapshotOf(old(p.db.State()), ans), email))))
  {
    hide Act, Execute, Issuing, PersonAt, SnapshotOf, TagOf;
    ghost var w, store := p.Now(), p.db.State();
    var asks := [Asked(Wizarr)];
    refused := IsBanned(TagOf(p.db.State(), PersonAt(SnapshotOf(p.db.State(), ans), email)));
    var sending := if mailed then [Mailed(None, email, ans.code)] else [];
    var disabling := Disabling(StaleRecords(RecordsAt(ans.users, email), ans.covered));
    ghost var issuing := Issuing(store, None, None, email, tier, false, ans);
    ghost var rest := if refused then [] else [Asked(Libraries)] + (issuing + (disabling + sending));
    assert ReissuePlan(store, email, tier, mailed, ans) == asks + rest;
    ok := p.PerformAll(asks);
    if !ok {
      ThenDead(w, asks, rest);
      return;
    }
    AsksKeepTables(w, asks);
    ghost var asked := p.Now();
    Then(w, asks, asked, rest);
    if refused {
      Nothing(asked);
      return;
    }
    ok := p.PerformAll([Asked(Libraries)]);
    if !ok {
      ThenDead(asked, [Asked(Libraries)], issuing + (disabling + sending));
      return;
    }
    AsksKeepTables(asked, [Asked(Libraries)]);
    ghost var scoped := p.Now();
    Then(asked, [Asked(Libraries)], scoped, issuing + (disabling + sending));
    var code: string, emailed: bool;
    ok, code, emailed := p.IssueInvite(None, None, email, tier, false, ans);
    if !ok {
      ThenDead(scoped, issuing, disabling + sending);
      return;
    }
    Then(scoped, issuing, p.Now(), disabling + sending);
    ok := p.PerformAll(disabling + sending);
  }

  /**
   * A reissue for somebody no ban stops mints one invite, records it against the address with its tier,
   * mails it when the mail goes out, and disables every record at that very address exactly when one of
   * them is left out of the tier or cannot be judged; and it stamps nothing.
   */
  lemma ReissueDoes(store: Store, email: Address, tier: Tier, mailed: bool, ans: Answers, record: Record)
    requires !IsBanned(TagOf(store, PersonAt(SnapshotOf(store, ans), email)))
    requires record in ans.users && record.email == email
    ensures var plan := ReissuePlan(store, email, tier, mailed, ans);
            && Minted(None, ans.code) in plan && RowWritten(None, email, ans.code, tier, ans.now, false) in plan
            && (Mailed(None, email, ans.code) in plan <==> mailed)
            && (Disabled(record.id) in plan
                <==> exists other :: other in ans.users && other.email == email
                                     && (other.server.None? || other.server.value !in ans.covered))
            && forall effect | effect in plan :: !effect.Stamped? && (effect.Mailed? ==> effect.to == email)
  {
    var stale := StaleRecords(RecordsAt(ans.users, email), ans.covered);
    RecordsAre(ans.users, email);
    StaleAre(RecordsAt(ans.users, email), ans.covered);
    DisablingMeans(stale);
    ReissueShape(store, email, tier, mailed, ans);
    hide *;
    ReissueParts(Disabling(stale), email, tier, mailed, ans, record);
    assert (exists other ::
            other in RecordsAt(ans.users, email) && (other.server.None? || other.server.value !in ans.covered))
           <==> exists other :: other in ans.users && other.email == email
                                && (other.server.None? || other.server.value !in ans.covered);
  }

  lemma ReissueShape(store: Store, email: Address, tier: Tier, mailed: bool, ans: Answers)
    requires !IsBanned(TagOf(store, PersonAt(SnapshotOf(store, ans), email)))
    ensures ReissuePlan(store, email, tier, mailed, ans)
            == [Asked(Wizarr), Asked(Libraries), Minted(None, ans.code),
                RowWritten(None, email, ans.code, tier, ans.now, false)]
               + (Disabling(StaleRecords(RecordsAt(ans.users, email), ans.covered))
                  + if mailed then [Mailed(None, email, ans.code)] else [])
  {
    hide PersonAt, SnapshotOf, TagOf, Disabling, StaleRecords, RecordsAt;
  }

  lemma ReissueParts(disabling: Effects, email: Address, tier: Tier, mailed: bool, ans: Answers, record: Record)
    requires forall effect | effect in disabling :: effect.Disabled?
    ensures var plan := [Asked(Wizarr), Asked(Libraries), Minted(None, ans.code),
                         RowWritten(None, email, ans.code, tier, ans.now, false)]
                        + (disabling + if mailed then [Mailed(None, email, ans.code)] else []);
            && Minted(None, ans.code) in plan && RowWritten(None, email, ans.code, tier, ans.now, false) in plan
            && (Mailed(None, email, ans.code) in plan <==> mailed)
            && (Disabled(record.id) in plan <==> Disabled(record.id) in disabling)
            && forall effect | effect in plan :: !effect.Stamped? && (effect.Mailed? ==> effect.to == email)
  {
    var plan := [Asked(Wizarr), Asked(Libraries), Minted(None, ans.code),
                 RowWritten(None, email, ans.code, tier, ans.now, false)]
                + (disabling + if mailed then [Mailed(None, email, ans.code)] else []);
    assert plan[2] == Minted(None, ans.code) && plan[3] == RowWritten(None, email, ans.code, tier, ans.now, false);
  }

  lemma StaleAre(records: seq<Record>, covered: set<string>)
    ensures StaleRecords(records, covered)
            == if exists other ::
               other in records && (other.server.None? || other.server.value !in covered) then records else []
  {
  }

  /** A reissue grants something exactly when the member is banned under none of their addresses. */
  lemma ReissueKeepsTheBan(store: Store, email: Address, tier: Tier, mailed: bool, ans: Answers)
    ensures (exists effect :: effect in ReissuePlan(store, email, tier, mailed, ans) && Grants(effect))
            <==> !IsBanned(TagOf(store, PersonAt(SnapshotOf(store, ans), email)))
  {
    hide PersonAt, SnapshotOf, TagOf;
    var plan := ReissuePlan(store, email, tier, mailed, ans);
    if !IsBanned(TagOf(store, PersonAt(SnapshotOf(store, ans), email))) {
      assert plan[2] == Minted(None, ans.code);
      assert plan[2] in plan;
    }
  }

  /** Nothing is disabled before the new invite is on record, wherever the reissue stops. */
  lemma InviteComesBeforeTheCut(store: Store, email: Address, tier: Tier, mailed: bool, ans: Answers, i: nat)
    requires i < |ReissuePlan(store, email, tier, mailed, ans)|
             && ReissuePlan(store, email, tier, mailed, ans)[i].Disabled?
    ensures exists j, k :: 0 <= j < k < i && ReissuePlan(store, email, tier, mailed, ans)[j] == Minted(None, ans.code)
                           && ReissuePlan(store, email, tier, mailed, ans)[k]
                              == RowWritten(None, email, ans.code, tier, ans.now, false)
  {
    hide PersonAt, SnapshotOf, TagOf;
    var plan := ReissuePlan(store, email, tier, mailed, ans);
    assert plan[2] == Minted(None, ans.code) && plan[3] == RowWritten(None, email, ans.code, tier, ans.now, false);
    assert plan[0] == Asked(Wizarr) && plan[1] == Asked(Libraries);
  }
}
