/** The members list: every person exactly once, and one billing account to show for each. */
module Roster {
  import opened Options
  import opened Text
  import opened Identity

  // ---------------------------------------------------------------- rows

  function Distinct(items: seq<Address>): (kept: seq<Address>)
    ensures forall item :: item in kept <==> item in items
  {
    if |items| == 0 then [] else
    var front := Distinct(items[..|items| - 1]);
    var last := items[|items| - 1];
    assert items == items[..|items| - 1] + [last];
    if last in front then front else front + [last]
  }

  /** Every address a row is looked for under: the records' own, then the paying ones. */
  function Seeds(s: Snapshot, customers: seq<Address>): seq<Address> {
    Filter((a: Address) => a != "",
           Distinct(seq(|s.users|, i requires 0 <= i < |s.users| => s.users[i].email) + customers))
  }

  function KeyOf(person: Person, email: Address): Address {
    if person.primary.Some? then person.primary.value else email
  }

  datatype Row = Row(key: Address, person: Person)

  predicate Listed(rows: seq<Row>, key: Address) {
    exists i :: 0 <= i < |rows| && rows[i].key == key
  }

  /** `assembleMembers`: one row per primary address, kept from the first seed that resolves to it. */
  function Assemble(s: Snapshot, seeds: seq<Address>): seq<Row> {
    if |seeds| == 0 then [] else
    var rows := Assemble(s, seeds[..|seeds| - 1]);
    var seed := seeds[|seeds| - 1];
    var person := PersonAt(s, seed);
    if Listed(rows, KeyOf(person, seed)) then rows else rows + [Row(KeyOf(person, seed), person)]
  }

  function RosterOf(s: Snapshot, customers: seq<Address>): seq<Row> {
    Assemble(s, Seeds(s, customers))
  }

  ghost predicate Sound(s: Snapshot) {
    && Star(MergedLinks(s)) && RedemptionsAgree(s)
    && forall x, y | x in s.users && y in s.users && x.id == y.id :: x == y
  }

  ghost predicate FromSeed(s: Snapshot, seeds: seq<Address>, row: Row) {
    exists a :: a in seeds && a != "" && row == Row(Owner(MergedLinks(s), a), PersonAt(s, a))
  }

  /** One row per class met so far, named by the class's owner. */
  ghost predicate Classes(s: Snapshot, seeds: seq<Address>, rows: seq<Row>) {
    && (forall i | 0 <= i < |rows| :: FromSeed(s, seeds, rows[i]))
    && (forall i, j | 0 <= i < j < |rows| :: rows[i].key != rows[j].key)
    && (forall a | a in seeds :: Listed(rows, Owner(MergedLinks(s), a)))
  }

  lemma KeyIsOwner(s: Snapshot, seed: Address)
    requires Sound(s) && seed != ""
    ensures KeyOf(PersonAt(s, seed), seed) == Owner(MergedLinks(s), seed)
  {
    PersonIsClass(s, seed, seed);
  }

  lemma OneMoreSeed(s: Snapshot, front: seq<Address>, seed: Address, before: seq<Row>)
    requires Sound(s) && seed != "" && Classes(s, front, before)
    ensures var person := PersonAt(s, seed);
            var rows := if Listed(before, KeyOf(person, seed)) then before
                        else before + [Row(KeyOf(person, seed), person)];
            Classes(s, front + [seed], rows)
  {
    hide PersonAt, Owner, MergedLinks, Sound, Star, RedemptionsAgree, KeyOf;
    KeyIsOwner(s, seed);
    var key := KeyOf(PersonAt(s, seed), seed);
    var rows := if Listed(before, key) then before else before + [Row(key, PersonAt(s, seed))];
    var seeds := front + [seed];
    assert seeds[|front|] == seed;
    forall i | 0 <= i < |rows| ensures FromSeed(s, seeds, rows[i]) {
      if i < |before| {
        assert FromSeed(s, front, before[i]);
        var a :| a in front && a != "" && before[i] == Row(Owner(MergedLinks(s), a), PersonAt(s, a));
        assert a in seeds;
      }
    }
    forall a | a in seeds ensures Listed(rows, Owner(MergedLinks(s), a)) {
      if a in front {
        var i :| 0 <= i < |before| && before[i].key == Owner(MergedLinks(s), a);
        assert rows[i] == before[i];
      } else if !Listed(before, key) {
        assert rows[|before|].key == key;
      }
    }
  }

  lemma {:induction false} AssembleKeepsClasses(s: Snapshot, seeds: seq<Address>)
    requires Sound(s) && forall a | a in seeds :: a != ""
    ensures Classes(s, seeds, Assemble(s, seeds))
    decreases |seeds|
  {
    if |seeds| > 0 {
      var front, seed := seeds[..|seeds| - 1], seeds[|seeds| - 1];
      assert seeds == front + [seed];
      assert seed in seeds && forall a :: a in front ==> a in seeds;
      AssembleKeepsClasses(s, front);
      OneMoreSeed(s, front, seed, Assemble(s, front));
    }
  }

  /** A row holds exactly the addresses that share its key. */
  lemma RowHolds(s: Snapshot, customers: seq<Address>, i: nat, a: Address)
    requires Sound(s) && a != "" && i < |RosterOf(s, customers)|
    ensures a in RosterOf(s, customers)[i].person.addresses
            <==> Owner(MergedLinks(s), a) == RosterOf(s, customers)[i].key
  {
    AssembleKeepsClasses(s, Seeds(s, customers));
    var rows := RosterOf(s, customers);
    assert FromSeed(s, Seeds(s, customers), rows[i]);
    var of :| of != "" && rows[i] == Row(Owner(MergedLinks(s), of), PersonAt(s, of));
    PersonIsClass(s, of, a);
  }

  lemma SeedsMeans(s: Snapshot, customers: seq<Address>, a: Address)
    requires a != "" && (a in customers || exists user :: user in s.users && user.email == a)
    ensures a in Seeds(s, customers)
  {
    var emails := seq(|s.users|, i requires 0 <= i < |s.users| => s.users[i].email);
    if user :| user in s.users && user.email == a {
      var k :| 0 <= k < |s.users| && s.users[k] == user;
      assert emails[k] == a;
    }
    assert a in emails + customers;
  }

  /** Every paying address and every record's address is on one row, and on no second one. */
  lemma EveryAddressOnOneRow(s: Snapshot, customers: seq<Address>, a: Address)
    requires Sound(s) && a != "" && (a in customers || exists user :: user in s.users && user.email == a)
    ensures var rows := RosterOf(s, customers);
            && (exists i :: 0 <= i < |rows| && a in rows[i].person.addresses)
            && (forall i, j | 0 <= i < |rows| && 0 <= j < |rows|
                              && a in rows[i].person.addresses && a in rows[j].person.addresses :: i == j)
  {
    var rows := RosterOf(s, customers);
    AssembleKeepsClasses(s, Seeds(s, customers));
    SeedsMeans(s, customers, a);
    hide Assemble, Seeds, PersonAt, Owner, MergedLinks;
    var i :| 0 <= i < |rows| && rows[i].key == Owner(MergedLinks(s), a);
    RowHolds(s, customers, i, a);
    forall p, q | 0 <= p < |rows| && 0 <= q < |rows|
                  && a in rows[p].person.addresses && a in rows[q].person.addresses
      ensures p == q
    {
      RowHolds(s, customers, p, a);
      RowHolds(s, customers, q, a);
    }
  }

  /** Every record that carries an address is listed under one row, and under no second one. */
  lemma EveryRecordOnOneRow(s: Snapshot, customers: seq<Address>, user: Record)
    requires Sound(s) && user in s.users && user.email != ""
    ensures var rows := RosterOf(s, customers);
            && (exists i :: 0 <= i < |rows| && user in EveryRecord(s, rows[i].person))
            && (forall i, j | 0 <= i < |rows| && 0 <= j < |rows|
                              && user in EveryRecord(s, rows[i].person) && user in EveryRecord(s, rows[j].person) ::
                                 i == j)
  {
    var rows := RosterOf(s, customers);
    EveryAddressOnOneRow(s, customers, user.email);
    AssembleKeepsClasses(s, Seeds(s, customers));
    forall i | 0 <= i < |rows|
      ensures user in EveryRecord(s, rows[i].person) <==> user.email in rows[i].person.addresses
    {
      assert FromSeed(s, Seeds(s, customers), rows[i]);
      var of :| of != "" && rows[i] == Row(Owner(MergedLinks(s), of), PersonAt(s, of));
      RecordsFollowAddresses(s, of, user);
    }
  }

  /** Rows and link classes match one to one: two addresses share a row exactly when links join them. */
  lemma RowsAreLinkClasses(s: Snapshot, customers: seq<Address>, i: nat, a: Address, b: Address)
    requires Sound(s) && a != "" && b != "" && i < |RosterOf(s, customers)|
    requires a in RosterOf(s, customers)[i].person.addresses
    ensures b in RosterOf(s, customers)[i].person.addresses <==> Connected(MergedLinks(s), a, b)
  {
    RowHolds(s, customers, i, a);
    RowHolds(s, customers, i, b);
    StarsAreOneStep(MergedLinks(s));
    LinkedToIsComponent(MergedLinks(s));
    PersonIsClass(s, a, b);
  }

  // ---------------------------------------------------------------- the billing account shown

  datatype Billing = Billing(email: Address, subscribed: bool)

  function Rank(person: Person, links: map<Address, Address>, account: Billing): nat {
    (if account.subscribed then 4 else 0)
    + (if account.email in links then 2 else 0)
    + (if Some(account.email) == person.primary then 1 else 0)
  }

  predicate Precedes(person: Person, links: map<Address, Address>, a: Billing, b: Billing) {
    Rank(person, links, a) > Rank(person, links, b)
    || (Rank(person, links, a) == Rank(person, links, b) && Less(a.email, b.email))
  }

  /** `primaryBilling`: the first of the person's accounts in sorted order. */
  function PrimaryBilling(person: Person, links: map<Address, Address>, customers: seq<Billing>): Option<Billing> {
    if |customers| == 0 then None else
    var best := PrimaryBilling(person, links, customers[..|customers| - 1]);
    var last := customers[|customers| - 1];
    if last.email in person.addresses && (best.None? || Precedes(person, links, last, best.value)) then Some(last)
      else best
  }

  ghost predicate Foremost(person: Person, links: map<Address, Address>, customers: seq<Billing>, account: Billing) {
    && account in customers && account.email in person.addresses
    && forall other | other in customers && other.email in person.addresses ::
         other == account || Precedes(person, links, account, other)
  }

  lemma PrecedesTransitive(person: Person, links: map<Address, Address>, a: Billing, b: Billing, c: Billing)
    requires Precedes(person, links, a, b) && Precedes(person, links, b, c)
    ensures Precedes(person, links, a, c)
  {
    if Less(a.email, b.email) && Less(b.email, c.email) {
      LessTransitive(a.email, b.email, c.email);
    }
  }

  lemma {:induction false} PrimaryIsForemost(person: Person, links: map<Address, Address>, customers: seq<Billing>)
    requires forall x, y | x in customers && y in customers && x.email == y.email :: x == y
    ensures var shown := PrimaryBilling(person, links, customers);
            && (shown.Some? ==> Foremost(person, links, customers, shown.value))
            && (shown.None? ==> forall other | other in customers :: other.email !in person.addresses)
    decreases |customers|
  {
    if |customers| > 0 {
      var front, last := customers[..|customers| - 1], customers[|customers| - 1];
      assert customers == front + [last];
      PrimaryIsForemost(person, links, front);
      var best := PrimaryBilling(person, links, front);
      if best.Some? && last.email in person.addresses {
        LessTrichotomy(last.email, best.value.email);
        if Precedes(person, links, last, best.value) {
          forall other | other in customers && other.email in person.addresses
            ensures other == last || Precedes(person, links, last, other)
          {
            if other in front && other != best.value {
              PrecedesTransitive(person, links, last, best.value, other);
            }
          }
        }
      }
    }
  }

  /** The account shown does not depend on the order the customer rows are iterated in. */
  lemma BillingIgnoresOrder(person: Person, links: map<Address, Address>, customers: seq<Billing>,
                            reordered: seq<Billing>)
    requires forall x, y | x in customers && y in customers && x.email == y.email :: x == y
    requires forall x :: x in customers <==> x in reordered
    ensures PrimaryBilling(person, links, customers) == PrimaryBilling(person, links, reordered)
  {
    PrimaryIsForemost(person, links, customers);
    PrimaryIsForemost(person, links, reordered);
    var a, b := PrimaryBilling(person, links, customers), PrimaryBilling(person, links, reordered);
    if a.Some? && b.Some? && a != b {
      LessTrichotomy(a.value.email, b.value.email);
    }
  }

  /** Ahead of another account: paying, else linked by an admin, else the person's own, else first by address. */
  predicate Ahead(person: Person, links: map<Address, Address>, a: Billing, b: Billing) {
    if a.subscribed != b.subscribed then a.subscribed
    else if (a.email in links) != (b.email in links) then a.email in links
    else if (Some(a.email) == person.primary) != (Some(b.email) == person.primary) then Some(a.email) == person.primary
    else Less(a.email, b.email)
  }

  /**
   * The account shown is the person's own that is ahead of every other of theirs, and a paying one if they
   * have any.
   */
  lemma ShownIsAhead(person: Person, links: map<Address, Address>, customers: seq<Billing>)
    requires forall x, y | x in customers && y in customers && x.email == y.email :: x == y
    ensures var shown := PrimaryBilling(person, links, customers);
            && (shown.None? <==> forall other | other in customers :: other.email !in person.addresses)
            && (shown.Some? ==>
                  && shown.value in customers && shown.value.email in person.addresses
                  && forall other | other in customers && other.email in person.addresses ::
                       (other == shown.value || Ahead(person, links, shown.value, other))
                       && (other.subscribed ==> shown.value.subscribed))
  {
    PrimaryIsForemost(person, links, customers);
    hide PrimaryBilling;
    forall a, b ensures Precedes(person, links, a, b) <==> Ahead(person, links, a, b) {
    }
  }
}
