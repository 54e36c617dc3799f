/**
 * Who a member is: every address that belongs to them and every Wizarr record they hold.
 * Addresses are already trimmed and lowercased here; the empty one stands for a missing email.
 */
module Identity {
  import opened Options

  type Address = string

  datatype Record = Record(id: int, email: Address, username: string, server: Option<string>, expires: Option<int>)
  datatype UsedBy = Unused | ById(id: int) | ByName(username: string)
  datatype Invitation = Invitation(code: string, usedBy: UsedBy)

  datatype Snapshot = Snapshot(
    users: seq<Record>,
    invitations: seq<Invitation>,
    links: map<Address, Address>,
    invites: map<Address, string>)

  datatype Via = ViaEmail | ViaLink | ViaInvite | ViaNone
  datatype Person = Person(primary: Option<Address>, addresses: set<Address>, records: seq<Record>, via: Via)

  // ---------------------------------------------------------------- resolving one person

  function RecordsAt(users: seq<Record>, address: Address): seq<Record> {
    Filter((user: Record) => user.email == address, users)
  }

  function RedeemerRecord(invitation: Invitation, users: seq<Record>): Option<Record> {
    match invitation.usedBy
    case Unused => None
    case ById(id) => First((user: Record) => user.id == id, users)
    case ByName(username) => First((user: Record) => user.username == username, users)
  }

  function RedeemerOf(s: Snapshot, code: Option<string>): Option<Record> {
    if code.None? || code.value == "" then None else
    match First((row: Invitation) => row.code == code.value, s.invitations)
    case None => None
    case Some(invitation) => RedeemerRecord(invitation, s.users)
  }

  /** The address of the account that redeemed the invite, empty when nothing resolves. */
  function RedeemerAddress(s: Snapshot, code: Option<string>): Address {
    match RedeemerOf(s, code)
    case None => ""
    case Some(record) => record.email
  }

  function RedeemerRecords(s: Snapshot, code: Option<string>): seq<Record> {
    match RedeemerOf(s, code)
    case None => []
    case Some(record) => if record.email == "" then [record] else RecordsAt(s.users, record.email)
  }

  /** The links that redeemed invites imply, payer to Plex address. */
  function ImpliedLinks(s: Snapshot): map<Address, Address> {
    map payer | payer in s.invites
                && RedeemerAddress(s, Some(s.invites[payer])) != ""
                && RedeemerAddress(s, Some(s.invites[payer])) != payer
      :: RedeemerAddress(s, Some(s.invites[payer]))
  }

  /** A stated link outranks the one a redemption implies for the same payer. */
  function MergedLinks(s: Snapshot): map<Address, Address> {
    ImpliedLinks(s) + map payer | payer in s.links && s.links[payer] != "" :: s.links[payer]
  }

  function Owner(links: map<Address, Address>, address: Address): Address {
    if address in links then links[address] else address
  }

  /** `linkedTo`: one step along the links in each direction. */
  function LinkedTo(links: map<Address, Address>, seeds: set<Address>): set<Address> {
    var owners := set seed | seed in seeds :: Owner(links, seed);
    var payers := set payer | payer in links && links[payer] in owners;
    seeds + owners + payers
  }

  function IdentityFor(s: Snapshot, email: Option<Address>, code: Option<string>): Person {
    var address := if email.Some? && email.value != "" then email.value else "";
    var redeemer := RedeemerAddress(s, code);
    var links := MergedLinks(s);
    var seed := if address != "" then address else redeemer;
    var primary := if seed == "" then None else Some(Owner(links, seed));
    var addresses := LinkedTo(links, {address, redeemer} - {""});
    var byEmail := if address == "" then [] else RecordsAt(s.users, address);
    var linked := if address in s.links then s.links[address] else "";
    var byLink := if address == "" || linked == "" then [] else RecordsAt(s.users, linked);
    var byInvite := RedeemerRecords(s, code);
    if |byEmail| > 0 then Person(primary, addresses, byEmail, ViaEmail)
    else if |byLink| > 0 then Person(primary, addresses, byLink, ViaLink)
    else Person(primary, addresses, byInvite, if |byInvite| > 0 then ViaInvite else ViaNone)
  }

  /** The person behind an address, with the invite stored against it followed. */
  function PersonAt(s: Snapshot, email: Address): Person {
    IdentityFor(s, Some(email), if email in s.invites then Some(s.invites[email]) else None)
  }

  /** Every record the person holds under any of their addresses. */
  function EveryRecord(s: Snapshot, person: Person): seq<Record> {
    var found := set record | record in person.records :: record.id;
    person.records + Filter((user: Record) => user.id !in found && user.email in person.addresses, s.users)
  }

  // ---------------------------------------------------------------- links as a graph

  ghost predicate Adjacent(links: map<Address, Address>, a: Address, b: Address) {
    (a in links && links[a] == b) || (b in links && links[b] == a)
  }

  ghost predicate Path(links: map<Address, Address>, path: seq<Address>) {
    |path| > 0 && forall i :: 0 <= i < |path| - 1 ==> Adjacent(links, path[i], path[i + 1])
  }

  /** Joined by a chain of links, however long and in whichever directions. */
  ghost predicate Connected(links: map<Address, Address>, a: Address, b: Address) {
    exists path :: Path(links, path) && path[0] == a && path[|path| - 1] == b
  }

  /** No address is both a payer and a destination. */
  ghost predicate Star(links: map<Address, Address>) {
    forall payer | payer in links :: links[payer] !in links
  }

  ghost predicate NoSelfLinks(links: map<Address, Address>) {
    forall payer | payer in links :: links[payer] != payer
  }

  /** A link's destination may itself pay only for the payer that points at it. */
  ghost predicate OneStep(links: map<Address, Address>) {
    forall payer | payer in links && links[payer] in links :: links[links[payer]] == payer
  }

  lemma LinkedMeans(links: map<Address, Address>, a: Address, b: Address)
    ensures b in LinkedTo(links, {a})
            <==> b == a || b == Owner(links, a) || (b in links && links[b] == Owner(links, a))
  {
    var owners := set seed | seed in {a} :: Owner(links, seed);
    assert a in {a} && owners == {Owner(links, a)};
  }

  lemma {:induction false} PathStaysLinked(links: map<Address, Address>, path: seq<Address>)
    requires OneStep(links) && Path(links, path)
    ensures path[|path| - 1] in LinkedTo(links, {path[0]})
    decreases |path|
  {
    if |path| > 1 {
      var front := path[..|path| - 1];
      assert Path(links, front);
      PathStaysLinked(links, front);
      LinkedMeans(links, path[0], path[|path| - 2]);
      LinkedMeans(links, path[0], path[|path| - 1]);
      assert Adjacent(links, path[|path| - 2], path[|path| - 1]);
    }
  }

  lemma LinkedIsConnected(links: map<Address, Address>, a: Address, b: Address)
    requires b in LinkedTo(links, {a})
    ensures Connected(links, a, b)
  {
    LinkedMeans(links, a, b);
    var owner := Owner(links, a);
    if b == a {
      assert Path(links, [a]) && [a][0] == a;
    } else if b == owner {
      assert Path(links, [a, b]) && [a, b][0] == a;
    } else if a == owner {
      assert Adjacent(links, a, b) && Path(links, [a, b]) && [a, b][0] == a;
    } else {
      var path := [a, owner, b];
      assert Adjacent(links, owner, b);
      assert Path(links, path) && path[0] == a && path[2] == b;
    }
  }

  /**
   * One step in each direction finds the whole connected component, from every address, exactly
   * when no destination pays for a third address. Stars are such maps; a stated link behind an
   * implied one is not.
   */
  lemma LinkedToIsComponent(links: map<Address, Address>)
    requires NoSelfLinks(links)
    ensures (forall a, b :: b in LinkedTo(links, {a}) <==> Connected(links, a, b)) <==> OneStep(links)
  {
    if OneStep(links) {
      forall a, b ensures b in LinkedTo(links, {a}) <==> Connected(links, a, b) {
        if b in LinkedTo(links, {a}) {
          LinkedIsConnected(links, a, b);
        }
        if Connected(links, a, b) {
          var path :| Path(links, path) && path[0] == a && path[|path| - 1] == b;
          PathStaysLinked(links, path);
        }
      }
    } else {
      var k :| k in links && links[k] in links && links[links[k]] != k;
      var m := links[k];
      var n := links[m];
      var there, back := [k, m, n], [m, k];
      assert Path(links, there) && there[0] == k && there[2] == n;
      assert Path(links, back) && back[0] == m && back[1] == k;
      assert Connected(links, k, n) && Connected(links, m, k);
      LinkedMeans(links, k, n);
      LinkedMeans(links, m, k);
    }
  }

  /** Over such a map, whose addresses are asked about does not change the person. */
  lemma LinkedToIsClass(links: map<Address, Address>, a: Address, b: Address)
    requires OneStep(links) && b in LinkedTo(links, {a})
    ensures LinkedTo(links, {b}) == LinkedTo(links, {a})
  {
    LinkedMeans(links, a, b);
    forall c ensures c in LinkedTo(links, {b}) <==> c in LinkedTo(links, {a}) {
      LinkedMeans(links, a, c);
      LinkedMeans(links, b, c);
    }
  }

  lemma StarsAreOneStep(links: map<Address, Address>)
    requires Star(links)
    ensures OneStep(links) && NoSelfLinks(links)
  {
  }

  // ---------------------------------------------------------------- the person as a class

  /** Whoever redeemed a payer's invite is somebody the links already join the payer to. */
  ghost predicate RedemptionsAgree(s: Snapshot) {
    forall payer | payer in s.invites ::
      var redeemer := RedeemerAddress(s, Some(s.invites[payer]));
      redeemer == "" || Owner(MergedLinks(s), redeemer) == Owner(MergedLinks(s), payer)
  }

  /**
   * When the merged links form a star and no stated link disagrees with a redemption, `personAt`
   * answers the whole class of an address, and the same class and primary from any member of it.
   */
  lemma PersonIsClass(s: Snapshot, a: Address, b: Address)
    requires Star(MergedLinks(s)) && RedemptionsAgree(s) && a != "" && b != ""
    ensures PersonAt(s, a).addresses == LinkedTo(MergedLinks(s), {a})
    ensures PersonAt(s, a).primary == Some(Owner(MergedLinks(s), a))
    ensures b in PersonAt(s, a).addresses
            <==> Owner(MergedLinks(s), b) == Owner(MergedLinks(s), a)
    ensures b in PersonAt(s, a).addresses ==>
              PersonAt(s, b).addresses == PersonAt(s, a).addresses && PersonAt(s, b).primary == PersonAt(s, a).primary
  {
    PersonIsLinked(s, a);
    PersonIsLinked(s, b);
    LinkedMeans(MergedLinks(s), a, b);
    if b in LinkedTo(MergedLinks(s), {a}) {
      LinkedToIsClass(MergedLinks(s), a, b);
    }
  }

  lemma PersonParts(s: Snapshot, a: Address)
    requires a != ""
    ensures var redeemer := RedeemerAddress(s, if a in s.invites then Some(s.invites[a]) else None);
            PersonAt(s, a).addresses == LinkedTo(MergedLinks(s), {a, redeemer} - {""})
    ensures PersonAt(s, a).primary == Some(Owner(MergedLinks(s), a))
  {
    hide MergedLinks, LinkedTo, RedeemerRecords, RedeemerAddress, RecordsAt;
  }

  lemma PersonIsLinked(s: Snapshot, a: Address)
    requires Star(MergedLinks(s)) && RedemptionsAgree(s) && a != ""
    ensures PersonAt(s, a).addresses == LinkedTo(MergedLinks(s), {a})
    ensures PersonAt(s, a).primary == Some(Owner(MergedLinks(s), a))
  {
    var links := MergedLinks(s);
    var redeemer := RedeemerAddress(s, if a in s.invites then Some(s.invites[a]) else None);
    PersonParts(s, a);
    assert redeemer == "" || Owner(links, redeemer) == Owner(links, a) by {
      hide RedeemerAddress;
      assert RedeemerAddress(s, None) == "" by { NoCodeNoRedeemer(s); }
    }
    hide PersonAt, MergedLinks, RedeemerAddress, RedemptionsAgree;
    OneOwnerLinks(links, a, {a, redeemer} - {""});
  }

  lemma NoCodeNoRedeemer(s: Snapshot)
    ensures RedeemerAddress(s, None) == ""
  {
  }

  lemma OneOwnerLinks(links: map<Address, Address>, a: Address, seeds: set<Address>)
    requires Star(links) && a in seeds && forall seed | seed in seeds :: Owner(links, seed) == Owner(links, a)
    ensures LinkedTo(links, seeds) == LinkedTo(links, {a})
  {
    var owners := set seed | seed in seeds :: Owner(links, seed);
    assert Owner(links, a) in owners;
    assert owners == {Owner(links, a)};
    forall c ensures c in LinkedTo(links, seeds) <==> c in LinkedTo(links, {a}) {
      LinkedMeans(links, a, c);
    }
  }

  /** A chain of a redemption behind a stated link is where one step is not enough. */
  lemma ChainSplitsAPerson()
    ensures var s := Snapshot([Record(1, "c", "c", None, None)], [Invitation("I", ById(1))], map["a" := "b"],
                              map["b" := "I"]);
            && MergedLinks(s) == map["a" := "b", "b" := "c"]
            && "c" !in PersonAt(s, "a").addresses && "a" !in PersonAt(s, "c").addresses
            && "c" in PersonAt(s, "b").addresses
  {
    var s := Snapshot([Record(1, "c", "c", None, None)], [Invitation("I", ById(1))], map["a" := "b"], map["b" := "I"]);
    var links := map["a" := "b", "b" := "c"];
    assert RedeemerOf(s, Some("I")) == Some(s.users[0]);
    assert MergedLinks(s) == links;
    PersonParts(s, "a");
    PersonParts(s, "b");
    PersonParts(s, "c");
    hide PersonAt, MergedLinks, RedeemerOf;
    LinkedMeans(links, "a", "c");
    LinkedMeans(links, "c", "a");
    assert {"a", ""} - {""} == {"a"} && {"c", ""} - {""} == {"c"};
  }

  /** A record carrying an address is one of the person's exactly when its address is. */
  lemma RecordsFollowAddresses(s: Snapshot, a: Address, user: Record)
    requires a != "" && user in s.users && user.email != ""
    requires forall x, y | x in s.users && y in s.users && x.id == y.id :: x == y
    ensures user in EveryRecord(s, PersonAt(s, a)) <==> user.email in PersonAt(s, a).addresses
  {
    var person := PersonAt(s, a);
    var links := MergedLinks(s);
    var code := if a in s.invites then Some(s.invites[a]) else None;
    var redeemer := RedeemerAddress(s, code);
    var seeds := {a, redeemer} - {""};
    assert a in seeds;
    assert Owner(links, a) in (set seed | seed in seeds :: Owner(links, seed));
    if user in person.records && person.via == ViaLink {
      assert links[a] == s.links[a];
    }
    var found := set record | record in person.records :: record.id;
    assert user in person.records ==> user.id in found;
    if user.id in found {
      var record :| record in person.records && record.id == user.id;
      assert record in s.users;
      assert record == user;
    }
  }

  // ---------------------------------------------------------------- the evidence, one kind at a time

  /** A stated link is the merged one; without one, the redeemer of the payer's invite is, unless that is the payer. */
  lemma StatedLinksOutrank(s: Snapshot, payer: Address)
    ensures payer in s.links && s.links[payer] != "" ==>
              payer in MergedLinks(s) && MergedLinks(s)[payer] == s.links[payer]
    ensures (payer in s.links ==> s.links[payer] == "") && payer in s.invites ==>
              var redeemer := RedeemerAddress(s, Some(s.invites[payer]));
              && (payer in MergedLinks(s) <==> redeemer != "" && redeemer != payer)
              && (payer in MergedLinks(s) ==> MergedLinks(s)[payer] == redeemer)
    ensures payer !in s.links && payer !in s.invites ==> payer !in MergedLinks(s)
  {
    hide RedeemerAddress;
  }

  /** The account an invitation says redeemed it. */
  predicate NamesRedeemer(invitation: Invitation, user: Record) {
    match invitation.usedBy
    case Unused => false
    case ById(id) => user.id == id
    case ByName(username) => user.username == username
  }

  lemma {:induction false} FirstInList<T(!new)>(matches: T -> bool, items: seq<T>, i: nat)
    requires i < |items| && matches(items[i]) && forall j | 0 <= j < i :: !matches(items[j])
    ensures First(matches, items) == Some(items[i])
    decreases |items|
  {
    if i > 0 {
      FirstInList(matches, items[1..], i - 1);
    }
  }

  /** The first invitation of a code, and the first account it names. */
  lemma RedeemerIsNamed(s: Snapshot, code: string, i: nat, k: nat)
    requires code != "" && i < |s.invitations| && s.invitations[i].code == code
    requires forall j | 0 <= j < i :: s.invitations[j].code != code
    requires k < |s.users| && NamesRedeemer(s.invitations[i], s.users[k])
    requires forall j | 0 <= j < k :: !NamesRedeemer(s.invitations[i], s.users[j])
    ensures RedeemerOf(s, Some(code)) == Some(s.users[k])
    ensures RedeemerAddress(s, Some(code)) == s.users[k].email
  {
    FirstInList((row: Invitation) => row.code == code, s.invitations, i);
    match s.invitations[i].usedBy
    case Unused =>
    case ById(id) => FirstInList((user: Record) => user.id == id, s.users, k);
    case ByName(username) => FirstInList((user: Record) => user.username == username, s.users, k);
  }

  /** Nobody redeemed an invite that is missing, unknown, unused, or names no account. */
  lemma NobodyRedeems(s: Snapshot, code: Option<string>)
    requires code.Some? && code.value != "" ==>
               forall invitation, user | invitation in s.invitations && user in s.users ::
                 invitation.code == code.value ==> !NamesRedeemer(invitation, user)
    ensures RedeemerOf(s, code).None? && RedeemerAddress(s, code) == ""
  {
  }

  predicate HasRecord(users: seq<Record>, address: Address) {
    exists user :: user in users && user.email == address
  }

  /**
   * An address's own records answer first, then those of the address an admin linked it to, then those
   * the redeemer of its invite holds; each time all there are and no other.
   */
  lemma EvidenceInOrder(s: Snapshot, email: Address, code: Option<string>, user: Record)
    requires email != "" && user in s.users
    ensures var person := IdentityFor(s, Some(email), code);
            var linked := if email in s.links then s.links[email] else "";
            if HasRecord(s.users, email) then
              person.via == ViaEmail && (user in person.records <==> user.email == email)
            else if linked != "" && HasRecord(s.users, linked) then
              person.via == ViaLink && (user in person.records <==> user.email == linked)
            else match RedeemerOf(s, code)
              case None => person.via == ViaNone && person.records == []
              case Some(redeemer) =>
                && person.via == ViaInvite
                && (user in person.records
                    <==> if redeemer.email == "" then user == redeemer else user.email == redeemer.email)
  {
    hide MergedLinks, LinkedTo;
    var linked := if email in s.links then s.links[email] else "";
    RecordsAre(s.users, email);
    RecordsAre(s.users, linked);
    if RedeemerOf(s, code).Some? {
      RecordsAre(s.users, RedeemerOf(s, code).value.email);
      RedeemerIsAUser(s, code);
    }
    hide RecordsAt, RedeemerOf;
  }

  lemma RecordsAre(users: seq<Record>, address: Address)
    ensures HasRecord(users, address) <==> |RecordsAt(users, address)| > 0
    ensures forall user :: user in RecordsAt(users, address) <==> user in users && user.email == address
  {
    var found := RecordsAt(users, address);
    if |found| > 0 {
      assert found[0] in found;
    }
  }

  lemma RedeemerIsAUser(s: Snapshot, code: Option<string>)
    requires RedeemerOf(s, code).Some?
    ensures RedeemerOf(s, code).value in s.users
  {
  }
}
