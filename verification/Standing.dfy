/** The tag an admin puts on a member, and which one governs a person tagged under several addresses. */
module Standing {
  import opened Options
  import opened Identity

  datatype Tag = Vip | Hvu | Banned

  function Strength(tag: Tag): nat {
    match tag
    case Banned => 3
    case Vip => 2
    case Hvu => 1
  }

  /** The reduce over a list of tags: a strictly stronger one replaces what stands. */
  function StrongestTag(tags: seq<Option<Tag>>, strongest: Option<Tag> := None): Option<Tag>
    decreases |tags|
  {
    if |tags| == 0 then strongest else
    var next := tags[0];
    StrongestTag(tags[1..], if next.Some? && (strongest.None? || Strength(next.value) > Strength(strongest.value))
                            then next else strongest)
  }

  /** The tag that governs a set of addresses, with no order in it. */
  function Governing(tags: map<Address, Tag>, addresses: set<Address>): Option<Tag> {
    if exists a :: a in addresses && a in tags && tags[a] == Banned then Some(Banned)
    else if exists a :: a in addresses && a in tags && tags[a] == Vip then Some(Vip)
    else if exists a :: a in addresses && a in tags then Some(Hvu)
    else None
  }

  predicate IsBanned(tag: Option<Tag>) { tag == Some(Banned) }
  predicate HoldsStandingGrant(tag: Option<Tag>) { tag == Some(Vip) }
  predicate IsTimeBoxed(tag: Option<Tag>) { !IsBanned(tag) && !HoldsStandingGrant(tag) }

  function TagsOf(tags: map<Address, Tag>, order: seq<Address>): seq<Option<Tag>> {
    seq(|order|, i requires 0 <= i < |order| => if order[i] in tags then Some(tags[order[i]]) else None)
  }

  function Ranked(tag: Option<Tag>): nat { if tag.None? then 0 else Strength(tag.value) }

  lemma {:induction false} StrongestIsMaximum(tags: seq<Option<Tag>>, strongest: Option<Tag>)
    ensures var r := StrongestTag(tags, strongest);
            && (r == strongest || r in tags)
            && Ranked(r) >= Ranked(strongest)
            && (forall t | t in tags :: Ranked(r) >= Ranked(t))
    decreases |tags|
  {
    if |tags| > 0 {
      var next := tags[0];
      var standing := if next.Some? && (strongest.None? || Strength(next.value) > Strength(strongest.value))
                      then next else strongest;
      StrongestIsMaximum(tags[1..], standing);
      assert forall t :: t in tags <==> t == next || t in tags[1..];
    }
  }

  /** Whatever order a person's addresses are walked in, the strongest tag among them governs. */
  lemma StrongestAcrossIsGoverning(tags: map<Address, Tag>, addresses: set<Address>, order: seq<Address>)
    requires forall a :: a in order <==> a in addresses
    ensures StrongestTag(TagsOf(tags, order)) == Governing(tags, addresses)
  {
    var listed := TagsOf(tags, order);
    var r := StrongestTag(listed);
    StrongestIsMaximum(listed, None);
    forall a | a in addresses && a in tags ensures Some(tags[a]) in listed {
      var i :| 0 <= i < |order| && order[i] == a;
      assert listed[i] == Some(tags[a]);
    }
    if r.Some? {
      var i :| 0 <= i < |listed| && listed[i] == r;
      assert order[i] in addresses && order[i] in tags && tags[order[i]] == r.value;
    }
  }

  predicate Carries(tags: map<Address, Tag>, a: Address, tag: Tag) {
    a in tags && tags[a] == tag
  }

  /** Banned under any address is banned, VIP under any is VIP unless banned, and an HVU tag alone changes nothing. */
  lemma OneAddressDecides(tags: map<Address, Tag>, order: seq<Address>)
    ensures var tag := StrongestTag(TagsOf(tags, order));
            && (IsBanned(tag) <==> exists a :: a in order && Carries(tags, a, Banned))
            && (HoldsStandingGrant(tag) <==> (exists a :: a in order && Carries(tags, a, Vip))
                                             && forall a | a in order :: !Carries(tags, a, Banned))
            && (IsTimeBoxed(tag) <==>
                  forall a | a in order :: !Carries(tags, a, Banned) && !Carries(tags, a, Vip))
  {
    StrongestAcrossIsGoverning(tags, (set a | a in order), order);
    hide StrongestTag;
  }

  /** One person, one tag: it is the same whichever of their addresses is asked about. */
  lemma TagIsThePersons(s: Snapshot, tags: map<Address, Tag>, a: Address, b: Address, orderA: seq<Address>,
                        orderB: seq<Address>)
    requires Star(MergedLinks(s)) && RedemptionsAgree(s) && a != "" && b != ""
    requires b in PersonAt(s, a).addresses
    requires forall x :: x in orderA <==> x in PersonAt(s, a).addresses
    requires forall x :: x in orderB <==> x in PersonAt(s, b).addresses
    ensures StrongestTag(TagsOf(tags, orderA)) == StrongestTag(TagsOf(tags, orderB))
  {
    PersonIsClass(s, a, b);
    StrongestAcrossIsGoverning(tags, PersonAt(s, a).addresses, orderA);
    StrongestAcrossIsGoverning(tags, PersonAt(s, b).addresses, orderB);
  }
}
