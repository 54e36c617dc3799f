/** The admin's links, each request checked against the ones already there. */
module MemberLinks {
  import opened Options
  import opened Identity

  /** `memberLinkConflict`: why a proposed link is refused, told here only as whether it is. */
  predicate Conflict(links: map<Address, Address>, payer: Address, plex: Option<Address>) {
    plex.Some? &&
    (payer == plex.value ||
     var proposed := links[payer := plex.value];
     exists p :: p in proposed && proposed[p] in proposed)
  }

  /** What one accepted request leaves behind. */
  function Relinked(links: map<Address, Address>, payer: Address, plex: Option<Address>): map<Address, Address> {
    if plex.Some? then links[payer := plex.value] else links - {payer}
  }

  datatype Request = Request(payer: Address, plex: Option<Address>)

  predicate Refused(links: map<Address, Address>, request: Request) {
    request.payer == "" || Conflict(links, request.payer, request.plex)
  }

  class LinkTable {
    var links: map<Address, Address>

    constructor ()
      ensures links == map[]
    {
      links := map[];
    }

    /** `linkAddress`, past the trimming and lowercasing of what the admin typed. */
    method LinkAddress(request: Request) returns (accepted: bool)
      modifies this
      ensures accepted == !Refused(old(links), request)
      ensures links == LinkRun(old(links), [request])
      ensures accepted && request.plex.Some? ==> links == old(links)[request.payer := request.plex.value]
      ensures accepted && request.plex.None? ==> links == old(links) - {request.payer}
      ensures !accepted ==> links == old(links)
    {
      assert [request][1..] == [];
      if request.payer == "" {
        return false;
      }
      if Conflict(links, request.payer, request.plex) {
        return false;
      }
      if request.plex.Some? {
        links := links[request.payer := request.plex.value];
      } else {
        links := links - {request.payer};
      }
      return true;
    }
  }

  /** A run of requests, the refused ones leaving the table as it was. */
  function LinkRun(links: map<Address, Address>, requests: seq<Request>): map<Address, Address>
    decreases |requests|
  {
    if |requests| == 0 then links else
    var request := requests[0];
    LinkRun(if Refused(links, request) then links else Relinked(links, request.payer, request.plex), requests[1..])
  }

  /** The table a run has come to after some of its requests. */
  function Table(links: map<Address, Address>, requests: seq<Request>, n: nat): map<Address, Address>
    requires n <= |requests|
  {
    LinkRun(links, requests[..n])
  }

  lemma {:induction false} LinkRunConcat(links: map<Address, Address>, first: seq<Request>, rest: seq<Request>)
    ensures LinkRun(links, first + rest) == LinkRun(LinkRun(links, first), rest)
    decreases |first|
  {
    if |first| == 0 {
      assert first + rest == rest;
    } else {
      assert (first + rest)[1..] == first[1..] + rest;
      var request := first[0];
      LinkRunConcat(if Refused(links, request) then links else Relinked(links, request.payer, request.plex), first[1..],
                    rest);
    }
  }

  /** A request of this payer that was accepted where its turn came. */
  ghost predicate Accepted(links: map<Address, Address>, requests: seq<Request>, payer: Address, n: int) {
    0 <= n < |requests| && requests[n].payer == payer && !Refused(Table(links, requests, n), requests[n])
  }

  /** One more request: it leaves everybody else's entry, and its own payer's as it asked, if it was accepted. */
  lemma OneMoreRequest(links: map<Address, Address>, requests: seq<Request>, payer: Address)
    requires |requests| > 0
    ensures var last := |requests| - 1;
            var before, after := Table(links, requests, last), LinkRun(links, requests);
            EntryOf(after, payer) == if Accepted(links, requests, payer, last) then requests[last].plex
                                     else EntryOf(before, payer)
  {
    var last := |requests| - 1;
    assert requests == requests[..last] + [requests[last]] && [requests[last]][1..] == [];
    LinkRunConcat(links, requests[..last], [requests[last]]);
  }

  /** The last of a payer's requests that was accepted. */
  ghost predicate LastAccepted(links: map<Address, Address>, requests: seq<Request>, payer: Address, n: int) {
    Accepted(links, requests, payer, n) && forall m | n < m < |requests| :: !Accepted(links, requests, payer, m)
  }

  /** What a payer's entry says, for a table that may have none. */
  function EntryOf(links: map<Address, Address>, payer: Address): Option<Address> {
    if payer in links then Some(links[payer]) else None
  }

  lemma EarlierAccepted(links: map<Address, Address>, requests: seq<Request>, payer: Address, n: int)
    requires 0 <= n < |requests| - 1
    ensures Accepted(links, requests[..|requests| - 1], payer, n) <==> Accepted(links, requests, payer, n)
  {
    assert requests[..|requests| - 1][..n] == requests[..n];
  }

  /**
   * After any run, a payer is linked to the destination of the last request of theirs that was accepted,
   * so to nobody when that one took the link back; and as they began when none was.
   */
  lemma {:induction false} LastAcceptedStands(links: map<Address, Address>, requests: seq<Request>, payer: Address,
                                              n: int)
    ensures LastAccepted(links, requests, payer, n) ==> EntryOf(LinkRun(links, requests), payer) == requests[n].plex
    ensures (forall m :: !Accepted(links, requests, payer, m)) ==>
              EntryOf(LinkRun(links, requests), payer) == EntryOf(links, payer)
    decreases |requests|
  {
    if |requests| > 0 {
      var last := |requests| - 1;
      var front := requests[..last];
      forall m | 0 <= m < last ensures Accepted(links, front, payer, m) <==> Accepted(links, requests, payer, m) {
        EarlierAccepted(links, requests, payer, m);
      }
      LastAcceptedStands(links, front, payer, n);
      OneMoreRequest(links, requests, payer);
      hide LinkRun, Refused;
      if LastAccepted(links, requests, payer, n) && n < last {
        assert LastAccepted(links, front, payer, n);
      }
      assert forall m | Accepted(links, front, payer, m) :: m < last;
    }
  }

  /** Every run from an empty table, or any star, keeps payers and destinations disjoint. */
  lemma {:induction false} RunsStayStars(links: map<Address, Address>, requests: seq<Request>)
    requires Star(links)
    ensures var after := LinkRun(links, requests);
            && Star(after) && after.Keys !! after.Values
    decreases |requests|
  {
    if |requests| > 0 {
      var request := requests[0];
      RunsStayStars(if Refused(links, request) then links else Relinked(links, request.payer, request.plex),
                    requests[1..]);
    }
  }

  /**
   * Over a table that is a star, a link is refused exactly when it would give somebody both roles:
   * the two ends are one address, the destination pays already, or the payer is a destination.
   */
  lemma RefusedMeans(links: map<Address, Address>, payer: Address, plex: Address)
    requires Star(links) && payer != ""
    ensures Refused(links, Request(payer, Some(plex)))
            <==> payer == plex || plex in links || exists p :: p in links && p != payer && links[p] == payer
  {
    var proposed := links[payer := plex];
    assert payer in proposed && proposed[payer] == plex;
    if p :| p in links && p != payer && links[p] == payer {
      assert proposed[p] == payer;
    }
  }

  /** Any accepted link can be taken back, and for a payer that had none that restores the table. */
  lemma UnlinkUndoes(links: map<Address, Address>, payer: Address, plex: Address)
    requires payer != "" && payer !in links && !Refused(links, Request(payer, Some(plex)))
    ensures LinkRun(links, [Request(payer, Some(plex)), Request(payer, None)]) == links
  {
    var link, unlink := Request(payer, Some(plex)), Request(payer, None);
    assert [link, unlink][1..] == [unlink] && [unlink][1..] == [];
    assert LinkRun(links, [link, unlink]) == LinkRun(links[payer := plex], [unlink]);
    assert LinkRun(links[payer := plex], [unlink]) == LinkRun(links[payer := plex] - {payer}, []);
    assert links[payer := plex] - {payer} == links;
  }

  /** With the stated links alone, every run leaves a person's addresses one component of them. */
  lemma RunsKeepPeopleWhole(requests: seq<Request>, a: Address, b: Address)
    ensures var links := LinkRun(map[], requests);
            b in LinkedTo(links, {a}) <==> Connected(links, a, b)
  {
    RunsStayStars(map[], requests);
    var links := LinkRun(map[], requests);
    StarsAreOneStep(links);
    LinkedToIsComponent(links);
  }
}
