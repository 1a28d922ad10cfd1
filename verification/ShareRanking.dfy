/** Ranking the shares of a room (rooms/dispatch.py): the candidates a dispatcher then tries in order. */
module ShareRanking {
  import opened Hashing
  import opened Sequences
  import opened Dispatch

  datatype Peer = Peer(id: string, online: bool, isGpuHost: bool)

  datatype Share = Share(id: ShareId, peer: Option<Peer>, isActive: bool, state: ShareState,
                         availableMemoryMb: int, utilization: Option<real>, gpuType: string)

  /** An empty string asks for nothing. */
  datatype Request = Request(memoryMb: int, gpuType: string, peerId: string, shareId: ShareId)

  predicate Eligible(share: Share, request: Request) {
    && share.peer.Some? && share.isActive && share.state == Idle
    && share.availableMemoryMb >= request.memoryMb
    && share.peer.value.online && share.peer.value.isGpuHost
    && (request.gpuType == "" || share.gpuType == request.gpuType)
    && (request.peerId == "" || share.peer.value.id == request.peerId)
    && (request.shareId == "" || share.id == request.shareId)
  }

  function Load(share: Share): real {
    if share.utilization.Some? then share.utilization.value else 0.0
  }

  /** More free memory first, then less load. */
  predicate Preferred(x: Share, y: Share) {
    || x.availableMemoryMb > y.availableMemoryMb
    || (x.availableMemoryMb == y.availableMemoryMb && Load(x) <= Load(y))
  }

  function RankEligibleShares(shares: seq<Share>, request: Request): seq<Share> {
    Sort((x: Share, y: Share) => Preferred(x, y), Filter((s: Share) => Eligible(s, request), shares))
  }

  function LoadOf(share: Share): real {
    match share.utilization case None => 0.0 case Some(load) => load
  }

  /** What rules a share out. */
  predicate RuledOut(share: Share, request: Request) {
    || !share.isActive || share.state != Idle || share.availableMemoryMb < request.memoryMb
    || share.peer.None? || !share.peer.value.online || !share.peer.value.isGpuHost
    || (request.gpuType != "" && request.gpuType != share.gpuType)
    || (request.shareId != "" && request.shareId != share.id)
    || (request.peerId != "" && request.peerId != share.peer.value.id)
  }

  /** Nothing speaks for the second share: it has no more memory, and with as much no less load. */
  predicate NoWorse(x: Share, y: Share) {
    y.availableMemoryMb <= x.availableMemoryMb
    && (x.availableMemoryMb == y.availableMemoryMb ==> LoadOf(x) <= LoadOf(y))
  }

  predicate AsGood(x: Share, y: Share) {
    x.availableMemoryMb == y.availableMemoryMb && LoadOf(x) == LoadOf(y)
  }

  /** The candidates as good as the share come in the order they are listed. */
  predicate AsListed(shares: seq<Share>, ranked: seq<Share>, request: Request, s: Share) {
    Filter((x: Share) => AsGood(s, x), ranked)
    == Filter((x: Share) => AsGood(s, x) && !RuledOut(x, request), shares)
  }

  lemma EligibleIff(share: Share, request: Request)
    ensures Eligible(share, request) <==> !RuledOut(share, request)
  {
  }

  lemma PreferredIff(x: Share, y: Share)
    ensures Preferred(x, y) <==> NoWorse(x, y)
  {
  }

  /** The candidates are exactly the shares that nothing rules out, each as often as it is listed, best first,
      and those as good as each other in the order they are listed. */
  lemma RankingMeaning(shares: seq<Share>, request: Request)
    ensures var ranked := RankEligibleShares(shares, request);
            && (forall s :: multiset(ranked)[s] == if RuledOut(s, request) then 0 else multiset(shares)[s])
            && (forall i, j :: 0 <= i < j < |ranked| ==> NoWorse(ranked[i], ranked[j]))
            && forall s :: AsListed(shares, ranked, request, s)
  {
    var leq, ok := (x: Share, y: Share) => Preferred(x, y), (s: Share) => Eligible(s, request);
    var eligible := Filter(ok, shares);
    SortProperties(leq, eligible);
    var ranked := RankEligibleShares(shares, request);
    forall i, j | 0 <= i < j < |ranked| ensures NoWorse(ranked[i], ranked[j]) {
      assert leq(ranked[i], ranked[j]);
      PreferredIff(ranked[i], ranked[j]);
    }
    forall s ensures multiset(ranked)[s] == if RuledOut(s, request) then 0 else multiset(shares)[s] {
      EligibleIff(s, request);
      if Eligible(s, request) {
        FilterCount(ok, shares, s);
      } else {
        assert s !in eligible;
      }
    }
    forall s ensures AsListed(shares, ranked, request, s) {
      ListedOrder(shares, request, s);
    }
  }

  lemma ListedOrder(shares: seq<Share>, request: Request, s: Share)
    ensures AsListed(shares, RankEligibleShares(shares, request), request, s)
  {
    var leq, ok := (x: Share, y: Share) => Preferred(x, y), (s: Share) => Eligible(s, request);
    var same := (x: Share) => AsGood(s, x);
    SortStable(leq, Filter(ok, shares), s);
    FilterSame(Ties(leq, s), same, RankEligibleShares(shares, request));
    FilterSame(Ties(leq, s), same, Filter(ok, shares));
    FilterTwice(same, ok, (x: Share) => AsGood(s, x) && !RuledOut(x, request), shares);
  }

  lemma {:induction false} FilterSame<T(!new)>(p: T -> bool, q: T -> bool, s: seq<T>)
    requires forall x :: p(x) <==> q(x)
    ensures Filter(p, s) == Filter(q, s)
  {
    if s != [] {
      FilterSame(p, q, s[..|s| - 1]);
    }
  }

  lemma {:induction false} FilterTwice<T(!new)>(p: T -> bool, q: T -> bool, both: T -> bool, s: seq<T>)
    requires forall x :: both(x) <==> p(x) && q(x)
    ensures Filter(p, Filter(q, s)) == Filter(both, s)
  {
    if s != [] {
      var front, y := s[..|s| - 1], s[|s| - 1];
      FilterTwice(p, q, both, front);
      FilterNext(p, q, both, s, front, y);
    }
  }

  lemma FilterNext<T(!new)>(p: T -> bool, q: T -> bool, both: T -> bool, s: seq<T>, front: seq<T>, y: T)
    requires s == front + [y] && (both(y) <==> p(y) && q(y))
    requires Filter(p, Filter(q, front)) == Filter(both, front)
    ensures Filter(p, Filter(q, s)) == Filter(both, s)
  {
    FilterSnoc(q, front, y);
    FilterSnoc(both, front, y);
    FilterSnoc(p, Filter(q, front), y);
  }
}
