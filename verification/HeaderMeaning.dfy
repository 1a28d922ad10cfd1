/** What the light client accepts, said of the headers themselves. */
module HeaderMeaning {
  import opened Hashing
  import opened Sequences
  import opened Blocks
  import opened LedgerSafety
  import opened ChainChecks
  import opened LightClient

  /** Authorized validators, all different, signed the header's hash, its proposer and, if it is marked final,
      a quorum among them. */
  predicate Genuine(h: Header, authorized: set<Key>, quorum: int) {
    && h.validator in authorized && h.validatorSignature == Signed(h.validator, BlockMessage(h.hash))
    && (forall i :: 0 <= i < |h.approvals| ==>
          h.approvals[i].validator in authorized
          && h.approvals[i].signature == Signed(h.approvals[i].validator, BlockMessage(h.hash)))
    && (forall i, k :: 0 <= i < k < |h.approvals| ==> h.approvals[i].validator != h.approvals[k].validator)
    && (h.finalized ==> |{h.validator} + Signers(h.approvals)| >= quorum)
  }

  function Signers(approvals: seq<Approval>): set<Key> {
    set a | a in approvals :: a.validator
  }

  lemma SignersAre(approvals: seq<Approval>)
    ensures Signers(approvals) == Approvers(approvals)
  {
    forall v | v in Signers(approvals) ensures v in Approvers(approvals) {
      var a :| a in approvals && a.validator == v;
      var k :| 0 <= k < |approvals| && approvals[k] == a;
      assert approvals[k].validator == v;
    }
  }

  lemma CountedAre(h: Header)
    requires DistinctApprovals(h.approvals)
    ensures DistinctApprovals(CountedApprovals(h))
    ensures |CountedApprovals(h)| == |{h.validator} + Signers(h.approvals)|
  {
    var own := Approval(h.validator, h.validatorSignature);
    SignersAre(h.approvals);
    if h.validator !in Approvers(h.approvals) {
      AddedDistinct(h.approvals, own);
      ApproversAppend(h.approvals, own);
    }
    SignersCount(CountedApprovals(h));
    assert Approvers(CountedApprovals(h)) == {h.validator} + Signers(h.approvals);
  }

  lemma ApprovalsSigned(h: Header, authorized: set<Key>)
    requires GoodApproval(Approval(h.validator, h.validatorSignature), h.hash, authorized)
    ensures GoodApprovals(CountedApprovals(h), h.hash, authorized) <==> GoodApprovals(h.approvals, h.hash, authorized)
    ensures DistinctApprovals(CountedApprovals(h)) <==> DistinctApprovals(h.approvals)
  {
    var own := Approval(h.validator, h.validatorSignature);
    if h.validator !in Approvers(h.approvals) {
      AddedGood(h.approvals, own, h.hash, authorized);
      AddedDistinct(h.approvals, own);
    }
  }

  /** The signature check accepts exactly the genuine headers. */
  lemma GoodIffGenuine(h: Header, authorized: set<Key>, quorum: int)
    ensures GoodHeader(h, authorized, quorum) <==> Genuine(h, authorized, quorum)
  {
    if GoodApproval(Approval(h.validator, h.validatorSignature), h.hash, authorized) {
      ApprovalsSigned(h, authorized);
      if DistinctApprovals(h.approvals) {
        CountedAre(h);
      }
    }
  }

  /** The headers, lowest first, have consecutive heights, each names the hash of the one before it, the first
      is the one asked for, a first header at height zero names the zero hash, and all are genuine. */
  ghost predicate IsChain(s: seq<Header>, fromHeight: Option<int>, authorized: set<Key>, quorum: int) {
    && s != []
    && (fromHeight.Some? ==> s[0].height == fromHeight.value)
    && (s[0].height == 0 ==> s[0].previousHash == ZeroHash)
    && (forall k :: 0 <= k < |s| ==> s[k].height == s[0].height + k)
    && (forall k :: 0 < k < |s| ==> s[k].previousHash == s[k - 1].hash)
    && (forall k :: 0 <= k < |s| ==> Genuine(s[k], authorized, quorum))
  }

  lemma FitsIff(s: seq<Header>, k: nat, start: int, authorized: set<Key>, quorum: int)
    requires k < |s|
    ensures HeaderFits(s, k, start, Anchor(start), authorized, quorum) <==>
            && s[k].height == start + k
            && (if k == 0 then start == 0 ==> s[0].previousHash == ZeroHash else s[k].previousHash == s[k - 1].hash)
            && Genuine(s[k], authorized, quorum)
  {
    GoodIffGenuine(s[k], authorized, QuorumFor(s[k], quorum));
  }

  lemma ChainIff(s: seq<Header>, fromHeight: Option<int>, authorized: set<Key>, quorum: int)
    requires s != []
    ensures SortedFits(s, fromHeight, authorized, quorum) <==> IsChain(s, fromHeight, authorized, quorum)
  {
    var start := StartOf(s, fromHeight);
    if SortedFits(s, fromHeight, authorized, quorum) {
      forall k | 0 <= k < |s|
        ensures s[k].height == start + k && Genuine(s[k], authorized, quorum)
        ensures k > 0 ==> s[k].previousHash == s[k - 1].hash
      {
        FitsIff(s, k, start, authorized, quorum);
        assert HeaderFits(s, k, start, Anchor(start), authorized, quorum);
      }
      FitsIff(s, 0, start, authorized, quorum);
      assert s[0].height == start && HeaderFits(s, 0, start, Anchor(start), authorized, quorum);
    }
    if IsChain(s, fromHeight, authorized, quorum) {
      forall k | 0 <= k < |s| ensures HeaderFits(s, k, start, Anchor(start), authorized, quorum) {
        FitsIff(s, k, start, authorized, quorum);
      }
    }
  }

  /** Headers pass the chain check exactly when they can be arranged into such a chain. */
  lemma ValidIffChain(headers: seq<Header>, fromHeight: Option<int>, authorized: set<Key>, quorum: int)
    requires headers != []
    ensures Valid(headers, fromHeight, authorized, quorum) <==>
            exists s :: multiset(s) == multiset(headers) && IsChain(s, fromHeight, authorized, quorum)
  {
    var sorted := Sort(HeightLeq, headers);
    HeightOrder();
    SortProperties(HeightLeq, headers);
    ChainIff(sorted, fromHeight, authorized, quorum);
    forall s | multiset(s) == multiset(headers) && IsChain(s, fromHeight, authorized, quorum)
      ensures Valid(headers, fromHeight, authorized, quorum)
    {
      ChainIff(s, fromHeight, authorized, quorum);
      ValidByArrangement(headers, s, fromHeight, authorized, quorum);
    }
  }

  /** Asking for a start height accepts exactly what is accepted without it and starts there. */
  lemma StartHeightIff(headers: seq<Header>, height: int, authorized: set<Key>, quorum: int)
    requires headers != []
    ensures Valid(headers, Some(height), authorized, quorum) <==>
            && Valid(headers, None, authorized, quorum)
            && (exists h :: h in headers && h.height == height)
            && forall h :: h in headers ==> height <= h.height
  {
    var s := Sort(HeightLeq, headers);
    HeightOrder();
    SortProperties(HeightLeq, headers);
    ChainIff(s, Some(height), authorized, quorum);
    ChainIff(s, None, authorized, quorum);
    forall h ensures h in headers <==> h in s {
      assert h in headers <==> h in multiset(headers);
      assert h in s <==> h in multiset(s);
    }
    assert s[0] in s;
    forall h | h in s ensures s[0].height <= h.height {
      LeastFirst(HeightLeq, s, h);
    }
  }

  /** Which check of its signatures a header fails first: the proposer's authority, the proposer's signature,
      the first approval that is unauthorized, repeated or badly signed, and the quorum. */
  lemma FaultOrder(h: Header, authorized: set<Key>, quorum: int)
    ensures var fault := HeaderFault(h, authorized, quorum);
            var signed := h.validatorSignature == Signed(h.validator, BlockMessage(h.hash));
            && (fault == Some(UnauthorizedValidator) <==> h.validator !in authorized)
            && (fault == Some(BadProposerSignature) <==> h.validator in authorized && !signed)
            && (fault == Some(QuorumNotMet) <==>
                  Genuine(h.(finalized := false), authorized, quorum) && !Genuine(h, authorized, quorum))
            && (fault == None <==> Genuine(h, authorized, quorum))
  {
    FaultIff(h, authorized, quorum);
    FaultIff(h.(finalized := false), authorized, quorum);
    GoodIffGenuine(h, authorized, quorum);
    GoodIffGenuine(h.(finalized := false), authorized, quorum);
    FaultsOfApprovals(CountedApprovals(h), h.hash, authorized);
  }

  lemma {:induction false} FaultsOfApprovals(approvals: seq<Approval>, hash: Digest, authorized: set<Key>)
    ensures ApprovalsFault(approvals, hash, authorized)
            in {None, Some(UnauthorizedApproval), Some(DuplicateApproval), Some(BadApprovalSignature)}
  {
    if approvals != [] {
      FaultsOfApprovals(approvals[..|approvals| - 1], hash, authorized);
    }
  }

  /** Approval i is the first that is by a stranger, by an earlier approver, or badly signed, in this order. */
  ghost predicate FirstBad(approvals: seq<Approval>, hash: Digest, authorized: set<Key>, i: nat, e: LedgerError) {
    && i < |approvals|
    && (forall k :: 0 <= k < i ==>
          approvals[k].validator in authorized
          && approvals[k].signature == Signed(approvals[k].validator, BlockMessage(hash)))
    && (forall j, k :: 0 <= j < k < i ==> approvals[j].validator != approvals[k].validator)
    && if approvals[i].validator !in authorized then e == UnauthorizedApproval
       else if exists k :: 0 <= k < i && approvals[k].validator == approvals[i].validator then e == DuplicateApproval
       else e == BadApprovalSignature && approvals[i].signature != Signed(approvals[i].validator, BlockMessage(hash))
  }

  /** The fault of a list of approvals is that of the first bad one. */
  lemma FirstBadDecides(approvals: seq<Approval>, hash: Digest, authorized: set<Key>, i: nat, e: LedgerError)
    requires FirstBad(approvals, hash, authorized, i, e)
    ensures ApprovalsFault(approvals, hash, authorized) == Some(e)
  {
    var before := approvals[..i];
    assert forall k :: 0 <= k < i ==> before[k] == approvals[k];
    assert approvals[i].validator in Approvers(before) <==>
           exists k :: 0 <= k < i && approvals[k].validator == approvals[i].validator;
    FirstFaultDecides(approvals, hash, authorized, i, e);
  }

  // ---------------------------------------------------------------------------------------------
  // What the report lists
  // ---------------------------------------------------------------------------------------------

  /** Header k is wrong in the way the error says. */
  ghost predicate Wrong(s: seq<Header>, k: nat, start: int, authorized: set<Key>, quorum: int, e: HeaderError)
    requires k < |s|
  {
    match e
    case HeightGap(height, expected) => height == s[k].height && expected == start + k && height != expected
    case LinkBroken(height) =>
      height == s[k].height
      && if k > 0 then s[k].previousHash != s[k - 1].hash else start == 0 && s[0].previousHash != ZeroHash
    case BadHeader(height, fault) =>
      height == s[k].height && HeaderFault(s[k], authorized, if s[k].finalized then quorum else 1) == Some(fault)
  }

  lemma WrongIff(s: seq<Header>, k: nat, start: int, authorized: set<Key>, quorum: int, e: HeaderError)
    requires k < |s|
    ensures e in ErrorLists(s, start, Anchor(start), authorized, quorum)[k] <==>
            Wrong(s, k, start, authorized, quorum, e)
  {
    ErrorListAt(s, k, start, Anchor(start), authorized, quorum);
  }

  lemma {:induction false} InFlattened<T(!new)>(lists: seq<seq<T>>, x: T)
    ensures x in Flatten(lists) <==> exists k :: 0 <= k < |lists| && x in lists[k]
  {
    if lists != [] {
      var n := |lists| - 1;
      InFlattened(lists[..n], x);
      assert forall k :: 0 <= k < n ==> lists[..n][k] == lists[k];
    }
  }

  /** The errors of sorted headers are exactly what is wrong with one of them. */
  lemma ErrorsListed(s: seq<Header>, start: int, authorized: set<Key>, quorum: int, e: HeaderError)
    ensures e in Errors(s, start, Anchor(start), authorized, quorum) <==>
            exists k :: 0 <= k < |s| && Wrong(s, k, start, authorized, quorum, e)
  {
    var lists := ErrorLists(s, start, Anchor(start), authorized, quorum);
    InFlattened(lists, e);
    forall k | 0 <= k < |s| ensures e in lists[k] <==> Wrong(s, k, start, authorized, quorum, e) {
      WrongIff(s, k, start, authorized, quorum, e);
    }
  }
}
