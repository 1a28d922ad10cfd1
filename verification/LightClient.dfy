/** Offline verification of header chains (compute_ledger/light_client.py) and the headers a ledger
    exports (compute_ledger/service.py, export_headers). */
module LightClient {
  import opened Hashing
  import opened Sequences
  import opened Merkle
  import opened Blocks

  datatype Header = Header(
    height: int, hash: Digest, previousHash: Digest, timestamp: string, transactionsRoot: Digest,
    stateRoot: Digest, validator: Key, validatorSignature: Signature, approvals: seq<Approval>,
    finalized: bool)

  function FromBlock(b: Block): Header {
    Header(b.height, b.hash, b.previousHash, b.timestamp, b.transactionsRoot, b.stateRoot, b.validator,
           b.validatorSignature, b.approvals, b.finalized)
  }

  function HeadersOf(blocks: seq<Block>): (headers: seq<Header>)
    ensures |headers| == |blocks|
    ensures forall k :: 0 <= k < |blocks| ==> headers[k] == FromBlock(blocks[k])
  {
    seq(|blocks|, (k: nat) requires k < |blocks| => FromBlock(blocks[k]))
  }

  /** What the header at some height is found to get wrong. */
  datatype HeaderError =
    | HeightGap(height: int, expected: int)
    | LinkBroken(height: int)
    | BadHeader(height: int, fault: LedgerError)

  /** What the chain check reports; tip fields are those of the highest header. */
  datatype Report = Report(headers: nat, tipHash: Option<Digest>, tipHeight: int,
                           tipStateRoot: Option<Digest>, errors: seq<HeaderError>)
  {
    predicate Valid() { errors == [] }
  }

  // ---------------------------------------------------------------------------------------------
  // Specification
  // ---------------------------------------------------------------------------------------------

  /** The approvals of a header, the proposer's own added when it is missing. */
  function CountedApprovals(h: Header): seq<Approval> {
    if h.validator in Approvers(h.approvals) then h.approvals
    else h.approvals + [Approval(h.validator, h.validatorSignature)]
  }

  predicate GoodHeader(h: Header, authorized: set<Key>, quorum: int) {
    && GoodApproval(Approval(h.validator, h.validatorSignature), h.hash, authorized)
    && GoodApprovals(CountedApprovals(h), h.hash, authorized)
    && DistinctApprovals(CountedApprovals(h))
    && (h.finalized ==> |CountedApprovals(h)| >= quorum)
  }

  /** The first check of its signatures that a header fails. */
  function HeaderFault(h: Header, authorized: set<Key>, quorum: int): Option<LedgerError> {
    if h.validator !in authorized then Some(UnauthorizedValidator)
    else if !VerifySignature(h.validator, BlockMessage(h.hash), h.validatorSignature) then
      Some(BadProposerSignature)
    else
      var fault := ApprovalsFault(CountedApprovals(h), h.hash, authorized);
      if fault.Some? then fault
      else if h.finalized && |CountedApprovals(h)| < quorum then Some(QuorumNotMet)
      else None
  }

  function QuorumFor(h: Header, quorum: int): int {
    if h.finalized then quorum else 1
  }

  predicate HeightLeq(a: Header, b: Header) { a.height <= b.height }

  /** Header k has its height, names its predecessor's hash and is well signed. */
  predicate HeaderFits(s: seq<Header>, k: nat, start: int, before: Option<Digest>, authorized: set<Key>,
                       quorum: int)
    requires k < |s|
  {
    && s[k].height == start + k
    && (if k == 0 then before.Some? ==> s[0].previousHash == before.value
        else s[k].previousHash == s[k - 1].hash)
    && GoodHeader(s[k], authorized, QuorumFor(s[k], quorum))
  }

  /** The errors of a header, in the order of the checks. */
  function HeaderErrors(h: Header, expected: int, link: Option<Digest>, authorized: set<Key>, quorum: int)
    : seq<HeaderError>
  {
    var fault := HeaderFault(h, authorized, QuorumFor(h, quorum));
    (if h.height != expected then [HeightGap(h.height, expected)] else [])
    + (if link.Some? && h.previousHash != link.value then [LinkBroken(h.height)] else [])
    + (if fault.Some? then [BadHeader(h.height, fault.value)] else [])
  }

  function ErrorsAt(s: seq<Header>, k: nat, start: int, before: Option<Digest>, authorized: set<Key>,
                    quorum: int): seq<HeaderError>
    requires k < |s|
  {
    HeaderErrors(s[k], start + k, if k == 0 then before else Some(s[k - 1].hash), authorized, quorum)
  }

  function ErrorLists(s: seq<Header>, start: int, before: Option<Digest>, authorized: set<Key>, quorum: int)
    : (lists: seq<seq<HeaderError>>)
    ensures |lists| == |s|
  {
    seq(|s|, (k: nat) requires k < |s| => ErrorsAt(s, k, start, before, authorized, quorum))
  }

  /** The errors of all headers, lowest first. */
  function Errors(s: seq<Header>, start: int, before: Option<Digest>, authorized: set<Key>, quorum: int)
    : seq<HeaderError>
  {
    Flatten(ErrorLists(s, start, before, authorized, quorum))
  }

  ghost predicate ChainFits(s: seq<Header>, start: int, before: Option<Digest>, authorized: set<Key>,
                            quorum: int)
  {
    forall k {:trigger HeaderFits(s, k, start, before, authorized, quorum)} :: 0 <= k < |s| ==>
      HeaderFits(s, k, start, before, authorized, quorum)
  }

  function StartOf(s: seq<Header>, fromHeight: Option<int>): int
    requires s != []
  {
    if fromHeight.Some? then fromHeight.value else s[0].height
  }

  /** Only a chain that starts at height zero is anchored to the genesis marker. */
  function Anchor(start: int): Option<Digest> {
    if start == 0 then Some(ZeroHash) else None
  }

  ghost predicate SortedFits(s: seq<Header>, fromHeight: Option<int>, authorized: set<Key>, quorum: int)
    requires s != []
  {
    var start := StartOf(s, fromHeight);
    ChainFits(s, start, Anchor(start), authorized, quorum)
  }

  /** The chain check finds no error. */
  ghost predicate Valid(headers: seq<Header>, fromHeight: Option<int>, authorized: set<Key>, quorum: int) {
    headers != [] ==> Sort(HeightLeq, headers) != []
                      && SortedFits(Sort(HeightLeq, headers), fromHeight, authorized, quorum)
  }

  /** The proof is accepted against the header. */
  predicate Included(h: Header, proof: Proof) {
    proof.root == h.transactionsRoot && Verifies(proof)
  }

  // ---------------------------------------------------------------------------------------------
  // The code
  // ---------------------------------------------------------------------------------------------

  method VerifyHeaderSignatures(header: Header, authorized: set<Key>, quorum: int)
    returns (r: Result<(), LedgerError>)
    ensures r.Ok? <==> GoodHeader(header, authorized, quorum)
    ensures r.Err? ==> HeaderFault(header, authorized, quorum) == Some(r.error)
  {
    if header.validator !in authorized {
      return Err(UnauthorizedValidator);
    }
    if !VerifySignature(header.validator, BlockMessage(header.hash), header.validatorSignature) {
      return Err(BadProposerSignature);
    }
    var approvals := header.approvals;
    if header.validator !in Approvers(approvals) {
      approvals := approvals + [Approval(header.validator, header.validatorSignature)];
    }
    var seen := CheckApprovals(approvals, header.hash, authorized);
    if seen.Err? {
      ghost var i :| FirstFault(approvals, header.hash, authorized, i, seen.error);
      FirstFaultDecides(approvals, header.hash, authorized, i, seen.error);
      return Err(seen.error);
    }
    ApprovalsFaultIff(approvals, header.hash, authorized);
    if header.finalized && |seen.value| < quorum {
      return Err(QuorumNotMet);
    }
    return Ok(());
  }

  lemma FaultIff(h: Header, authorized: set<Key>, quorum: int)
    ensures HeaderFault(h, authorized, quorum).None? <==> GoodHeader(h, authorized, quorum)
  {
    ApprovalsFaultIff(CountedApprovals(h), h.hash, authorized);
  }

  lemma ErrorsAtIff(s: seq<Header>, k: nat, start: int, before: Option<Digest>, authorized: set<Key>, quorum: int)
    requires k < |s|
    ensures ErrorsAt(s, k, start, before, authorized, quorum) == [] <==>
            HeaderFits(s, k, start, before, authorized, quorum)
  {
    FaultIff(s[k], authorized, QuorumFor(s[k], quorum));
  }

  lemma ErrorsIff(s: seq<Header>, start: int, before: Option<Digest>, authorized: set<Key>, quorum: int)
    ensures Errors(s, start, before, authorized, quorum) == [] <==>
            ChainFits(s, start, before, authorized, quorum)
  {
    var lists := ErrorLists(s, start, before, authorized, quorum);
    FlattenEmpty(lists);
    forall k | 0 <= k < |s|
      ensures lists[k] == [] <==> HeaderFits(s, k, start, before, authorized, quorum)
    {
      ErrorsAtIff(s, k, start, before, authorized, quorum);
    }
    AllOrNot(lists, s, start, before, authorized, quorum);
  }

  lemma AllOrNot(lists: seq<seq<HeaderError>>, s: seq<Header>, start: int, before: Option<Digest>,
                 authorized: set<Key>, quorum: int)
    requires |lists| == |s|
    requires forall k :: 0 <= k < |s| ==>
               (lists[k] == [] <==> HeaderFits(s, k, start, before, authorized, quorum))
    ensures (forall k :: 0 <= k < |lists| ==> lists[k] == []) <==>
            ChainFits(s, start, before, authorized, quorum)
  {
  }

  /** One turn of the pass over the sorted headers. */
  method CheckHeader(header: Header, expected: int, previous: Option<Digest>, authorized: set<Key>, quorum: int)
    returns (found: seq<HeaderError>)
    ensures found == HeaderErrors(header, expected, previous, authorized, quorum)
  {
    found := [];
    if header.height != expected {
      found := found + [HeightGap(header.height, expected)];
    }
    if previous.Some? && header.previousHash != previous.value {
      found := found + [LinkBroken(header.height)];
    }
    var signed := VerifyHeaderSignatures(header, authorized, QuorumFor(header, quorum));
    FaultIff(header, authorized, QuorumFor(header, quorum));
    if signed.Err? {
      found := found + [BadHeader(header.height, signed.error)];
    }
  }

  lemma ErrorListAt(s: seq<Header>, k: nat, start: int, before: Option<Digest>, authorized: set<Key>, quorum: int)
    requires k < |s|
    ensures ErrorLists(s, start, before, authorized, quorum)[k]
         == HeaderErrors(s[k], start + k, if k == 0 then before else Some(s[k - 1].hash), authorized, quorum)
  {
  }

  method CollectErrors(headers: seq<Header>, start: int, authorized: set<Key>, quorum: int)
    returns (errors: seq<HeaderError>)
    ensures errors == Errors(headers, start, Anchor(start), authorized, quorum)
  {
    var previous := Anchor(start);
    errors := [];
    ghost var lists := ErrorLists(headers, start, Anchor(start), authorized, quorum);
    for i := 0 to |headers|
      invariant previous == if i == 0 then Anchor(start) else Some(headers[i - 1].hash)
      invariant errors == Flatten(lists[..i])
    {
      var found := CheckHeader(headers[i], start + i, previous, authorized, quorum);
      ErrorListAt(headers, i, start, Anchor(start), authorized, quorum);
      FlattenNext(lists, i);
      errors := errors + found;
      previous := Some(headers[i].hash);
    }
    assert lists[..|headers|] == lists;
  }

  /** The last of the highest headers given. */
  ghost predicate IsTip(given: seq<Header>, k: nat) {
    && k < |given|
    && (forall i :: 0 <= i < k ==> given[i].height <= given[k].height)
    && (forall i :: k < i < |given| ==> given[i].height < given[k].height)
  }

  ghost predicate ReportsTip(given: seq<Header>, report: Report) {
    exists k: nat :: IsTip(given, k) && report.tipHeight == given[k].height
                     && report.tipHash == Some(given[k].hash)
                     && report.tipStateRoot == Some(given[k].stateRoot)
  }

  /** The report on headers that are given: by height, those of equal height in the order given. */
  ghost predicate Reports(given: seq<Header>, fromHeight: Option<int>, authorized: set<Key>, quorum: int,
                          report: Report)
  {
    var s := Sort(HeightLeq, given);
    && s != []
    && (var start := StartOf(s, fromHeight);
        report.errors == Errors(s, start, Anchor(start), authorized, quorum))
    && report.headers == |given| && ReportsTip(given, report)
  }

  method VerifyHeaderChain(given: seq<Header>, fromHeight: Option<int>, authorized: set<Key>, quorum: int)
    returns (report: Report)
    ensures report.Valid() <==> Valid(given, fromHeight, authorized, quorum)
    ensures given == [] ==> report == Report(0, None, -1, None, [])
    ensures given != [] ==> Reports(given, fromHeight, authorized, quorum, report)
  {
    if given == [] {
      return Report(0, None, -1, None, []);
    }
    ghost var k := TipLast(given);
    var headers := Sort(HeightLeq, given);
    var start := StartOf(headers, fromHeight);
    var errors := CollectErrors(headers, start, authorized, quorum);
    ErrorsIff(headers, start, Anchor(start), authorized, quorum);
    var tip := headers[|headers| - 1];
    report := Report(|headers|, Some(tip.hash), tip.height, Some(tip.stateRoot), errors);
    TipReported(given, report, k);
  }

  lemma TipReported(given: seq<Header>, report: Report, k: nat)
    requires IsTip(given, k) && report.tipHeight == given[k].height
    requires report.tipHash == Some(given[k].hash) && report.tipStateRoot == Some(given[k].stateRoot)
    ensures ReportsTip(given, report)
  {
  }

  lemma TipLast(given: seq<Header>) returns (k: nat)
    requires given != []
    ensures IsTip(given, k)
    ensures var s := Sort(HeightLeq, given); |s| == |given| && s[|s| - 1] == given[k]
  {
    HeightOrder();
    SortProperties(HeightLeq, given);
    k := SortLast(HeightLeq, given);
  }

  /** Headers of one height are checked in the order given. */
  lemma EqualHeightsKeepOrder(given: seq<Header>, h: Header)
    ensures Filter(Ties(HeightLeq, h), Sort(HeightLeq, given)) == Filter(Ties(HeightLeq, h), given)
    ensures forall x :: Ties(HeightLeq, h)(x) <==> x.height == h.height
  {
    HeightOrder();
    SortStable(HeightLeq, given, h);
  }

  /** verify_tx_inclusion. */
  method VerifyTxInclusion(header: Header, proof: Proof) returns (valid: bool)
    ensures valid <==> Included(header, proof)
  {
    if proof.root != header.transactionsRoot {
      return false;
    }
    valid := VerifyMerkleProof(proof);
  }

  // ---------------------------------------------------------------------------------------------
  // Order independence
  // ---------------------------------------------------------------------------------------------

  lemma HeightOrder()
    ensures TotalPreorder(HeightLeq)
  {
  }

  /** Any arrangement by height decides validity: if one fits, its heights are distinct, so there is no
      other. */
  lemma ArrangementDecides(s: seq<Header>, t: seq<Header>, fromHeight: Option<int>, authorized: set<Key>,
                           quorum: int)
    requires s != [] && t != [] && multiset(s) == multiset(t)
    requires SortedBy(HeightLeq, s) && SortedBy(HeightLeq, t)
    requires SortedFits(s, fromHeight, authorized, quorum)
    ensures s == t
  {
    var start := StartOf(s, fromHeight);
    forall x, y | x in s && y in s && HeightLeq(x, y) && HeightLeq(y, x) ensures x == y {
      var i :| 0 <= i < |s| && s[i] == x;
      var k :| 0 <= k < |s| && s[k] == y;
      assert HeaderFits(s, i, start, Anchor(start), authorized, quorum);
      assert HeaderFits(s, k, start, Anchor(start), authorized, quorum);
    }
    HeightOrder();
    SortedUnique(HeightLeq, s, t);
  }

  lemma ValidByArrangement(headers: seq<Header>, s: seq<Header>, fromHeight: Option<int>,
                           authorized: set<Key>, quorum: int)
    requires headers != [] && s != []
    requires SortedBy(HeightLeq, s) && multiset(s) == multiset(headers)
    ensures Valid(headers, fromHeight, authorized, quorum) <==>
            SortedFits(s, fromHeight, authorized, quorum)
    ensures Valid(headers, fromHeight, authorized, quorum) ==> Sort(HeightLeq, headers) == s
  {
    var t := Sort(HeightLeq, headers);
    HeightOrder();
    SortProperties(HeightLeq, headers);
    if SortedFits(t, fromHeight, authorized, quorum) {
      ArrangementDecides(t, s, fromHeight, authorized, quorum);
    }
    if SortedFits(s, fromHeight, authorized, quorum) {
      ArrangementDecides(s, t, fromHeight, authorized, quorum);
    }
  }

  /** Validity does not depend on the order headers arrive in, repeated heights included. */
  lemma OrderIndependent(xs: seq<Header>, ys: seq<Header>, fromHeight: Option<int>, authorized: set<Key>,
                         quorum: int)
    requires multiset(xs) == multiset(ys)
    ensures Valid(xs, fromHeight, authorized, quorum) <==> Valid(ys, fromHeight, authorized, quorum)
    ensures Valid(xs, fromHeight, authorized, quorum) ==> Sort(HeightLeq, xs) == Sort(HeightLeq, ys)
  {
    assert |multiset(xs)| == |multiset(ys)|;
    if xs != [] {
      HeightOrder();
      SortProperties(HeightLeq, ys);
      ValidByArrangement(xs, Sort(HeightLeq, ys), fromHeight, authorized, quorum);
    }
  }

  // ---------------------------------------------------------------------------------------------
  // Composition
  // ---------------------------------------------------------------------------------------------

  lemma FitsAt(a: seq<Header>, b: seq<Header>, k: nat, start: int, before: Option<Digest>,
               authorized: set<Key>, quorum: int)
    requires a != [] && k < |a| + |b|
    ensures HeaderFits(a + b, k, start, before, authorized, quorum) <==>
            if k < |a| then HeaderFits(a, k, start, before, authorized, quorum)
            else HeaderFits(b, k - |a|, start + |a|, Some(a[|a| - 1].hash), authorized, quorum)
  {
  }

  lemma FitsConcat(a: seq<Header>, b: seq<Header>, start: int, before: Option<Digest>, authorized: set<Key>,
                   quorum: int)
    requires a != [] && b != []
    ensures ChainFits(a + b, start, before, authorized, quorum) <==>
            && ChainFits(a, start, before, authorized, quorum)
            && ChainFits(b, start + |a|, Some(a[|a| - 1].hash), authorized, quorum)
  {
    var s, link := a + b, Some(a[|a| - 1].hash);
    if ChainFits(s, start, before, authorized, quorum) {
      forall k | 0 <= k < |a| ensures HeaderFits(a, k, start, before, authorized, quorum) {
        FitsAt(a, b, k, start, before, authorized, quorum);
      }
      forall k {:trigger b[k]} | 0 <= k < |b|
        ensures HeaderFits(b, k, start + |a|, link, authorized, quorum)
      {
        FitsAt(a, b, |a| + k, start, before, authorized, quorum);
      }
    }
    if ChainFits(a, start, before, authorized, quorum)
       && ChainFits(b, start + |a|, link, authorized, quorum) {
      forall k | 0 <= k < |s| ensures HeaderFits(s, k, start, before, authorized, quorum) {
        FitsAt(a, b, k, start, before, authorized, quorum);
      }
    }
  }

  /** A required predecessor is one more condition on the first header. */
  lemma FitsAnchored(s: seq<Header>, start: int, link: Digest, authorized: set<Key>, quorum: int)
    requires s != []
    ensures ChainFits(s, start, Some(link), authorized, quorum) <==>
            ChainFits(s, start, None, authorized, quorum) && s[0].previousHash == link
  {
    assert ChainFits(s, start, Some(link), authorized, quorum) ==>
             HeaderFits(s, 0, start, Some(link), authorized, quorum);
    forall k | 0 <= k < |s|
      ensures HeaderFits(s, k, start, Some(link), authorized, quorum) <==>
              HeaderFits(s, k, start, None, authorized, quorum) && (k == 0 ==> s[0].previousHash == link)
    {
    }
    if ChainFits(s, start, Some(link), authorized, quorum) {
      forall k | 0 <= k < |s| ensures HeaderFits(s, k, start, None, authorized, quorum) {
        assert HeaderFits(s, k, start, Some(link), authorized, quorum);
      }
    }
    if ChainFits(s, start, None, authorized, quorum) && s[0].previousHash == link {
      forall k | 0 <= k < |s| ensures HeaderFits(s, k, start, Some(link), authorized, quorum) {
        assert HeaderFits(s, k, start, None, authorized, quorum);
      }
    }
  }

  lemma SortedConcat(a: seq<Header>, b: seq<Header>)
    requires SortedBy(HeightLeq, a) && SortedBy(HeightLeq, b)
    requires forall x, y :: x in a && y in b ==> x.height <= y.height
    ensures SortedBy(HeightLeq, a + b)
  {
    var s := a + b;
    forall i, k | 0 <= i < k < |s| ensures HeightLeq(s[i], s[k]) {
      if k < |a| {
        assert s[i] == a[i] && s[k] == a[k];
      } else if |a| <= i {
        assert s[i] == b[i - |a|] && s[k] == b[k - |a|];
      } else {
        assert s[i] in a && s[k] in b;
      }
    }
  }

  lemma ComposeSorted(a: seq<Header>, b: seq<Header>, authorized: set<Key>, quorum: int)
    requires a != [] && b != [] && 0 <= a[0].height < b[0].height
    ensures SortedFits(a + b, None, authorized, quorum) <==>
            && SortedFits(a, None, authorized, quorum) && SortedFits(b, None, authorized, quorum)
            && Continues(a, b)
  {
    var start, link := a[0].height, a[|a| - 1].hash;
    FitsConcat(a, b, start, Anchor(start), authorized, quorum);
    FitsAnchored(b, start + |a|, link, authorized, quorum);
    if ChainFits(a, start, Anchor(start), authorized, quorum) {
      assert HeaderFits(a, |a| - 1, start, Anchor(start), authorized, quorum);
    }
    if ChainFits(b, start + |a|, None, authorized, quorum) {
      assert HeaderFits(b, 0, start + |a|, None, authorized, quorum);
    }
  }

  /** The batches together, sorted, are the sorted batches one after the other. */
  lemma ArrangeBatches(xs: seq<Header>, ys: seq<Header>, a: seq<Header>, b: seq<Header>)
    requires xs != [] && ys != [] && Below(xs, ys)
    requires a == Sort(HeightLeq, xs) && b == Sort(HeightLeq, ys)
    ensures a != [] && b != [] && 0 <= a[0].height < b[0].height
    ensures SortedBy(HeightLeq, a) && SortedBy(HeightLeq, b) && SortedBy(HeightLeq, a + b)
    ensures multiset(a) == multiset(xs) && multiset(b) == multiset(ys)
  {
    HeightOrder();
    SortProperties(HeightLeq, xs);
    SortProperties(HeightLeq, ys);
    forall x, y | x in a && y in b ensures 0 <= x.height < y.height {
      assert x in multiset(xs) && y in multiset(ys);
    }
    SortedConcat(a, b);
    assert a[0] in a && b[0] in b;
  }

  /** The second batch starts where the first ends: at the next height, naming the last hash. */
  predicate Continues(a: seq<Header>, b: seq<Header>) {
    && a != [] && b != []
    && b[0].height == a[|a| - 1].height + 1 && b[0].previousHash == a[|a| - 1].hash
  }

  /** Every header of the first batch lies below every header of the second. */
  ghost predicate Below(xs: seq<Header>, ys: seq<Header>) {
    forall i, k :: 0 <= i < |xs| && 0 <= k < |ys| ==> 0 <= xs[i].height < ys[k].height
  }

  /** Incremental sync is full sync: two batches, the second above the first, form a valid chain exactly
      when each is valid by itself and the second continues the first. */
  lemma Composition(xs: seq<Header>, ys: seq<Header>, authorized: set<Key>, quorum: int)
    requires xs != [] && ys != [] && Below(xs, ys)
    ensures Valid(xs + ys, None, authorized, quorum) <==>
            && Valid(xs, None, authorized, quorum) && Valid(ys, None, authorized, quorum)
            && Continues(Sort(HeightLeq, xs), Sort(HeightLeq, ys))
  {
    var a, b := Sort(HeightLeq, xs), Sort(HeightLeq, ys);
    ArrangeBatches(xs, ys, a, b);
    ComposeValid(xs, ys, a, b, authorized, quorum);
  }

  lemma ComposeValid(xs: seq<Header>, ys: seq<Header>, a: seq<Header>, b: seq<Header>,
                     authorized: set<Key>, quorum: int)
    requires xs != [] && ys != [] && a != [] && b != [] && 0 <= a[0].height < b[0].height
    requires SortedBy(HeightLeq, a + b) && SortedBy(HeightLeq, a) && SortedBy(HeightLeq, b)
    requires multiset(a) == multiset(xs) && multiset(b) == multiset(ys)
    ensures Valid(xs + ys, None, authorized, quorum) <==>
            && Valid(xs, None, authorized, quorum) && Valid(ys, None, authorized, quorum)
            && Continues(a, b)
  {
    assert multiset(a + b) == multiset(xs + ys);
    ValidByArrangement(xs + ys, a + b, None, authorized, quorum);
    ValidByArrangement(xs, a, None, authorized, quorum);
    ValidByArrangement(ys, b, None, authorized, quorum);
    ComposeSorted(a, b, authorized, quorum);
  }

  // ---------------------------------------------------------------------------------------------
  // Inclusion against a trusted header
  // ---------------------------------------------------------------------------------------------

  /** Some accepted proof starts at the digest. */
  ghost predicate Provable(h: Header, leaf: Digest) {
    exists proof: Proof :: proof.leaf == leaf && Included(h, proof)
  }

  /** Against the header of a well-formed block, exactly the transactions of the block are provable. */
  lemma InclusionIsMembership(b: Block, authorized: set<Key>, leaf: Digest)
    requires WellFormedBlock(b, authorized) && leaf.TxHash?
    ensures Provable(FromBlock(b), leaf) <==>
            exists k :: 0 <= k < |b.transactions| && b.transactions[k].body == leaf.body
  {
    var leaves := LeafHashes(b.transactions);
    if proof: Proof :| proof.leaf == leaf && Included(FromBlock(b), proof) {
      if leaves == [] {
        FoldNotZero(leaf, proof.steps);
      } else {
        Soundness(leaves, proof);
        var k :| 0 <= k < |leaves| && leaves[k] == leaf;
        assert b.transactions[k].body == leaf.body;
      }
    }
    if k :| 0 <= k < |b.transactions| && b.transactions[k].body == leaf.body {
      Completeness(leaves, k);
      assert leaves[k] == leaf && Included(FromBlock(b), ProofOf(leaves, k));
    }
  }

  // ---------------------------------------------------------------------------------------------
  // What the signatures do not cover
  // ---------------------------------------------------------------------------------------------

  /** The digest of a header's fields, which the signature check does not compute. */
  function DigestOf(h: Header): Digest {
    HeaderHash(h.height, h.previousHash, h.timestamp, h.transactionsRoot, h.stateRoot, h.validator)
  }

  /** The headers agree but for the fields that only the digest covers. */
  predicate SameChecked(a: Header, b: Header) {
    a == b.(timestamp := a.timestamp, transactionsRoot := a.transactionsRoot, stateRoot := a.stateRoot)
  }

  ghost predicate AllSameChecked(s: seq<Header>, t: seq<Header>) {
    |s| == |t| && forall k :: 0 <= k < |s| ==> SameChecked(s[k], t[k])
  }

  lemma {:induction false} InsertSameChecked(a: Header, b: Header, s: seq<Header>, t: seq<Header>)
    requires SameChecked(a, b) && AllSameChecked(s, t)
    ensures AllSameChecked(Insert(HeightLeq, a, s), Insert(HeightLeq, b, t))
  {
    if s != [] && !HeightLeq(a, s[0]) {
      InsertSameChecked(a, b, s[1..], t[1..]);
    }
  }

  lemma {:induction false} SortSameChecked(s: seq<Header>, t: seq<Header>)
    requires AllSameChecked(s, t)
    ensures AllSameChecked(Sort(HeightLeq, s), Sort(HeightLeq, t))
  {
    if s != [] {
      SortSameChecked(s[1..], t[1..]);
      InsertSameChecked(s[0], t[0], Sort(HeightLeq, s[1..]), Sort(HeightLeq, t[1..]));
    }
  }

  /** Time stamps and both roots of headers do not matter to the chain check. */
  lemma RootsUnchecked(s: seq<Header>, t: seq<Header>, fromHeight: Option<int>, authorized: set<Key>, quorum: int)
    requires AllSameChecked(s, t)
    ensures Valid(s, fromHeight, authorized, quorum) <==> Valid(t, fromHeight, authorized, quorum)
  {
    if s != [] {
      var x, y := Sort(HeightLeq, s), Sort(HeightLeq, t);
      SortSameChecked(s, t);
      HeightOrder();
      SortProperties(HeightLeq, s);
      var start := StartOf(x, fromHeight);
      forall k | 0 <= k < |x|
        ensures HeaderFits(x, k, start, Anchor(start), authorized, quorum) <==>
                HeaderFits(y, k, start, Anchor(start), authorized, quorum)
      {
      }
      SameFits(x, y, start, Anchor(start), authorized, quorum);
    }
  }

  lemma SameFits(x: seq<Header>, y: seq<Header>, start: int, before: Option<Digest>, authorized: set<Key>, quorum: int)
    requires |x| == |y|
    requires forall k :: 0 <= k < |x| ==>
               (HeaderFits(x, k, start, before, authorized, quorum) <==>
                HeaderFits(y, k, start, before, authorized, quorum))
    ensures ChainFits(x, start, before, authorized, quorum) <==> ChainFits(y, start, before, authorized, quorum)
  {
  }

  /** A header whose root was replaced still proves exactly what the block's own header proves if and only
      if it hashes to the hash that is signed. */
  lemma ReplacedRootIff(b: Block, root: Digest)
    requires b.hash == HeaderDigest(b)
    ensures var h := FromBlock(b).(transactionsRoot := root);
            (forall proof: Proof :: Included(h, proof) <==> Included(FromBlock(b), proof)) <==>
            DigestOf(h) == h.hash
  {
    var h := FromBlock(b).(transactionsRoot := root);
    var whole := Proof(root, 0, root, []);
    assert Included(h, whole);
    if Included(FromBlock(b), whole) {
      assert root == b.transactionsRoot;
    }
  }

  /** A header that hashes to the hash of a well-formed block proves exactly the transactions of the block,
      and says the same of its state. */
  lemma RecomputedHeader(b: Block, authorized: set<Key>, h: Header, leaf: Digest)
    requires WellFormedBlock(b, authorized) && leaf.TxHash?
    requires h.hash == b.hash && DigestOf(h) == h.hash
    ensures Provable(h, leaf) <==>
            exists k :: 0 <= k < |b.transactions| && b.transactions[k].body == leaf.body
    ensures h.height == b.height && h.previousHash == b.previousHash && h.stateRoot == b.stateRoot
  {
    InclusionIsMembership(b, authorized, leaf);
    if proof: Proof :| proof.leaf == leaf && Included(h, proof) {
      assert Included(FromBlock(b), proof);
    }
    if proof: Proof :| proof.leaf == leaf && Included(FromBlock(b), proof) {
      assert Included(h, proof);
    }
  }
}
