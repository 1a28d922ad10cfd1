/** Blocks and proof-of-authority validation (compute_ledger/block.py, compute_ledger/poa.py). */
module Blocks {
  import opened Hashing
  import opened Sequences
  import opened Merkle

  datatype Approval = Approval(validator: Key, signature: Signature)

  datatype Block = Block(
    height: int, previousHash: Digest, timestamp: string, transactions: seq<Transaction>,
    validator: Key, transactionsRoot: Digest, stateRoot: Digest, hash: Digest,
    validatorSignature: Signature, approvals: seq<Approval>, finalized: bool)

  datatype LedgerError =
    | WrongHeight | WrongPreviousHash | UnauthorizedValidator | WrongRoot | WrongHash
    | BadProposerSignature | BadQuorumThreshold | UnauthorizedApproval | DuplicateApproval
    | BadApprovalSignature | ProposerMissing | QuorumNotMet | BadTransaction | BadTransactionSignature
    | AwaitingQuorum | NoFinalizedTip | ReplayFailed | StaleTransactionNonce | DuplicateTransaction
    | BlockNotFound | AlreadyFinalized | AlreadyApproved | TransactionNotInBlock
    | InvalidBlock | NonPositiveTransfer | SameChain | InsufficientSourceBalance | BurnNotFinalized
    | ReceiptAlreadyMinted | InclusionFailed

  function LeafHashes(txs: seq<Transaction>): (leaves: seq<Digest>)
    ensures |leaves| == |txs|
    ensures forall k :: 0 <= k < |txs| ==> leaves[k] == Hash(txs[k])
  {
    seq(|txs|, (k: nat) requires k < |txs| => Hash(txs[k]))
  }

  /** The digest of a header; approvals, signatures and finality are not part of it. */
  function HeaderDigest(b: Block): Digest {
    HeaderHash(b.height, b.previousHash, b.timestamp, b.transactionsRoot, b.stateRoot, b.validator)
  }

  /** The validators that approve. */
  function Approvers(approvals: seq<Approval>): set<Key> {
    set k | 0 <= k < |approvals| :: approvals[k].validator
  }

  predicate ApprovedBy(b: Block, key: Key) {
    key in Approvers(b.approvals)
  }

  function WithProposerApproval(b: Block): Block {
    if b.validatorSignature == NoSignature || ApprovedBy(b, b.validator) then b
    else b.(approvals := b.approvals + [Approval(b.validator, b.validatorSignature)])
  }

  predicate GoodApproval(a: Approval, hash: Digest, authorized: set<Key>) {
    a.validator in authorized && VerifySignature(a.validator, BlockMessage(hash), a.signature)
  }

  predicate GoodApprovals(approvals: seq<Approval>, hash: Digest, authorized: set<Key>) {
    forall k :: 0 <= k < |approvals| ==> GoodApproval(approvals[k], hash, authorized)
  }

  predicate DistinctApprovals(approvals: seq<Approval>) {
    forall i, k :: 0 <= i < k < |approvals| ==> approvals[i].validator != approvals[k].validator
  }

  /** At least a quorum of valid approvals from distinct authorized validators, proposer included. */
  predicate Quorate(b: Block, authorized: set<Key>, quorum: int) {
    && 1 <= quorum <= |b.approvals|
    && GoodApprovals(b.approvals, b.hash, authorized)
    && DistinctApprovals(b.approvals)
    && ApprovedBy(b, b.validator)
  }

  predicate ValidTransaction(tx: Transaction, requireSignature: bool) {
    && tx.body.id != "" && tx.body.sender != "" && tx.body.nonce >= 0
    && (requireSignature ==> VerifySignature(tx.body.sender, TxMessage(tx.body), tx.signature))
  }

  /** Why a transaction is refused: its fields come before its signature. */
  function TransactionFault(tx: Transaction): LedgerError {
    if tx.body.id == "" || tx.body.sender == "" || tx.body.nonce < 0 then BadTransaction
    else BadTransactionSignature
  }

  predicate ValidTransactions(txs: seq<Transaction>) {
    forall k :: 0 <= k < |txs| ==> ValidTransaction(txs[k], true)
  }

  /** Root, hash, proposer signature and transactions of a block are in order. */
  predicate WellFormedBlock(b: Block, authorized: set<Key>) {
    && b.validator in authorized
    && b.transactionsRoot == Root(LeafHashes(b.transactions))
    && b.hash == HeaderDigest(b)
    && VerifySignature(b.validator, BlockMessage(b.hash), b.validatorSignature)
    && ValidTransactions(b.transactions)
  }

  /** Approval i is the first that is unauthorized, repeated or badly signed, and e is its first fault. */
  ghost predicate FirstFault(approvals: seq<Approval>, hash: Digest, authorized: set<Key>, i: nat, e: LedgerError) {
    && i < |approvals|
    && GoodApprovals(approvals[..i], hash, authorized) && DistinctApprovals(approvals[..i])
    && e == (if approvals[i].validator !in authorized then UnauthorizedApproval
             else if approvals[i].validator in Approvers(approvals[..i]) then DuplicateApproval
             else BadApprovalSignature)
    && !(GoodApproval(approvals[i], hash, authorized) && approvals[i].validator !in Approvers(approvals[..i]))
  }

  /** The fault of an approval after approvals by the validators seen. */
  function ApprovalFault(a: Approval, seen: set<Key>, hash: Digest, authorized: set<Key>): Option<LedgerError> {
    if a.validator !in authorized then Some(UnauthorizedApproval)
    else if a.validator in seen then Some(DuplicateApproval)
    else if !VerifySignature(a.validator, BlockMessage(hash), a.signature) then Some(BadApprovalSignature)
    else None
  }

  /** The first fault of a list of approvals, if there is one. */
  function ApprovalsFault(approvals: seq<Approval>, hash: Digest, authorized: set<Key>): Option<LedgerError> {
    if approvals == [] then None
    else
      var n := |approvals| - 1;
      var earlier := ApprovalsFault(approvals[..n], hash, authorized);
      if earlier.Some? then earlier
      else ApprovalFault(approvals[n], Approvers(approvals[..n]), hash, authorized)
  }

  /** Why the approvals of a block, the proposer's added, are refused. */
  ghost predicate ApprovalsRefused(b: Block, authorized: set<Key>, quorum: int, e: LedgerError) {
    if quorum < 1 then e == BadQuorumThreshold
    else if !(GoodApprovals(b.approvals, b.hash, authorized) && DistinctApprovals(b.approvals)) then
      exists i :: FirstFault(b.approvals, b.hash, authorized, i, e)
    else if !ApprovedBy(b, b.validator) then e == ProposerMissing
    else e == QuorumNotMet && |b.approvals| < quorum
  }

  /** Why a block is refused: the first of its checks that fails, in the order of the code. */
  ghost predicate BlockRefused(b: Block, authorized: set<Key>, previous: Option<Digest>, height: Option<int>,
                               quorum: int, requireQuorum: bool, e: LedgerError)
  {
    if height.Some? && b.height != height.value then e == WrongHeight
    else if previous.Some? && b.previousHash != previous.value then e == WrongPreviousHash
    else if b.validator !in authorized then e == UnauthorizedValidator
    else if b.transactionsRoot != Root(LeafHashes(b.transactions)) then e == WrongRoot
    else if b.hash != HeaderDigest(b) then e == WrongHash
    else if !VerifySignature(b.validator, BlockMessage(b.hash), b.validatorSignature) then
      e == BadProposerSignature
    else if (requireQuorum || b.finalized) && !Quorate(WithProposerApproval(b), authorized, quorum) then
      ApprovalsRefused(WithProposerApproval(b), authorized, quorum, e)
    else TransactionsRefused(b.transactions, e)
  }

  /** The first transaction that is not valid, and its fault. */
  ghost predicate TransactionsRefused(txs: seq<Transaction>, e: LedgerError) {
    exists k :: 0 <= k < |txs| && ValidTransactions(txs[..k]) && !ValidTransaction(txs[k], true)
                && e == TransactionFault(txs[k])
  }

  /** What validate_block accepts. */
  predicate ValidBlock(b: Block, authorized: set<Key>, previous: Option<Digest>, height: Option<int>,
                       quorum: int, requireQuorum: bool)
  {
    && (height.Some? ==> b.height == height.value)
    && (previous.Some? ==> b.previousHash == previous.value)
    && WellFormedBlock(b, authorized)
    && (requireQuorum || b.finalized ==> Quorate(WithProposerApproval(b), authorized, quorum))
  }

  // ---------------------------------------------------------------------------------------------
  // The code
  // ---------------------------------------------------------------------------------------------

  /** A stored block is a value; the block under construction is an object whose fields are set one after
      the other, and Row() is the value it would be stored as. */
  class ComputeBlock {
    const height: int
    const previousHash: Digest
    const timestamp: string
    const transactions: seq<Transaction>
    const validator: Key
    var transactionsRoot: Digest
    var stateRoot: Digest
    var hash: Digest
    var validatorSignature: Signature
    var approvals: seq<Approval>
    var finalized: bool

    function Row(): Block
      reads this
    {
      Block(height, previousHash, timestamp, transactions, validator, transactionsRoot, stateRoot,
            hash, validatorSignature, approvals, finalized)
    }

    constructor (height: int, previousHash: Digest, timestamp: string, transactions: seq<Transaction>,
                 validator: Key, stateRoot: Digest)
      ensures Row() == Block(height, previousHash, timestamp, transactions, validator, ZeroHash,
                             stateRoot, ZeroHash, NoSignature, [], true)
    {
      this.height := height;
      this.previousHash := previousHash;
      this.timestamp := timestamp;
      this.transactions := transactions;
      this.validator := validator;
      this.stateRoot := stateRoot;
      transactionsRoot, hash := ZeroHash, ZeroHash;
      validatorSignature, approvals, finalized := NoSignature, [], true;
    }

    constructor FromRow(row: Block)
      ensures Row() == row
    {
      height := row.height;
      previousHash := row.previousHash;
      timestamp := row.timestamp;
      transactions := row.transactions;
      validator := row.validator;
      transactionsRoot := row.transactionsRoot;
      stateRoot := row.stateRoot;
      hash := row.hash;
      validatorSignature := row.validatorSignature;
      approvals := row.approvals;
      finalized := row.finalized;
    }

    method EnsureProposerApproval()
      modifies this`approvals
      ensures Row() == WithProposerApproval(old(Row()))
    {
      if validatorSignature == NoSignature {
        return;
      }
      for k := 0 to |approvals|
        invariant forall i :: 0 <= i < k ==> approvals[i].validator != validator
        invariant approvals == old(approvals)
      {
        if approvals[k].validator == validator {
          return;
        }
      }
      approvals := approvals + [Approval(validator, validatorSignature)];
    }

    method ValidateApprovals(authorized: set<Key>, quorum: int) returns (r: Result<(), LedgerError>)
      modifies this`approvals
      ensures quorum >= 1 ==> Row() == WithProposerApproval(old(Row()))
      ensures quorum < 1 ==> Row() == old(Row())
      ensures r.Ok? <==> Quorate(WithProposerApproval(old(Row())), authorized, quorum)
      ensures r.Err? ==> ApprovalsRefused(WithProposerApproval(old(Row())), authorized, quorum, r.error)
    {
      if quorum < 1 {
        return Err(BadQuorumThreshold);
      }
      EnsureProposerApproval();
      var checked := CheckApprovals(approvals, hash, authorized);
      match checked
      case Err(e) =>
        return Err(e);
      case Ok(seen) =>
        if validator !in seen {
          return Err(ProposerMissing);
        }
        if |seen| < quorum {
          return Err(QuorumNotMet);
        }
        return Ok(());
    }

    method ValidateBlock(authorized: set<Key>, previous: Option<Digest>, expectedHeight: Option<int>,
                         quorum: int, requireQuorum: bool) returns (r: Result<(), LedgerError>)
      modifies this`approvals
      ensures r.Ok? <==>
              ValidBlock(old(Row()), authorized, previous, expectedHeight, quorum, requireQuorum)
      ensures r.Err? ==>
                BlockRefused(old(Row()), authorized, previous, expectedHeight, quorum, requireQuorum, r.error)
      ensures Row() == old(Row()) || Row() == WithProposerApproval(old(Row()))
      ensures r.Ok? ==> Row() == if requireQuorum || finalized then WithProposerApproval(old(Row()))
                                 else old(Row())
    {
      if expectedHeight.Some? && height != expectedHeight.value {
        return Err(WrongHeight);
      }
      if previous.Some? && previousHash != previous.value {
        return Err(WrongPreviousHash);
      }
      if validator !in authorized {
        return Err(UnauthorizedValidator);
      }
      var root := MerkleRoot(LeafHashes(transactions));
      if transactionsRoot != root {
        return Err(WrongRoot);
      }
      if hash != HeaderDigest(Row()) {
        return Err(WrongHash);
      }
      if !VerifySignature(validator, BlockMessage(hash), validatorSignature) {
        return Err(BadProposerSignature);
      }
      if requireQuorum || finalized {
        r := ValidateApprovals(authorized, quorum);
        if r.Err? {
          return;
        }
      }
      r := CheckTransactions(transactions);
    }

    method AddApproval(key: Key, signature: Signature, authorized: set<Key>)
      returns (r: Result<(), LedgerError>)
      modifies this`approvals
      ensures r.Ok? <==> GoodApproval(Approval(key, signature), hash, authorized)
                         && !ApprovedBy(old(Row()), key)
      ensures r.Err? ==>
                r.error == if key !in authorized then UnauthorizedValidator
                           else if !VerifySignature(key, BlockMessage(hash), signature) then BadApprovalSignature
                           else AlreadyApproved
      ensures Row() == if r.Ok?
                       then old(Row()).(approvals := old(approvals) + [Approval(key, signature)])
                       else old(Row())
    {
      if key !in authorized {
        return Err(UnauthorizedValidator);
      }
      if !VerifySignature(key, BlockMessage(hash), signature) {
        return Err(BadApprovalSignature);
      }
      for k := 0 to |approvals|
        invariant forall i :: 0 <= i < k ==> approvals[i].validator != key
        invariant approvals == old(approvals)
      {
        if approvals[k].validator == key {
          return Err(AlreadyApproved);
        }
      }
      approvals := approvals + [Approval(key, signature)];
      return Ok(());
    }
  }

  /** The loop over approvals: the set of validators seen is what quorum counts. */
  method CheckApprovals(approvals: seq<Approval>, hash: Digest, authorized: set<Key>)
    returns (r: Result<set<Key>, LedgerError>)
    ensures r.Ok? <==> GoodApprovals(approvals, hash, authorized) && DistinctApprovals(approvals)
    ensures r.Ok? ==> r.value == Approvers(approvals) && |r.value| == |approvals|
    ensures r.Err? ==> exists i :: FirstFault(approvals, hash, authorized, i, r.error)
  {
    var seen: set<Key> := {};
    for i := 0 to |approvals|
      invariant GoodApprovals(approvals[..i], hash, authorized) && DistinctApprovals(approvals[..i])
      invariant seen == Approvers(approvals[..i]) && |seen| == i
    {
      var approval := approvals[i];
      ApprovalStep(approvals, i, hash, authorized);
      if approval.validator !in authorized {
        assert FirstFault(approvals, hash, authorized, i, UnauthorizedApproval);
        return Err(UnauthorizedApproval);
      }
      if approval.validator in seen {
        assert FirstFault(approvals, hash, authorized, i, DuplicateApproval);
        return Err(DuplicateApproval);
      }
      if !VerifySignature(approval.validator, BlockMessage(hash), approval.signature) {
        assert FirstFault(approvals, hash, authorized, i, BadApprovalSignature);
        return Err(BadApprovalSignature);
      }
      seen := seen + {approval.validator};
    }
    assert approvals[..|approvals|] == approvals;
    return Ok(seen);
  }

  /** What the next approval adds to a good prefix, and what a bad one spoils. */
  lemma ApprovalStep(approvals: seq<Approval>, i: nat, hash: Digest, authorized: set<Key>)
    requires i < |approvals|
    requires GoodApprovals(approvals[..i], hash, authorized) && DistinctApprovals(approvals[..i])
    ensures var good := GoodApproval(approvals[i], hash, authorized);
            var unseen := approvals[i].validator !in Approvers(approvals[..i]);
            && (good ==> GoodApprovals(approvals[..i + 1], hash, authorized))
            && (!good ==> !GoodApprovals(approvals, hash, authorized))
            && (unseen ==> DistinctApprovals(approvals[..i + 1]))
            && (!unseen ==> !DistinctApprovals(approvals))
    ensures Approvers(approvals[..i + 1]) == Approvers(approvals[..i]) + {approvals[i].validator}
  {
    var prefix, longer := approvals[..i], approvals[..i + 1];
    assert longer == prefix + [approvals[i]];
    forall v | v in Approvers(prefix) + {approvals[i].validator} ensures v in Approvers(longer) {
      if v in Approvers(prefix) {
        var k :| 0 <= k < i && prefix[k].validator == v;
        assert longer[k].validator == v;
      } else {
        assert longer[i].validator == v;
      }
    }
  }

  lemma {:induction false} ApprovalsFaultIff(approvals: seq<Approval>, hash: Digest, authorized: set<Key>)
    ensures ApprovalsFault(approvals, hash, authorized).None? <==>
            GoodApprovals(approvals, hash, authorized) && DistinctApprovals(approvals)
  {
    if approvals != [] {
      var n := |approvals| - 1;
      var before := approvals[..n];
      ApprovalsFaultIff(before, hash, authorized);
      assert approvals[..n + 1] == approvals;
      GoodPrefix(approvals, n, hash, authorized);
      if GoodApprovals(before, hash, authorized) && DistinctApprovals(before) {
        ApprovalStep(approvals, n, hash, authorized);
      }
    }
  }

  lemma GoodPrefix(approvals: seq<Approval>, n: nat, hash: Digest, authorized: set<Key>)
    requires n <= |approvals|
    ensures GoodApprovals(approvals, hash, authorized) ==> GoodApprovals(approvals[..n], hash, authorized)
    ensures DistinctApprovals(approvals) ==> DistinctApprovals(approvals[..n])
  {
  }

  /** The first faulty approval decides the fault of the whole list. */
  lemma {:induction false} FirstFaultDecides(approvals: seq<Approval>, hash: Digest, authorized: set<Key>,
                                             i: nat, e: LedgerError)
    requires FirstFault(approvals, hash, authorized, i, e)
    ensures ApprovalsFault(approvals, hash, authorized) == Some(e)
  {
    var n := |approvals| - 1;
    if i < n {
      var before := approvals[..n];
      assert before[..i] == approvals[..i];
      FirstFaultDecides(before, hash, authorized, i, e);
    } else {
      ApprovalsFaultIff(approvals[..n], hash, authorized);
    }
  }

  method CheckTransactions(txs: seq<Transaction>) returns (r: Result<(), LedgerError>)
    ensures r.Ok? <==> ValidTransactions(txs)
    ensures r.Err? ==> TransactionsRefused(txs, r.error)
  {
    for k := 0 to |txs|
      invariant ValidTransactions(txs[..k])
    {
      r := ValidateTransaction(txs[k], true);
      if r.Err? {
        return;
      }
    }
    assert txs[..|txs|] == txs;
    return Ok(());
  }

  method ValidateTransaction(tx: Transaction, requireSignature: bool)
    returns (r: Result<(), LedgerError>)
    ensures r.Ok? <==> ValidTransaction(tx, requireSignature)
    ensures r.Err? ==> r.error == TransactionFault(tx)
  {
    if tx.body.id == "" || tx.body.sender == "" || tx.body.nonce < 0 {
      return Err(BadTransaction);
    }
    if requireSignature
       && !VerifySignature(tx.body.sender, TxMessage(tx.body), tx.signature) {
      return Err(BadTransactionSignature);
    }
    return Ok(());
  }

  // ---------------------------------------------------------------------------------------------
  // Properties
  // ---------------------------------------------------------------------------------------------

  /** Checking a quorate block changes nothing: the proposer is already among the approvals. */
  lemma ProposerAlreadyApproved(b: Block)
    requires ApprovedBy(b, b.validator)
    ensures WithProposerApproval(b) == b
  {
  }

  /** A quorate block stays quorate when the validator set grows. */
  lemma QuorateGrows(b: Block, some: set<Key>, more: set<Key>, quorum: int)
    requires Quorate(b, some, quorum) && some <= more
    ensures Quorate(b, more, quorum)
  {
  }

  /** Two well-formed blocks with the same hash have the same header, and the same transaction hashes
      in the same order when they hold equally many. */
  lemma BlockBinding(a: Block, b: Block, va: set<Key>, vb: set<Key>)
    requires WellFormedBlock(a, va) && WellFormedBlock(b, vb) && a.hash == b.hash
    ensures a.height == b.height && a.previousHash == b.previousHash && a.stateRoot == b.stateRoot
    ensures a.timestamp == b.timestamp && a.validator == b.validator && a.transactionsRoot == b.transactionsRoot
    ensures |a.transactions| == |b.transactions| ==>
              LeafHashes(a.transactions) == LeafHashes(b.transactions)
              && forall k :: 0 <= k < |a.transactions| ==> a.transactions[k].body == b.transactions[k].body
  {
    if |a.transactions| == |b.transactions| {
      Binding(LeafHashes(a.transactions), LeafHashes(b.transactions));
      forall k | 0 <= k < |a.transactions| ensures a.transactions[k].body == b.transactions[k].body {
        assert LeafHashes(a.transactions)[k] == LeafHashes(b.transactions)[k];
      }
    }
  }

  /** Without repeated transactions the count need not be known: the hash alone binds them. */
  lemma DistinctBlockBinding(a: Block, b: Block, va: set<Key>, vb: set<Key>)
    requires WellFormedBlock(a, va) && WellFormedBlock(b, vb) && a.hash == b.hash
    requires a.transactions != [] && b.transactions != []
    requires Distinct(LeafHashes(a.transactions)) && Distinct(LeafHashes(b.transactions))
    ensures LeafHashes(a.transactions) == LeafHashes(b.transactions) && |a.transactions| == |b.transactions|
  {
    DistinctBinding(LeafHashes(a.transactions), LeafHashes(b.transactions));
  }
}
