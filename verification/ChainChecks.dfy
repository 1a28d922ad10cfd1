/** What verify_chain reports, and what it detects, over any tables a database may hold. */
module ChainChecks {
  import opened Hashing
  import opened Sequences
  import opened Merkle
  import opened Replay
  import opened ReplayMeaning
  import opened CreditTables
  import opened Blocks
  import opened Ledgers
  import opened LedgerSafety
  import opened LedgerTheorems

  /** The positions of the blocks with an error, whether the replay failed, and what else is reported. */
  datatype ChainReport = ChainReport(badHeights: seq<nat>, replayFailed: bool, blockCount: nat,
                                     tipHeight: int, tipHash: Option<Digest>, stateRoot: Digest,
                                     balances: seq<Row>)
  {
    predicate Clean() { badHeights == [] && !replayFailed }
  }

  // ---------------------------------------------------------------------------------------------
  // What is wrong with a block, field by field
  // ---------------------------------------------------------------------------------------------

  /** The block has the height of its position and names the hash of the block below it. */
  predicate InPlace(blocks: seq<Block>, k: nat)
    requires k < |blocks|
  {
    blocks[k].height == k && blocks[k].previousHash == if k == 0 then ZeroHash else blocks[k - 1].hash
  }

  /** The block's hash covers its fields and its transactions, and an authorized proposer signed it. */
  predicate Sealed(b: Block, validators: set<Key>) {
    && b.transactionsRoot == Root(LeafHashes(b.transactions))
    && b.hash == HeaderHash(b.height, b.previousHash, b.timestamp, b.transactionsRoot, b.stateRoot, b.validator)
    && b.validator in validators && b.validatorSignature == Signed(b.validator, BlockMessage(b.hash))
  }

  /** The transaction is complete and its sender signed it. */
  predicate SignedBySender(tx: Transaction) {
    && tx.body.id != "" && tx.body.sender != "" && tx.body.nonce >= 0
    && tx.signature == Signed(tx.body.sender, TxMessage(tx.body))
  }

  /** The approvals are by different authorized validators, each of which signed the block's hash. */
  predicate SignedApprovals(b: Block, validators: set<Key>) {
    && (forall i :: 0 <= i < |b.approvals| ==>
          var a := b.approvals[i];
          a.validator in validators && a.signature == Signed(a.validator, BlockMessage(b.hash)))
    && (forall i, k :: 0 <= i < k < |b.approvals| ==> b.approvals[i].validator != b.approvals[k].validator)
  }

  predicate Intact(l: Ledger, k: nat)
    requires k < |l.blocks|
  {
    var b := l.blocks[k];
    && InPlace(l.blocks, k) && Sealed(b, l.validators)
    && (forall i :: 0 <= i < |b.transactions| ==> SignedBySender(b.transactions[i]))
    && (b.finalized ==> SignedApprovals(b, l.validators))
  }

  lemma WellFormedIff(b: Block, validators: set<Key>)
    ensures WellFormedBlock(b, validators) <==>
            Sealed(b, validators) && forall i :: 0 <= i < |b.transactions| ==> SignedBySender(b.transactions[i])
  {
    forall i | 0 <= i < |b.transactions|
      ensures ValidTransaction(b.transactions[i], true) <==> SignedBySender(b.transactions[i])
    {
    }
  }

  lemma ApprovalsIff(b: Block, validators: set<Key>)
    ensures GoodApprovals(b.approvals, b.hash, validators) && DistinctApprovals(b.approvals) <==>
            SignedApprovals(b, validators)
  {
  }

  /** A proposer's own good approval never makes approvals bad. */
  lemma ProposerAdded(b: Block, validators: set<Key>)
    requires b.validator in validators && b.validatorSignature == Signed(b.validator, BlockMessage(b.hash))
    ensures var all := WithProposerApproval(b).approvals;
            && ApprovedBy(WithProposerApproval(b), b.validator) && |all| >= 1 && |all| >= |b.approvals|
            && (GoodApprovals(all, b.hash, validators) <==> GoodApprovals(b.approvals, b.hash, validators))
            && (DistinctApprovals(all) <==> DistinctApprovals(b.approvals))
  {
    var own := Approval(b.validator, b.validatorSignature);
    if !ApprovedBy(b, b.validator) {
      ApproversAppend(b.approvals, own);
      AddedGood(b.approvals, own, b.hash, validators);
      AddedDistinct(b.approvals, own);
    }
  }

  lemma AddedGood(approvals: seq<Approval>, a: Approval, hash: Digest, validators: set<Key>)
    requires GoodApproval(a, hash, validators)
    ensures GoodApprovals(approvals + [a], hash, validators) <==> GoodApprovals(approvals, hash, validators)
  {
    if GoodApprovals(approvals + [a], hash, validators) {
      forall k | 0 <= k < |approvals| ensures GoodApproval(approvals[k], hash, validators) {
        assert (approvals + [a])[k] == approvals[k];
      }
    }
  }

  lemma AddedDistinct(approvals: seq<Approval>, a: Approval)
    requires a.validator !in Approvers(approvals)
    ensures DistinctApprovals(approvals + [a]) <==> DistinctApprovals(approvals)
  {
    var all := approvals + [a];
    if DistinctApprovals(all) {
      forall i, k | 0 <= i < k < |approvals| ensures approvals[i].validator != approvals[k].validator {
        assert all[i].validator != all[k].validator;
      }
    }
  }

  lemma QuorumIff(b: Block, validators: set<Key>)
    requires b.finalized
    requires b.validator in validators && b.validatorSignature == Signed(b.validator, BlockMessage(b.hash))
    ensures Quorate(WithProposerApproval(b), validators, EffectiveQuorum(b)) <==> SignedApprovals(b, validators)
  {
    ProposerAdded(b, validators);
    ApprovalsIff(b, validators);
  }

  /** The check of one block finds nothing exactly when the block is intact. */
  lemma VerifiesIff(l: Ledger, k: nat)
    requires k < |l.blocks|
    ensures BlockVerifies(l, k) <==> Intact(l, k)
  {
    var b := l.blocks[k];
    WellFormedIff(b, l.validators);
    if b.finalized && Sealed(b, l.validators) {
      QuorumIff(b, l.validators);
    }
  }

  lemma {:induction false} BadMeaning(l: Ledger, n: nat)
    requires n <= |l.blocks|
    ensures forall k: nat :: k in BadHeights(l, n) <==> k < n && !Intact(l, k)
    ensures forall i, k :: 0 <= i < k < |BadHeights(l, n)| ==> BadHeights(l, n)[i] < BadHeights(l, n)[k]
  {
    if n > 0 {
      BadMeaning(l, n - 1);
      VerifiesIff(l, n - 1);
      var bad := BadHeights(l, n - 1);
      forall i | 0 <= i < |bad| ensures bad[i] < n - 1 {
        assert bad[i] in bad;
      }
    }
  }

  // ---------------------------------------------------------------------------------------------
  // The report
  // ---------------------------------------------------------------------------------------------

  /** Block k is final and no block above it is. */
  predicate IsFinalTip(blocks: seq<Block>, k: nat) {
    k < |blocks| && blocks[k].finalized && forall i :: k < i < |blocks| ==> !blocks[i].finalized
  }

  ghost predicate ReportsTip(blocks: seq<Block>, height: int, hash: Option<Digest>) {
    if exists k: nat :: IsFinalTip(blocks, k)
    then exists k: nat :: IsFinalTip(blocks, k) && height == blocks[k].height && hash == Some(blocks[k].hash)
    else (forall k :: 0 <= k < |blocks| ==> !blocks[k].finalized) && height == -1 && hash == None
  }

  lemma TipIsReported(blocks: seq<Block>, tip: Option<Block>)
    requires tip.None? ==> forall i :: 0 <= i < |blocks| ==> !blocks[i].finalized
    requires tip.Some? ==> exists k: nat :: IsFinalTip(blocks, k) && tip.value == blocks[k]
    ensures ReportsTip(blocks, if tip.Some? then tip.value.height else -1,
                       if tip.Some? then Some(tip.value.hash) else None)
  {
  }

  /** A report says of the tables of a chain which positions hold a block that is not intact, whether the
      final transactions replay and to which table, and which final block is highest. */
  ghost predicate Reported(l: Ledger, report: ChainReport) {
    var done := FinalizedTxs(l.blocks);
    && (forall k: nat :: k in report.badHeights <==> k < |l.blocks| && !Intact(l, k))
    && (forall i, k :: 0 <= i < k < |report.badHeights| ==> report.badHeights[i] < report.badHeights[k])
    && (report.replayFailed <==> !Admissible(done))
    && (if report.replayFailed then report.balances == [] else TableOf(report.balances, done))
    && report.stateRoot == StateHash(report.balances)
    && report.blockCount == |l.blocks|
    && ReportsTip(l.blocks, report.tipHeight, report.tipHash)
  }

  lemma ReportHolds(l: Ledger, report: ChainReport, state: Credits)
    requires report.badHeights == BadHeights(l, |l.blocks|) && report.blockCount == |l.blocks|
    requires report.replayFailed <==> ReplayAll(FinalizedTxs(l.blocks)).Err?
    requires state == if report.replayFailed then NO_CREDITS else ReplayAll(FinalizedTxs(l.blocks)).value
    requires report.balances == state.ToList() && report.stateRoot == state.StateRoot()
    requires ReportsTip(l.blocks, report.tipHeight, report.tipHash)
    ensures Reported(l, report)
  {
    var done := FinalizedTxs(l.blocks);
    BadMeaning(l, |l.blocks|);
    ReplayCharacterised(done);
    RootIsHash(state, report);
    if !report.replayFailed {
      RootHashesTable(done, report.balances);
    }
  }

  lemma RootIsHash(state: Credits, report: ChainReport)
    requires report.balances == state.ToList() && report.stateRoot == state.StateRoot()
    ensures report.stateRoot == StateHash(report.balances)
    ensures state == NO_CREDITS ==> report.balances == []
  {
  }

  /** A clean report means an intact chain whose final transactions replay, and any fault is reported. */
  lemma CleanIff(l: Ledger, report: ChainReport)
    requires Reported(l, report)
    ensures report.Clean() <==>
            (forall k :: 0 <= k < |l.blocks| ==> Intact(l, k)) && Admissible(FinalizedTxs(l.blocks))
    ensures report.Clean() <==> ChainVerifies(l)
  {
    if forall k :: 0 <= k < |l.blocks| ==> Intact(l, k) {
      if report.badHeights != [] {
        assert report.badHeights[0] in report.badHeights;
      }
    }
    forall k | 0 <= k < |l.blocks| ensures BlockVerifies(l, k) <==> Intact(l, k) {
      VerifiesIff(l, k);
    }
    ReplayCharacterised(FinalizedTxs(l.blocks));
  }

  /** What a reachable ledger reports: nothing wrong, the cached table, and as the tip its top block, or the
      one below it while the top block is open. */
  lemma ReachableReports(cfg: Config, l: Ledger, report: ChainReport)
    requires Reachable(cfg, l) && Reported(l, report)
    ensures report.Clean() && report.balances == l.balances
    ensures var top := |l.blocks| - (if l.blocks != [] && !l.blocks[|l.blocks| - 1].finalized then 2 else 1);
            if top >= 0 then report.tipHeight == top && report.tipHash == Some(l.blocks[top].hash)
            else report.tipHeight == -1 && report.tipHash == None
  {
    ReachableIsSafe(cfg, l);
    SelfVerification(cfg, l);
    CleanIff(l, report);
    RootHashesTable(FinalizedTxs(l.blocks), report.balances);
    TopReported(l, report);
  }

  lemma TopReported(l: Ledger, report: ChainReport)
    requires Linked(l.blocks) && OnlyTipOpen(l.blocks) && ReportsTip(l.blocks, report.tipHeight, report.tipHash)
    ensures var top := |l.blocks| - (if l.blocks != [] && !l.blocks[|l.blocks| - 1].finalized then 2 else 1);
            if top >= 0 then report.tipHeight == top && report.tipHash == Some(l.blocks[top].hash)
            else report.tipHeight == -1 && report.tipHash == None
  {
    var top := |l.blocks| - (if l.blocks != [] && !l.blocks[|l.blocks| - 1].finalized then 2 else 1);
    if top >= 0 {
      assert IsFinalTip(l.blocks, top) && LinkedAt(l.blocks, top);
      forall k: nat | IsFinalTip(l.blocks, k) ensures k == top {
      }
    }
  }

  // ---------------------------------------------------------------------------------------------
  // What the chain of a reachable ledger is, without naming its checks
  // ---------------------------------------------------------------------------------------------

  /** At least quorum many authorized validators, the proposer among them, signed the block's hash. */
  ghost predicate SignedByQuorum(b: Block, validators: set<Key>, quorum: int) {
    exists signers: set<Key> :: IsQuorum(b, signers, validators, quorum)
  }

  ghost predicate IsQuorum(b: Block, signers: set<Key>, validators: set<Key>, quorum: int) {
    && |signers| >= quorum && signers <= validators && b.validator in signers
    && forall v :: v in signers ==> Approval(v, Signed(v, BlockMessage(b.hash))) in b.approvals
  }

  lemma {:induction false} SignersCount(approvals: seq<Approval>)
    requires DistinctApprovals(approvals)
    ensures |Approvers(approvals)| == |approvals|
  {
    if approvals != [] {
      var n := |approvals| - 1;
      var before := approvals[..n];
      SignersCount(before);
      ApproversAppend(before, approvals[n]);
      assert approvals == before + [approvals[n]];
      forall k | 0 <= k < n ensures before[k].validator != approvals[n].validator {
        assert approvals[k].validator != approvals[n].validator;
      }
    }
  }

  /** The chain of a reachable ledger is intact block by block, a quorum of authorized validators signed every
      final block, and at most the top block is not final. */
  lemma ChainIsSigned(cfg: Config, l: Ledger, k: nat)
    requires Reachable(cfg, l) && k < |l.blocks|
    ensures Intact(l, k) && l.blocks[k].transactions != []
    ensures l.blocks[k].finalized ==> SignedByQuorum(l.blocks[k], l.validators, cfg.Threshold())
    ensures k < |l.blocks| - 1 ==> l.blocks[k].finalized
  {
    ReachableIsSafe(cfg, l);
    SelfVerification(cfg, l);
    VerifiesIff(l, k);
    assert SoundBlock(l.blocks[k], l.validators, cfg.Threshold());
    if l.blocks[k].finalized {
      QuorateIsSigned(l.blocks[k], l.validators, cfg.Threshold());
    }
  }

  lemma QuorateIsSigned(b: Block, validators: set<Key>, quorum: int)
    requires Quorate(b, validators, quorum)
    ensures SignedByQuorum(b, validators, quorum)
  {
    var signers := Approvers(b.approvals);
    SignersCount(b.approvals);
    forall v | v in signers
      ensures v in validators && Approval(v, Signed(v, BlockMessage(b.hash))) in b.approvals
    {
      var i :| 0 <= i < |b.approvals| && b.approvals[i].validator == v;
      assert GoodApproval(b.approvals[i], b.hash, validators);
    }
    assert IsQuorum(b, signers, validators, quorum);
  }
}
