/** Consequences of the ledger invariant: self-verification, what can stop a seal, finality, and a
    tip hash that binds the whole history. */
module LedgerTheorems {
  import opened Hashing
  import opened Sequences
  import opened Merkle
  import opened Replay
  import opened ReplayMeaning
  import opened Blocks
  import opened Ledgers
  import opened LedgerSafety

  // ---------------------------------------------------------------------------------------------
  // Self-verification
  // ---------------------------------------------------------------------------------------------

  /** The quorum verify_chain demands: the approvals a finalized block carries. */
  function EffectiveQuorum(b: Block): int {
    if b.finalized then (if |b.approvals| < 1 then 1 else |b.approvals|) else 1
  }

  ghost predicate BlockVerifies(l: Ledger, k: nat)
    requires k < |l.blocks|
  {
    var b := l.blocks[k];
    ValidBlock(b, l.validators, Some(HashBefore(l.blocks, k)), Some(k), EffectiveQuorum(b), b.finalized)
  }

  /** verify_chain reports no error. */
  ghost predicate ChainVerifies(l: Ledger) {
    && (forall k :: 0 <= k < |l.blocks| ==> BlockVerifies(l, k))
    && ReplayAll(FinalizedTxs(l.blocks)).Ok?
  }

  /** The heights below k at which verify_chain finds an error. */
  ghost function BadHeights(l: Ledger, k: nat): seq<nat>
    requires k <= |l.blocks|
  {
    if k == 0 then []
    else BadHeights(l, k - 1) + (if BlockVerifies(l, k - 1) then [] else [k - 1])
  }

  lemma SoundBlockVerifies(b: Block, validators: set<Key>, quorum: int, previous: Digest, height: int)
    requires SoundBlock(b, validators, quorum) && b.previousHash == previous && b.height == height
    ensures ValidBlock(b, validators, Some(previous), Some(height), EffectiveQuorum(b), b.finalized)
  {
    ProposerAlreadyApproved(b);
  }

  /** verify_chain is clean on every reachable ledger, open tip or not, and the table it replays is the
      cached one. */
  lemma SelfVerification(cfg: Config, l: Ledger)
    requires Reachable(cfg, l)
    ensures ChainVerifies(l)
    ensures ReplayAll(FinalizedTxs(l.blocks)).value.ToList() == l.balances
  {
    ReachableIsSafe(cfg, l);
    forall k | 0 <= k < |l.blocks| ensures BlockVerifies(l, k) {
      assert SoundBlock(l.blocks[k], l.validators, cfg.Threshold());
      assert LinkedAt(l.blocks, k);
      SoundBlockVerifies(l.blocks[k], l.validators, cfg.Threshold(), HashBefore(l.blocks, k), k);
    }
  }

  /** Chain safety: heights and hash links, at most the top block open, and each finalized block with
      a quorum of valid approvals from distinct authorized validators, its proposer included. */
  lemma ChainSafety(cfg: Config, l: Ledger)
    requires Reachable(cfg, l)
    ensures Linked(l.blocks) && OnlyTipOpen(l.blocks)
    ensures forall k :: 0 <= k < |l.blocks| && l.blocks[k].finalized ==>
              Quorate(l.blocks[k], l.validators, cfg.Threshold())
  {
    ReachableIsSafe(cfg, l);
    forall k | 0 <= k < |l.blocks| && l.blocks[k].finalized
      ensures Quorate(l.blocks[k], l.validators, cfg.Threshold())
    {
      assert SoundBlock(l.blocks[k], l.validators, cfg.Threshold());
    }
  }

  /** The cache is the replay, each block's state root is that of the replay up to it, whenever it was
      finalized, and rebuilding the cache changes nothing. */
  lemma CacheIsReplay(cfg: Config, l: Ledger)
    requires Reachable(cfg, l)
    ensures CacheCurrent(l) && RootsCommit(l.blocks) && Rebuild(l) == Ok(l)
  {
    ReachableIsSafe(cfg, l);
    RebuildIsIdentity(cfg, l);
  }

  // ---------------------------------------------------------------------------------------------
  // What can stop a seal
  // ---------------------------------------------------------------------------------------------

  /** Pending transaction k is well formed and, if a burn, covered at its place. */
  ghost predicate AppliesAt(done: seq<Transaction>, pending: seq<Transaction>, k: nat)
    requires k < |pending|
  {
    WellFormedPayload(pending[k].body) && Covered(done + pending, |done| + k)
  }

  ghost predicate AppliesAfter(done: seq<Transaction>, pending: seq<Transaction>) {
    forall k {:trigger AppliesAt(done, pending, k)} :: 0 <= k < |pending| ==> AppliesAt(done, pending, k)
  }

  lemma SealOutcome(cfg: Config, l: Ledger, now: string)
    requires AllFinalized(l.blocks) && l.pending != [] && l.blocks != []
    ensures Seal(cfg, l, now).Ok? <==>
            ReplayAll(FinalizedTxs(l.blocks) + l.pending).Ok? && ValidTransactions(l.pending)
  {
    var r := ReplayAll(FinalizedTxs(l.blocks) + l.pending);
    if r.Ok? {
      NextBlockSound(cfg, l.blocks[|l.blocks| - 1], now, l.pending, r.value, l.validators + cfg.OwnKeys());
    }
  }

  lemma PendingAdmissible(done: seq<Transaction>, pending: seq<Transaction>)
    requires Admissible(done) && AllFresh(done + pending)
    ensures Admissible(done + pending) <==> AppliesAfter(done, pending)
  {
    var all := done + pending;
    forall i | 0 <= i < |done| ensures WellFormedPayload(all[i].body) && Covered(all, i) {
      assert all[..i] == done[..i] && Covered(done, i);
    }
    if Admissible(all) {
      forall k | 0 <= k < |pending| ensures AppliesAt(done, pending, k) {
        assert all[|done| + k] == pending[k];
      }
    }
    if AppliesAfter(done, pending) {
      forall i | |done| <= i < |all| ensures WellFormedPayload(all[i].body) && Covered(all, i) {
        assert AppliesAt(done, pending, i - |done|);
      }
    }
  }

  /** With transactions waiting, sealing succeeds exactly when the tip is final and every pending
      transaction is signed, well formed and, if a burn, covered at its place: nonces, links,
      roots and the proposer's own checks never stand in the way. */
  lemma SealSucceeds(cfg: Config, l: Ledger, now: string)
    requires Reachable(cfg, l) && l.pending != []
    ensures Seal(cfg, l, now).Ok? <==>
            AllFinalized(l.blocks) && ValidTransactions(l.pending)
            && AppliesAfter(FinalizedTxs(l.blocks), l.pending)
  {
    if AllFinalized(l.blocks) {
      var done := FinalizedTxs(l.blocks);
      assert AllFresh(done + l.pending) && ReplayAll(done).Ok? && l.blocks != [] by {
        ReachableIsSafe(cfg, l);
        AllFinalizedTxs(l.blocks);
      }
      ReplayCharacterised(done);
      ReplayCharacterised(done + l.pending);
      PendingAdmissible(done, l.pending);
      SealOutcome(cfg, l, now);
    }
  }

  // ---------------------------------------------------------------------------------------------
  // Finality
  // ---------------------------------------------------------------------------------------------

  /** The same block, perhaps with more approvals; unchanged once it was finalized. */
  ghost predicate Endures(before: Block, after: Block) {
    && after == before.(approvals := after.approvals, finalized := after.finalized)
    && before.approvals <= after.approvals
    && (before.finalized ==> after == before)
  }

  ghost predicate Extends(before: seq<Block>, after: seq<Block>) {
    && |before| <= |after|
    && forall k :: 0 <= k < |before| ==> Endures(before[k], after[k])
  }

  lemma ExtendsTransitive(a: seq<Block>, b: seq<Block>, c: seq<Block>)
    requires Extends(a, b) && Extends(b, c)
    ensures Extends(a, c)
  {
    forall k | 0 <= k < |a| ensures Endures(a[k], c[k]) {
      assert Endures(a[k], b[k]) && Endures(b[k], c[k]);
    }
  }

  lemma ApproveExtends(cfg: Config, l: Ledger, hash: Digest, key: Key, signature: Signature)
    ensures Extends(l.blocks, Keep(Approve(cfg, l, hash, key, signature), l).blocks)
  {
    var r := Approve(cfg, l, hash, key, signature);
    if r.Ok? {
      ApproveWrites(cfg, l, hash, key, signature, r.value);
    }
  }

  lemma AfterExtends(cfg: Config, l: Ledger, call: Call, e: Entropy)
    ensures Extends(l.blocks, After(cfg, l, call, e).blocks)
  {
    var started := Keep(Initialize(cfg, l, e), l);
    assert Extends(l.blocks, started.blocks);
    if call.CallApprove? {
      ApproveExtends(cfg, started, call.hash, call.key, call.signature);
      ExtendsTransitive(l.blocks, started.blocks,
                        Keep(Approve(cfg, started, call.hash, call.key, call.signature), started).blocks);
    }
  }

  /** Finality: whatever calls follow, no block disappears, and a finalized block never changes. */
  lemma {:induction false} FinalizedForever(cfg: Config, ledgers: seq<Ledger>, trace: Trace, i: nat, k: nat)
    requires IsRun(cfg, ledgers, trace) && i <= k <= |trace|
    ensures Extends(ledgers[i].blocks, ledgers[k].blocks)
  {
    if i < k {
      FinalizedForever(cfg, ledgers, trace, i, k - 1);
      CallExtendsAt(cfg, ledgers, trace, k - 1);
      ExtendsTransitive(ledgers[i].blocks, ledgers[k - 1].blocks, ledgers[k].blocks);
    }
  }

  lemma CallExtendsAt(cfg: Config, ledgers: seq<Ledger>, trace: Trace, k: nat)
    requires IsRun(cfg, ledgers, trace) && k < |trace|
    ensures Extends(ledgers[k].blocks, ledgers[k + 1].blocks)
  {
    AfterExtends(cfg, ledgers[k], trace[k].0, trace[k].1);
    assert CallAt(cfg, ledgers, trace, k);
  }

  // ---------------------------------------------------------------------------------------------
  // The tip hash binds the history
  // ---------------------------------------------------------------------------------------------

  /** The same header and the same transactions. */
  ghost predicate SameContent(a: Block, b: Block) {
    && a.height == b.height && a.previousHash == b.previousHash && a.timestamp == b.timestamp
    && a.transactionsRoot == b.transactionsRoot && a.stateRoot == b.stateRoot
    && a.validator == b.validator && a.hash == b.hash && |a.transactions| == |b.transactions|
    && forall k :: 0 <= k < |a.transactions| ==> a.transactions[k].body == b.transactions[k].body
  }

  /** No transaction body occurs twice on a chain whose nonces are fresh. */
  lemma FreshAreDistinct(txs: seq<Transaction>)
    requires AllFresh(txs)
    ensures Distinct(LeafHashes(txs))
  {
    forall i, j | 0 <= i < j < |txs| ensures LeafHashes(txs)[i] != LeafHashes(txs)[j] {
      assert FreshNonce(txs, j);
    }
  }

  /** The transactions of one block are a stretch of the transactions of the chain. */
  lemma {:induction false} BlockStretch(blocks: seq<Block>, k: nat) returns (start: nat)
    requires k < |blocks|
    ensures start + |blocks[k].transactions| <= |TxsOf(blocks)|
    ensures TxsOf(blocks)[start..start + |blocks[k].transactions|] == blocks[k].transactions
  {
    var n := |blocks| - 1;
    if k == n {
      start := |TxsOf(blocks[..n])|;
    } else {
      start := BlockStretch(blocks[..n], k);
    }
  }

  lemma DistinctInBlock(cfg: Config, l: Ledger, k: nat)
    requires Safe(cfg, l) && k < |l.blocks|
    ensures Distinct(LeafHashes(l.blocks[k].transactions))
  {
    FreshAreDistinct(Rows(l));
    var start := BlockStretch(l.blocks, k);
    var own, rows := l.blocks[k].transactions, Rows(l);
    forall i, j | 0 <= i < j < |own| ensures LeafHashes(own)[i] != LeafHashes(own)[j] {
      assert own[i] == TxsOf(l.blocks)[start + i] == rows[start + i];
      assert own[j] == TxsOf(l.blocks)[start + j] == rows[start + j];
      assert LeafHashes(rows)[start + i] != LeafHashes(rows)[start + j];
    }
  }

  /** What binding needs to know of a block of a ledger. */
  ghost predicate AnchoredAt(l: Ledger, k: nat)
    requires k < |l.blocks|
  {
    && LinkedAt(l.blocks, k)
    && WellFormedBlock(l.blocks[k], l.validators) && l.blocks[k].transactions != []
    && Distinct(LeafHashes(l.blocks[k].transactions))
  }

  ghost predicate Anchored(l: Ledger) {
    forall k {:trigger AnchoredAt(l, k)} :: 0 <= k < |l.blocks| ==> AnchoredAt(l, k)
  }

  lemma ReachableIsAnchored(cfg: Config, l: Ledger)
    requires Reachable(cfg, l)
    ensures Anchored(l)
  {
    ReachableIsSafe(cfg, l);
    forall k | 0 <= k < |l.blocks| ensures AnchoredAt(l, k) {
      assert SoundBlock(l.blocks[k], l.validators, cfg.Threshold()) && LinkedAt(l.blocks, k);
      DistinctInBlock(cfg, l, k);
    }
  }

  lemma SameBlock(a: Ledger, b: Ledger, i: nat, j: nat)
    requires i < |a.blocks| && j < |b.blocks| && AnchoredAt(a, i) && AnchoredAt(b, j)
    requires a.blocks[i].hash == b.blocks[j].hash
    ensures i == j && SameContent(a.blocks[i], b.blocks[i])
    ensures 0 < i ==> a.blocks[i - 1].hash == b.blocks[i - 1].hash
  {
    DistinctBlockBinding(a.blocks[i], b.blocks[j], a.validators, b.validators);
    BlockBinding(a.blocks[i], b.blocks[j], a.validators, b.validators);
  }

  lemma {:induction false} SameBelow(a: Ledger, b: Ledger, k: nat, i: nat)
    requires Anchored(a) && Anchored(b) && i <= k < |a.blocks| && k < |b.blocks|
    requires a.blocks[k].hash == b.blocks[k].hash
    ensures SameContent(a.blocks[i], b.blocks[i])
  {
    assert AnchoredAt(a, k) && AnchoredAt(b, k);
    SameBlock(a, b, k, k);
    if i < k {
      SameBelow(a, b, k - 1, i);
    }
  }

  /** Two reachable ledgers, under any configurations, that share the hash of any block agree on that
      block and on everything below it: heights, headers, state roots and transactions in order. */
  lemma HashBindsHistory(ca: Config, a: Ledger, cb: Config, b: Ledger, i: nat, j: nat)
    requires Reachable(ca, a) && Reachable(cb, b) && i < |a.blocks| && j < |b.blocks|
    requires a.blocks[i].hash == b.blocks[j].hash
    ensures i == j && forall k :: 0 <= k <= i ==> SameContent(a.blocks[k], b.blocks[k])
  {
    ReachableIsAnchored(ca, a);
    ReachableIsAnchored(cb, b);
    assert AnchoredAt(a, i) && AnchoredAt(b, j);
    SameBlock(a, b, i, j);
    forall k | 0 <= k <= i ensures SameContent(a.blocks[k], b.blocks[k]) {
      SameBelow(a, b, i, k);
    }
  }

  lemma TopBlockFound(cfg: Config, l: Ledger, k: nat)
    requires Safe(cfg, l) && k == |l.blocks| - 1
    ensures FindBlock(l.blocks, l.blocks[k].hash) == k
  {
    var i := FindBlock(l.blocks, l.blocks[k].hash);
    assert i <= k;
    assert SoundBlock(l.blocks[i], l.validators, cfg.Threshold());
    assert SoundBlock(l.blocks[k], l.validators, cfg.Threshold());
    assert LinkedAt(l.blocks, i) && LinkedAt(l.blocks, k);
  }

  // ---------------------------------------------------------------------------------------------
  // Genesis
  // ---------------------------------------------------------------------------------------------

  lemma {:induction false} CosignEachKeys(approvals: seq<Approval>, extras: seq<Key>, hash: Digest)
    ensures var all := CosignEach(approvals, extras, hash);
            && |all| == |approvals| + |extras|
            && (forall k :: 0 <= k < |approvals| ==> all[k] == approvals[k])
            && (forall k :: 0 <= k < |extras| ==> all[|approvals| + k].validator == extras[k])
  {
    if extras != [] {
      CosignEachKeys(approvals, extras[..|extras| - 1], hash);
    }
  }

  lemma GenesisApprovals(cfg: Config, e: Entropy)
    ensures var b := GenesisBlock(cfg, e);
            && (DistinctApprovals(b.approvals) <==> Distinct([cfg.relay] + cfg.extras))
            && (b.finalized <==> 1 + |cfg.extras| >= cfg.Threshold())
  {
    var b, all := GenesisBlock(cfg, e), [cfg.relay] + cfg.extras;
    CosignEachKeys([Cosignature(cfg.relay, b.hash)], cfg.extras, b.hash);
    assert |b.approvals| == |all|;
    assert forall k :: 0 <= k < |all| ==> b.approvals[k].validator == all[k];
  }

  /** A chain can be started exactly when its genesis would stay open or no configured key repeats. */
  lemma GenesisStarts(cfg: Config, e: Entropy)
    requires e.id != "" && cfg.relay != ""
    ensures Initialize(cfg, EMPTY_LEDGER, e).Ok? <==>
            1 + |cfg.extras| < cfg.Threshold() || Distinct([cfg.relay] + cfg.extras)
  {
    GenesisSound(cfg, e, EMPTY_LEDGER.validators + cfg.OwnKeys());
    GenesisApprovals(cfg, e);
    assert GenesisBlock(cfg, e).transactions == [GenesisTx(cfg, e)];
  }
}
