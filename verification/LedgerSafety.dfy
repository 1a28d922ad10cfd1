/** What every reachable ledger satisfies: chain safety, the balance cache, state roots and nonces. */
module LedgerSafety {
  import opened Hashing
  import opened Sequences
  import opened Merkle
  import opened Replay
  import opened ReplayMeaning
  import opened Blocks
  import opened Ledgers

  // ---------------------------------------------------------------------------------------------
  // The invariant
  // ---------------------------------------------------------------------------------------------

  function HashBefore(blocks: seq<Block>, k: nat): Digest
    requires k <= |blocks|
  {
    if k == 0 then ZeroHash else blocks[k - 1].hash
  }

  ghost predicate LinkedAt(blocks: seq<Block>, k: nat)
    requires k < |blocks|
  {
    blocks[k].height == k && blocks[k].previousHash == HashBefore(blocks, k)
  }

  /** Heights count from zero and each block names the hash of the one below it. */
  ghost predicate Linked(blocks: seq<Block>) {
    forall k {:trigger LinkedAt(blocks, k)} :: 0 <= k < |blocks| ==> LinkedAt(blocks, k)
  }

  /** Only the top block may still wait for its quorum. */
  ghost predicate OnlyTipOpen(blocks: seq<Block>) {
    forall k :: 0 <= k < |blocks| - 1 ==> blocks[k].finalized
  }

  /** A finalized block has its quorum; an open one has good approvals, too few of them. */
  ghost predicate ApprovedAsMarked(b: Block, validators: set<Key>, quorum: int) {
    if b.finalized then Quorate(b, validators, quorum)
    else |b.approvals| < quorum && GoodApprovals(b.approvals, b.hash, validators)
         && ApprovedBy(b, b.validator)
  }

  ghost predicate SoundBlock(b: Block, validators: set<Key>, quorum: int) {
    WellFormedBlock(b, validators) && b.transactions != [] && ApprovedAsMarked(b, validators, quorum)
  }

  ghost predicate SoundBlocks(blocks: seq<Block>, validators: set<Key>, quorum: int) {
    forall k {:trigger SoundBlock(blocks[k], validators, quorum)} :: 0 <= k < |blocks| ==>
      SoundBlock(blocks[k], validators, quorum)
  }

  /** The state root of block k is the root of the replay up to and including it. */
  ghost predicate CommitsReplay(blocks: seq<Block>, k: nat)
    requires k < |blocks|
  {
    var r := ReplayAll(TxsOf(blocks[..k + 1]));
    r.Ok? && blocks[k].stateRoot == r.value.StateRoot()
  }

  ghost predicate RootsCommit(blocks: seq<Block>) {
    forall k :: 0 <= k < |blocks| ==> CommitsReplay(blocks, k)
  }

  /** The cached table is the replay of the finalized transactions. */
  ghost predicate CacheCurrent(l: Ledger) {
    var r := ReplayAll(FinalizedTxs(l.blocks));
    r.Ok? && l.balances == r.value.ToList()
  }

  ghost predicate Safe(cfg: Config, l: Ledger) {
    && Linked(l.blocks)
    && OnlyTipOpen(l.blocks)
    && SoundBlocks(l.blocks, l.validators, cfg.Threshold())
    && RootsCommit(l.blocks)
    && CacheCurrent(l)
    && AllFresh(Rows(l))
    && (l.blocks == [] ==> l.pending == [])
  }

  ghost predicate Reachable(cfg: Config, l: Ledger) {
    exists ledgers: seq<Ledger>, trace: Trace ::
      IsRun(cfg, ledgers, trace) && ledgers[0] == EMPTY_LEDGER && l == ledgers[|trace|]
  }

  // ---------------------------------------------------------------------------------------------
  // Sequences of blocks
  // ---------------------------------------------------------------------------------------------

  lemma TxsAppend(blocks: seq<Block>, b: Block)
    ensures TxsOf(blocks + [b]) == TxsOf(blocks) + b.transactions
    ensures FinalizedTxs(blocks + [b]) == FinalizedTxs(blocks) + if b.finalized then b.transactions else []
  {
    assert (blocks + [b])[..|blocks|] == blocks;
  }

  lemma {:induction false} AllFinalizedTxs(blocks: seq<Block>)
    requires AllFinalized(blocks)
    ensures FinalizedTxs(blocks) == TxsOf(blocks)
  {
    if blocks != [] {
      AllFinalizedTxs(blocks[..|blocks| - 1]);
    }
  }

  /** With only the tip open, the finalized transactions are a prefix of all transactions. */
  lemma FinalizedPrefix(blocks: seq<Block>)
    requires OnlyTipOpen(blocks)
    ensures blocks != [] ==>
              var n := |blocks| - 1;
              && FinalizedTxs(blocks[..n]) == TxsOf(blocks[..n])
              && FinalizedTxs(blocks) ==
                 if blocks[n].finalized then TxsOf(blocks) else TxsOf(blocks[..n])
    ensures FinalizedTxs(blocks) <= TxsOf(blocks)
  {
    if blocks != [] {
      AllFinalizedTxs(blocks[..|blocks| - 1]);
    }
  }

  /** Block k keeps its commitment when blocks are added or approvals change. */
  lemma {:induction false} TxsOfSame(a: seq<Block>, b: seq<Block>)
    requires |a| == |b| && forall k :: 0 <= k < |a| ==> a[k].transactions == b[k].transactions
    ensures TxsOf(a) == TxsOf(b)
  {
    if a != [] {
      TxsOfSame(a[..|a| - 1], b[..|b| - 1]);
    }
  }

  lemma RootsAppend(blocks: seq<Block>, b: Block, state: Credits)
    requires RootsCommit(blocks) && b.stateRoot == state.StateRoot()
    requires ReplayAll(TxsOf(blocks) + b.transactions) == Ok(state)
    ensures RootsCommit(blocks + [b])
  {
    var all := blocks + [b];
    forall k | 0 <= k < |all| ensures CommitsReplay(all, k) {
      if k < |blocks| {
        assert CommitsReplay(blocks, k);
        assert all[..k + 1] == blocks[..k + 1];
      } else {
        TxsAppend(blocks, b);
        assert all[..k + 1] == all;
      }
    }
  }

  lemma RootsReplace(blocks: seq<Block>, k: nat, b: Block)
    requires RootsCommit(blocks) && k < |blocks|
    requires b.transactions == blocks[k].transactions && b.stateRoot == blocks[k].stateRoot
    ensures RootsCommit(blocks[k := b]) && TxsOf(blocks[k := b]) == TxsOf(blocks)
  {
    var all := blocks[k := b];
    TxsOfSame(all, blocks);
    forall i | 0 <= i < |all| ensures CommitsReplay(all, i) {
      assert CommitsReplay(blocks, i);
      TxsOfSame(all[..i + 1], blocks[..i + 1]);
    }
  }

  // ---------------------------------------------------------------------------------------------
  // Proposing
  // ---------------------------------------------------------------------------------------------

  lemma {:induction false} CosignEachGood(approvals: seq<Approval>, extras: seq<Key>, hash: Digest, keys: set<Key>)
    requires GoodApprovals(approvals, hash, keys) && Elements(extras) <= keys
    ensures GoodApprovals(CosignEach(approvals, extras, hash), hash, keys)
    ensures Approvers(approvals) <= Approvers(CosignEach(approvals, extras, hash))
  {
    if extras != [] {
      var n := |extras| - 1;
      assert extras[n] in Elements(extras) && Elements(extras[..n]) <= Elements(extras);
      CosignEachGood(approvals, extras[..n], hash, keys);
      ApproversAppend(CosignEach(approvals, extras[..n], hash), Cosignature(extras[n], hash));
    }
  }

  lemma ApproversAppend(approvals: seq<Approval>, a: Approval)
    ensures Approvers(approvals + [a]) == Approvers(approvals) + {a.validator}
    ensures DistinctApprovals(approvals) && a.validator !in Approvers(approvals) ==>
              DistinctApprovals(approvals + [a])
  {
    var all := approvals + [a];
    forall v | v in Approvers(approvals) + {a.validator} ensures v in Approvers(all) {
      if v in Approvers(approvals) {
        var k :| 0 <= k < |approvals| && approvals[k].validator == v;
        assert all[k].validator == v;
      } else {
        assert all[|approvals|].validator == v;
      }
    }
  }

  lemma {:induction false} CosignNewGood(approvals: seq<Approval>, extras: seq<Key>, hash: Digest, keys: set<Key>)
    requires GoodApprovals(approvals, hash, keys) && DistinctApprovals(approvals) && Elements(extras) <= keys
    ensures GoodApprovals(CosignNew(approvals, extras, hash), hash, keys)
    ensures DistinctApprovals(CosignNew(approvals, extras, hash))
    ensures Approvers(approvals) <= Approvers(CosignNew(approvals, extras, hash))
  {
    if extras != [] {
      var n := |extras| - 1;
      assert extras[n] in Elements(extras) && Elements(extras[..n]) <= Elements(extras);
      CosignNewGood(approvals, extras[..n], hash, keys);
      ApproversAppend(CosignNew(approvals, extras[..n], hash), Cosignature(extras[n], hash));
    }
  }

  lemma ProposedGood(cfg: Config, height: int, previous: Digest, now: string, txs: seq<Transaction>,
                     root: Digest, keys: set<Key>)
    requires cfg.OwnKeys() <= keys
    ensures var b := Proposed(cfg, height, previous, now, txs, root);
            && GoodApprovals(b.approvals, b.hash, keys) && DistinctApprovals(b.approvals)
            && Approvers(b.approvals) == {cfg.relay}
            && (ValidTransactions(txs) ==> WellFormedBlock(b, keys))
  {
    var b := Proposed(cfg, height, previous, now, txs, root);
    assert b.approvals[0].validator == cfg.relay;
  }

  /** A sealed block is approved as it is marked, and its own check fails only on a transaction. */
  lemma NextBlockSound(cfg: Config, tip: Block, now: string, txs: seq<Transaction>, state: Credits,
                       keys: set<Key>)
    requires cfg.OwnKeys() <= keys && txs != []
    ensures var b := NextBlock(cfg, tip, now, txs, state);
            && ApprovedAsMarked(b, keys, cfg.Threshold())
            && (SelfCheck(cfg, b, keys, tip.hash, tip.height + 1) <==> ValidTransactions(txs))
            && (ValidTransactions(txs) ==> SoundBlock(b, keys, cfg.Threshold()))
  {
    var p := Proposed(cfg, tip.height + 1, tip.hash, now, txs, state.StateRoot());
    var b := NextBlock(cfg, tip, now, txs, state);
    ProposedGood(cfg, tip.height + 1, tip.hash, now, txs, state.StateRoot(), keys);
    CosignNewGood(p.approvals, cfg.extras, p.hash, keys);
    assert cfg.relay in Approvers(p.approvals);
    ProposerAlreadyApproved(b);
  }

  /** The genesis block passes its own check unless it would be finalized with a repeated key; then
      it is sound. */
  lemma GenesisSound(cfg: Config, e: Entropy, keys: set<Key>)
    requires cfg.OwnKeys() <= keys
    ensures var b := GenesisBlock(cfg, e);
            && (SelfCheck(cfg, b, keys, ZeroHash, 0) <==>
                  ValidTransactions(b.transactions)
                  && (b.finalized ==> DistinctApprovals(b.approvals)))
            && (SelfCheck(cfg, b, keys, ZeroHash, 0) ==> SoundBlock(b, keys, cfg.Threshold()))
  {
    var root := GenesisState(cfg).StateRoot();
    var p := Proposed(cfg, 0, ZeroHash, e.now, [GenesisTx(cfg, e)], root);
    var b := GenesisBlock(cfg, e);
    ProposedGood(cfg, 0, ZeroHash, e.now, [GenesisTx(cfg, e)], root, keys);
    CosignEachGood(p.approvals, cfg.extras, p.hash, keys);
    assert cfg.relay in Approvers(p.approvals);
    ProposerAlreadyApproved(b);
  }

  // ---------------------------------------------------------------------------------------------
  // Nonces
  // ---------------------------------------------------------------------------------------------

  lemma {:induction false} MaxNonceMeaning(txs: seq<Transaction>, sender: Key, nonce: int)
    ensures nonce > MaxNonce(txs, sender) <==>
            nonce >= 0 && forall k :: 0 <= k < |txs| && txs[k].body.sender == sender ==>
                                        txs[k].body.nonce < nonce
  {
    if txs != [] {
      MaxNonceMeaning(txs[..|txs| - 1], sender, nonce);
    }
  }

  lemma AllFreshAppend(txs: seq<Transaction>, tx: Transaction)
    requires AllFresh(txs) && tx.body.nonce > MaxNonce(txs, tx.body.sender)
    ensures AllFresh(txs + [tx])
  {
    var all := txs + [tx];
    MaxNonceMeaning(txs, tx.body.sender, tx.body.nonce);
    forall i | 0 <= i < |all| ensures FreshNonce(all, i) {
      if i < |txs| {
        assert FreshNonce(txs, i);
      }
    }
  }

  // ---------------------------------------------------------------------------------------------
  // Every call keeps the invariant
  // ---------------------------------------------------------------------------------------------

  lemma SoundAppend(l: Ledger, b: Block, validators: set<Key>, quorum: int)
    requires SoundBlocks(l.blocks, l.validators, quorum) && l.validators <= validators
    requires SoundBlock(b, validators, quorum)
    ensures SoundBlocks(l.blocks + [b], validators, quorum)
  {
    var all := l.blocks + [b];
    forall k | 0 <= k < |all| ensures SoundBlock(all[k], validators, quorum) {
      if k < |l.blocks| {
        assert SoundBlock(l.blocks[k], l.validators, quorum);
      }
    }
  }

  lemma LinkedAppend(blocks: seq<Block>, b: Block)
    requires Linked(blocks) && b.height == |blocks| && b.previousHash == HashBefore(blocks, |blocks|)
    ensures Linked(blocks + [b])
  {
    var all := blocks + [b];
    forall k | 0 <= k < |all| ensures LinkedAt(all, k) {
      if k < |blocks| {
        assert LinkedAt(blocks, k);
      }
    }
  }

  lemma CacheAppend(l: Ledger, b: Block, validators: set<Key>, state: Credits)
    requires CacheCurrent(l) && AllFinalized(l.blocks)
    requires ReplayAll(TxsOf(l.blocks) + b.transactions) == Ok(state)
    ensures CacheCurrent(Appended(l, b, validators, [], state))
    ensures Rows(Appended(l, b, validators, [], state)) == TxsOf(l.blocks) + b.transactions
  {
    TxsAppend(l.blocks, b);
    AllFinalizedTxs(l.blocks);
    assert FinalizedTxs(l.blocks) + [] == FinalizedTxs(l.blocks);
    assert TxsOf(l.blocks + [b]) + [] == TxsOf(l.blocks + [b]);
  }

  /** Appending a sound, linked block whose state commits to its replay keeps the invariant. */
  lemma AppendKeeps(cfg: Config, l: Ledger, b: Block, validators: set<Key>, state: Credits)
    requires Safe(cfg, l) && AllFinalized(l.blocks) && l.validators <= validators
    requires SoundBlock(b, validators, cfg.Threshold())
    requires b.height == |l.blocks| && b.previousHash == HashBefore(l.blocks, |l.blocks|)
    requires b.stateRoot == state.StateRoot()
    requires ReplayAll(TxsOf(l.blocks) + b.transactions) == Ok(state)
    requires AllFresh(TxsOf(l.blocks) + b.transactions)
    ensures Safe(cfg, Appended(l, b, validators, [], state))
  {
    var after := Appended(l, b, validators, [], state);
    LinkedAppend(l.blocks, b);
    SoundAppend(l, b, validators, cfg.Threshold());
    RootsAppend(l.blocks, b, state);
    CacheAppend(l, b, validators, state);
    assert OnlyTipOpen(after.blocks);
  }

  lemma GenesisReplays(cfg: Config, e: Entropy)
    ensures ReplayAll([GenesisTx(cfg, e)]) == Ok(GenesisState(cfg))
    ensures AllFresh([GenesisTx(cfg, e)])
  {
    ReplayOne(GenesisTx(cfg, e));
    assert NO_CREDITS.nonces[cfg.relay := 0] == map[cfg.relay := 0];
    assert Postings(GenesisTx(cfg, e).body) == Ok([]);
  }

  lemma InitializeKeeps(cfg: Config, l: Ledger, e: Entropy, after: Ledger)
    requires Safe(cfg, l) && Initialize(cfg, l, e) == Ok(after)
    ensures Safe(cfg, after) && after.blocks != []
  {
    if l.blocks == [] {
      var keys, b := l.validators + cfg.OwnKeys(), GenesisBlock(cfg, e);
      GenesisSound(cfg, e, keys);
      GenesisReplays(cfg, e);
      assert TxsOf(l.blocks) + b.transactions == [GenesisTx(cfg, e)];
      AppendKeeps(cfg, l, b, keys, GenesisState(cfg));
    }
  }

  lemma SealKeeps(cfg: Config, l: Ledger, now: string, after: Sealing)
    requires Safe(cfg, l) && Seal(cfg, l, now) == Ok(after)
    ensures Safe(cfg, after.ledger)
  {
    if l.pending != [] {
      var n := |l.blocks| - 1;
      var keys := l.validators + cfg.OwnKeys();
      AllFinalizedTxs(l.blocks);
      var state := ReplayAll(FinalizedTxs(l.blocks) + l.pending).value;
      NextBlockSound(cfg, l.blocks[n], now, l.pending, state, keys);
      var b := NextBlock(cfg, l.blocks[n], now, l.pending, state);
      assert LinkedAt(l.blocks, n);
      AppendKeeps(cfg, l, b, keys, state);
    }
  }

  lemma AddPendingKeeps(cfg: Config, l: Ledger, tx: Transaction)
    requires Safe(cfg, l) && l.blocks != [] && tx.body.nonce > MaxNonce(Rows(l), tx.body.sender)
    ensures Safe(cfg, l.(pending := l.pending + [tx]))
  {
    AllFreshAppend(Rows(l), tx);
    assert Rows(l.(pending := l.pending + [tx])) == Rows(l) + [tx];
  }

  lemma SubmitKeeps(cfg: Config, l: Ledger, tx: Transaction, requireSignature: bool, autoSeal: bool,
                    now: string, after: Sealing)
    requires Safe(cfg, l) && l.blocks != []
    requires Submit(cfg, l, tx, requireSignature, autoSeal, now) == Ok(after)
    ensures Safe(cfg, after.ledger)
  {
    AddPendingKeeps(cfg, l, tx);
    if autoSeal {
      SealKeeps(cfg, l.(pending := l.pending + [tx]), now, after);
    }
  }

  /** Replacing the open tip by itself with one more approval keeps everything but the cache. */
  lemma ReplaceTip(cfg: Config, l: Ledger, k: nat, b: Block)
    requires Safe(cfg, l) && k == |l.blocks| - 1
    requires b == l.blocks[k].(approvals := b.approvals, finalized := b.finalized)
    requires ApprovedAsMarked(b, l.validators, cfg.Threshold())
    ensures var blocks := l.blocks[k := b];
            && Linked(blocks) && OnlyTipOpen(blocks)
            && SoundBlocks(blocks, l.validators, cfg.Threshold())
            && RootsCommit(blocks) && TxsOf(blocks) == TxsOf(l.blocks)
            && blocks[..k] == l.blocks[..k]
  {
    RootsReplace(l.blocks, k, b);
    var blocks := l.blocks[k := b];
    assert SoundBlock(l.blocks[k], l.validators, cfg.Threshold());
    assert SoundBlock(b, l.validators, cfg.Threshold());
    forall i | 0 <= i < |blocks| ensures LinkedAt(blocks, i) {
      assert LinkedAt(l.blocks, i);
    }
    forall i | 0 <= i < |blocks| ensures SoundBlock(blocks[i], l.validators, cfg.Threshold()) {
      assert SoundBlock(l.blocks[i], l.validators, cfg.Threshold());
    }
  }

  /** One more good approval leaves an open block approved as it is then marked. */
  lemma OneMoreApproval(cfg: Config, tip: Block, a: Approval, keys: set<Key>, b: Block)
    requires SoundBlock(tip, keys, cfg.Threshold()) && !tip.finalized
    requires GoodApproval(a, tip.hash, keys)
    requires b == Closed(cfg, tip, tip.approvals + [a])
    requires b.finalized ==> ValidBlock(b, keys, None, None, cfg.Threshold(), true)
    ensures ApprovedAsMarked(b, keys, cfg.Threshold())
  {
    ApproversAppend(tip.approvals, a);
    ProposerAlreadyApproved(b);
  }

  /** What an accepted approval writes: block k with the approval added, and the table if that
      finalizes it. */
  ghost predicate ApprovalWritten(cfg: Config, l: Ledger, a: Approval, k: nat, after: Ledger)
    requires k < |l.blocks|
  {
    var b := Closed(cfg, l.blocks[k], l.blocks[k].approvals + [a]);
    && !l.blocks[k].finalized && GoodApproval(a, l.blocks[k].hash, l.validators)
    && after.blocks == l.blocks[k := if b.finalized then WithProposerApproval(b) else b]
    && after == l.(blocks := after.blocks, balances := after.balances)
    && if b.finalized
       then ValidBlock(b, l.validators, None, None, cfg.Threshold(), true)
            && var r := ReplayAll(FinalizedTxs(l.blocks) + b.transactions);
               r.Ok? && after.balances == r.value.ToList()
       else after.balances == l.balances
  }

  lemma ApproveWrites(cfg: Config, l: Ledger, hash: Digest, key: Key, signature: Signature, after: Ledger)
    requires Approve(cfg, l, hash, key, signature) == Ok(after)
    ensures var k := FindBlock(l.blocks, hash);
            k < |l.blocks| && ApprovalWritten(cfg, l, Approval(key, signature), k, after)
  {
  }

  lemma CacheReplace(cfg: Config, l: Ledger, a: Approval, after: Ledger)
    requires CacheCurrent(l) && l.blocks != [] && OnlyTipOpen(l.blocks)
    requires ApprovalWritten(cfg, l, a, |l.blocks| - 1, after)
    ensures CacheCurrent(after)
  {
    var k := |l.blocks| - 1;
    var b := after.blocks[k];
    assert after.blocks == l.blocks[..k] + [b];
    assert l.blocks == l.blocks[..k] + [l.blocks[k]];
    TxsAppend(l.blocks[..k], b);
    TxsAppend(l.blocks[..k], l.blocks[k]);
    assert FinalizedTxs(l.blocks[..k]) + [] == FinalizedTxs(l.blocks[..k]);
  }

  lemma ApprovalMarks(cfg: Config, l: Ledger, a: Approval, k: nat, after: Ledger, b: Block)
    requires SoundBlocks(l.blocks, l.validators, cfg.Threshold())
    requires k < |l.blocks| && ApprovalWritten(cfg, l, a, k, after) && b == after.blocks[k]
    ensures b == l.blocks[k].(approvals := b.approvals, finalized := b.finalized)
    ensures ApprovedAsMarked(b, l.validators, cfg.Threshold())
    ensures after == l.(blocks := l.blocks[k := b], balances := after.balances)
    ensures !l.blocks[k].finalized
  {
    assert SoundBlock(l.blocks[k], l.validators, cfg.Threshold());
    ApproversAppend(l.blocks[k].approvals, a);
    var closed := Closed(cfg, l.blocks[k], l.blocks[k].approvals + [a]);
    assert ApprovedBy(closed, closed.validator);
    assert b == closed;
    OneMoreApproval(cfg, l.blocks[k], a, l.validators, b);
  }

  lemma ApprovalKeeps(cfg: Config, l: Ledger, a: Approval, k: nat, after: Ledger)
    requires Safe(cfg, l) && k < |l.blocks| && ApprovalWritten(cfg, l, a, k, after)
    ensures Safe(cfg, after)
  {
    var b := after.blocks[k];
    ApprovalMarks(cfg, l, a, k, after, b);
    assert k == |l.blocks| - 1;
    assert CacheCurrent(after) by {
      CacheReplace(cfg, l, a, after);
    }
    ReplaceTip(cfg, l, k, b);
  }

  lemma RegisterKeeps(cfg: Config, l: Ledger, validator: Key)
    requires Safe(cfg, l)
    ensures Safe(cfg, l.(validators := l.validators + {validator}))
  {
    var keys := l.validators + {validator};
    forall k | 0 <= k < |l.blocks| ensures SoundBlock(l.blocks[k], keys, cfg.Threshold()) {
      assert SoundBlock(l.blocks[k], l.validators, cfg.Threshold());
      if l.blocks[k].finalized {
        QuorateGrows(l.blocks[k], l.validators, keys, cfg.Threshold());
      }
    }
  }

  /** Rebuilding the cache of a safe ledger changes nothing. */
  lemma RebuildIsIdentity(cfg: Config, l: Ledger)
    requires Safe(cfg, l)
    ensures Rebuild(l) == Ok(l)
  {
  }

  lemma ActKeeps(cfg: Config, l: Ledger, call: Call, now: string)
    requires Safe(cfg, l) && (call.CallRebuild? || l.blocks != [])
    ensures Safe(cfg, Act(cfg, l, call, now))
  {
    match call
    case CallStart =>
    case CallSubmit(tx, requireSignature, autoSeal) =>
      var r := Submit(cfg, l, tx, requireSignature, autoSeal, now);
      if r.Ok? {
        SubmitKeeps(cfg, l, tx, requireSignature, autoSeal, now, r.value);
      }
    case CallSeal =>
      var r := Seal(cfg, l, now);
      if r.Ok? {
        SealKeeps(cfg, l, now, r.value);
      }
    case CallApprove(hash, key, signature) =>
      var r := Approve(cfg, l, hash, key, signature);
      if r.Ok? {
        ApproveWrites(cfg, l, hash, key, signature, r.value);
        ApprovalKeeps(cfg, l, Approval(key, signature), FindBlock(l.blocks, hash), r.value);
      }
    case CallRegister(validator) =>
      RegisterKeeps(cfg, l, validator);
    case CallRebuild =>
      RebuildIsIdentity(cfg, l);
  }

  lemma AfterKeeps(cfg: Config, l: Ledger, call: Call, e: Entropy)
    requires Safe(cfg, l)
    ensures Safe(cfg, After(cfg, l, call, e))
  {
    if call.CallRebuild? {
      ActKeeps(cfg, l, call, e.now);
    } else {
      var started := Initialize(cfg, l, e);
      if started.Ok? {
        InitializeKeeps(cfg, l, e, started.value);
        ActKeeps(cfg, started.value, call, e.now);
      }
    }
  }

  lemma EmptySafe(cfg: Config)
    ensures Safe(cfg, EMPTY_LEDGER)
  {
    assert ReplayAll([]) == Ok(NO_CREDITS);
  }

  lemma {:induction false} RunKeeps(cfg: Config, ledgers: seq<Ledger>, trace: Trace, k: nat)
    requires IsRun(cfg, ledgers, trace) && Safe(cfg, ledgers[0]) && k <= |trace|
    ensures Safe(cfg, ledgers[k])
  {
    if k > 0 {
      RunKeeps(cfg, ledgers, trace, k - 1);
      CallKeepsAt(cfg, ledgers, trace, k - 1);
    }
  }

  lemma CallKeepsAt(cfg: Config, ledgers: seq<Ledger>, trace: Trace, k: nat)
    requires IsRun(cfg, ledgers, trace) && k < |trace| && Safe(cfg, ledgers[k])
    ensures Safe(cfg, ledgers[k + 1])
  {
    AfterKeeps(cfg, ledgers[k], trace[k].0, trace[k].1);
    assert CallAt(cfg, ledgers, trace, k);
  }

  /** Every reachable ledger is safe. */
  lemma ReachableIsSafe(cfg: Config, l: Ledger)
    requires Reachable(cfg, l)
    ensures Safe(cfg, l)
  {
    var ledgers: seq<Ledger>, trace: Trace :|
      IsRun(cfg, ledgers, trace) && ledgers[0] == EMPTY_LEDGER && l == ledgers[|trace|];
    EmptySafe(cfg);
    RunKeeps(cfg, ledgers, trace, |trace|);
  }
}
