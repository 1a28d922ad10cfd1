/** The ledger service (compute_ledger/service.py): an object over the tables of one chain. */
module LedgerServices {
  import opened Hashing
  import opened Sequences
  import opened Merkle
  import opened Replay
  import opened Blocks
  import opened Ledgers
  import opened LedgerSafety
  import opened LedgerTheorems
  import opened ChainChecks
  import opened LightClient
  import opened HeaderSync

  /** Each public method first creates the genesis block if the chain is empty, and its contract is the
      transition that module Ledgers gives for the call.  A method that fails after that leaves the tables
      as they were, which is what the session's rollback does. */
  class LedgerService {
    const cfg: Config
    var blocks: seq<Block>
    var pending: seq<Transaction>
    var validators: set<Key>
    var balances: seq<Row>

    function View(): Ledger
      reads this
    {
      Ledger(blocks, pending, validators, balances)
    }

    constructor (cfg: Config)
      ensures this.cfg == cfg && View() == EMPTY_LEDGER
    {
      this.cfg := cfg;
      blocks, pending, validators, balances := [], [], {}, [];
    }

    /** The block object of a proposal, hashed and signed by the relay. */
    method Propose(height: int, previous: Digest, now: string, txs: seq<Transaction>, stateRoot: Digest)
      returns (block: ComputeBlock)
      ensures fresh(block) && block.Row() == Proposed(cfg, height, previous, now, txs, stateRoot)
    {
      block := new ComputeBlock(height, previous, now, txs, cfg.relay, stateRoot);
      var root := MerkleRoot(LeafHashes(txs));
      block.transactionsRoot := root;
      block.hash := HeaderDigest(block.Row());
      block.validatorSignature := Sign(cfg.relay, BlockMessage(block.hash));
      block.EnsureProposerApproval();
      assert block.approvals == [Approval(cfg.relay, block.validatorSignature)];
    }

    method ProposeGenesis(e: Entropy) returns (block: ComputeBlock, state: CreditState)
      ensures fresh(block) && fresh(state)
      ensures block.Row() == GenesisBlock(cfg, e) && state.View() == GenesisState(cfg)
    {
      var genesis := GenesisTx(cfg, e);
      state := new CreditState();
      var applied := state.ApplyTransaction(genesis);
      GenesisApplies(cfg, e);
      block := Propose(0, ZeroHash, e.now, [genesis], state.View().StateRoot());
      ghost var proposed := block.Row();
      for i := 0 to |cfg.extras|
        invariant fresh(block) && fresh(state) && state.View() == GenesisState(cfg)
        invariant block.Row() ==
                  proposed.(approvals := CosignEach(proposed.approvals, cfg.extras[..i], proposed.hash))
      {
        block.approvals := block.approvals + [Cosignature(cfg.extras[i], block.hash)];
        assert cfg.extras[..i + 1][..i] == cfg.extras[..i];
      }
      assert cfg.extras[..|cfg.extras|] == cfg.extras;
      block.finalized := |block.approvals| >= cfg.Threshold();
    }

    method ProposeNext(tip: Block, now: string, txs: seq<Transaction>, state: CreditState)
      returns (block: ComputeBlock)
      ensures fresh(block) && block.Row() == NextBlock(cfg, tip, now, txs, state.View())
    {
      block := Propose(tip.height + 1, tip.hash, now, txs, state.View().StateRoot());
      ghost var proposed := block.Row();
      for i := 0 to |cfg.extras|
        invariant fresh(block)
        invariant block.Row() ==
                  proposed.(approvals := CosignNew(proposed.approvals, cfg.extras[..i], proposed.hash))
      {
        var key := cfg.extras[i];
        assert cfg.extras[..i + 1][..i] == cfg.extras[..i];
        if key !in Approvers(block.approvals) {
          block.approvals := block.approvals + [Cosignature(key, block.hash)];
        }
      }
      assert cfg.extras[..|cfg.extras|] == cfg.extras;
      block.finalized := |block.approvals| >= cfg.Threshold();
    }

    /** The proposer's own validation before anything is stored. */
    method CheckOwn(block: ComputeBlock, authorized: set<Key>, previous: Digest, height: int)
      returns (r: Result<(), LedgerError>)
      requires WithProposerApproval(block.Row()) == block.Row()
      modifies block
      ensures block.Row() == old(block.Row())
      ensures r.Ok? <==> SelfCheck(cfg, block.Row(), authorized, previous, height)
      ensures r.Err? ==> r == Err(InvalidBlock)
    {
      r := block.ValidateBlock(authorized, Some(previous), Some(height),
                               if block.finalized then cfg.Threshold() else 1, block.finalized);
      if r.Err? {
        return Err(InvalidBlock);
      }
    }

    /** Append a validated block: its transactions leave the pending list, and the balance table is
        replaced when the block is final. */
    method PersistBlock(row: Block, authorized: set<Key>, left: seq<Transaction>, state: CreditState)
      modifies this
      ensures View() == Appended(old(View()), row, authorized, left, state.View())
    {
      blocks := blocks + [row];
      pending := left;
      validators := authorized;
      if row.finalized {
        balances := state.View().ToList();
      }
    }

    method EnsureInitialized(e: Entropy) returns (r: Result<(), LedgerError>)
      modifies this
      ensures r.Ok? ==> Initialize(cfg, old(View()), e) == Ok(View())
      ensures r.Err? ==> Initialize(cfg, old(View()), e) == Err(r.error) && View() == old(View())
    {
      if blocks != [] {
        return Ok(());
      }
      var authorized := validators + cfg.OwnKeys();
      var block, state := ProposeGenesis(e);
      GenesisSelfApproved(cfg, e);
      r := CheckOwn(block, authorized, ZeroHash, 0);
      if r.Ok? {
        PersistBlock(block.Row(), authorized, pending, state);
      }
    }

    /** The state after the finalized transactions and then the pending ones. */
    method ReplayWithPending() returns (state: CreditState, r: Result<(), ReplayError>)
      ensures fresh(state)
      ensures r.Ok? ==> ReplayAll(FinalizedTxs(blocks) + pending) == Ok(state.View())
      ensures r.Err? ==> ReplayAll(FinalizedTxs(blocks) + pending).Err?
    {
      ReplaySplits(NO_CREDITS, FinalizedTxs(blocks), pending);
      state, r := ReplayTransactions(FinalizedTxs(blocks));
      if r.Ok? {
        r := state.ApplyAll(pending);
      }
    }

    /** The next block of all that waits, and the proposer's own check of it. */
    method ProposeChecked(now: string, state: CreditState) returns (row: Block, checked: Result<(), LedgerError>)
      requires blocks != []
      ensures row == NextBlock(cfg, blocks[|blocks| - 1], now, pending, state.View())
      ensures checked.Ok? <==>
              SelfCheck(cfg, row, validators + cfg.OwnKeys(), blocks[|blocks| - 1].hash,
                        blocks[|blocks| - 1].height + 1)
      ensures checked.Err? ==> checked == Err(InvalidBlock)
    {
      var tip := blocks[|blocks| - 1];
      var block := ProposeNext(tip, now, pending, state);
      NextSelfApproved(cfg, tip, now, pending, state.View());
      checked := CheckOwn(block, validators + cfg.OwnKeys(), tip.hash, tip.height + 1);
      row := block.Row();
    }

    method SealOnto(now: string, state: CreditState) returns (r: Result<Option<Block>, LedgerError>)
      requires blocks != []
      modifies this
      ensures r.Ok? ==> SealBlock(cfg, old(View()), now, old(state.View())) == Ok(Sealing(View(), r.value))
      ensures r.Err? ==>
                SealBlock(cfg, old(View()), now, old(state.View())) == Err(r.error) && View() == old(View())
    {
      var row, checked := ProposeChecked(now, state);
      if checked.Err? {
        return Err(checked.error);
      }
      PersistBlock(row, validators + cfg.OwnKeys(), [], state);
      return Ok(Some(row));
    }

    /** seal_pending once the chain is initialized. */
    method SealReady(now: string) returns (r: Result<Option<Block>, LedgerError>)
      modifies this
      ensures r.Ok? ==> Seal(cfg, old(View()), now) == Ok(Sealing(View(), r.value))
      ensures r.Err? ==> Seal(cfg, old(View()), now) == Err(r.error) && View() == old(View())
    {
      if exists k :: 0 <= k < |blocks| && !blocks[k].finalized {
        return Err(AwaitingQuorum);
      }
      if pending == [] {
        return Ok(None);
      }
      if blocks == [] {
        return Err(NoFinalizedTip);
      }
      var state, replayed := ReplayWithPending();
      if replayed.Err? {
        return Err(ReplayFailed);
      }
      r := SealOnto(now, state);
    }

    method SealPending(e: Entropy) returns (r: Result<Option<Block>, LedgerError>)
      modifies this
      ensures View() == After(cfg, old(View()), CallSeal, e)
      ensures ErrorOf(r) == CallError(cfg, old(View()), CallSeal, e)
      ensures r.Ok? && r.value.Some? ==>
                blocks != [] && blocks[|blocks| - 1] == r.value.value && pending == []
    {
      ghost var before := View();
      var started := EnsureInitialized(e);
      if started.Err? {
        return Err(started.error);
      }
      AfterStart(cfg, before, View(), CallSeal, e);
      r := SealReady(e.now);
    }

    /** submit_transaction once the chain is initialized; a failed seal takes the submission back. */
    method SubmitReady(tx: Transaction, requireSignature: bool, autoSeal: bool, now: string)
      returns (r: Result<Option<Block>, LedgerError>)
      modifies this
      ensures r.Ok? ==>
                Submit(cfg, old(View()), tx, requireSignature, autoSeal, now)
                == Ok(Sealing(View(), r.value))
      ensures r.Err? ==>
                Submit(cfg, old(View()), tx, requireSignature, autoSeal, now) == Err(r.error)
                && View() == old(View())
    {
      var valid := ValidateTransaction(tx, requireSignature);
      if valid.Err? {
        return Err(valid.error);
      }
      var rows := Rows(View());
      if tx.body.nonce <= MaxNonce(rows, tx.body.sender) {
        return Err(StaleTransactionNonce);
      }
      if IdTaken(rows, tx.body.id) {
        return Err(DuplicateTransaction);
      }
      var before := pending;
      pending := pending + [tx];
      if !autoSeal {
        return Ok(None);
      }
      r := SealReady(now);
      if r.Err? {
        pending := before;
      }
    }

    method SubmitTransaction(tx: Transaction, requireSignature: bool, autoSeal: bool, e: Entropy)
      returns (r: Result<Option<Block>, LedgerError>)
      modifies this
      ensures View() == After(cfg, old(View()), CallSubmit(tx, requireSignature, autoSeal), e)
      ensures ErrorOf(r) == CallError(cfg, old(View()), CallSubmit(tx, requireSignature, autoSeal), e)
      ensures old(blocks) != [] && r.Ok? ==>
                Submit(cfg, old(View()), tx, requireSignature, autoSeal, e.now)
                == Ok(Sealing(View(), r.value))
      ensures old(blocks) != [] && r.Err? ==>
                Submit(cfg, old(View()), tx, requireSignature, autoSeal, e.now) == Err(r.error)
                && View() == old(View())
    {
      ghost var before := View();
      var started := EnsureInitialized(e);
      if started.Err? {
        return Err(started.error);
      }
      AfterStart(cfg, before, View(), CallSubmit(tx, requireSignature, autoSeal), e);
      r := SubmitReady(tx, requireSignature, autoSeal, e.now);
    }

    /** The branch of approve_block taken when the quorum is reached. */
    method FinalizeBlock(k: nat, block: ComputeBlock) returns (r: Result<(), LedgerError>)
      requires k < |blocks|
      modifies this, block
      ensures r.Ok? ==> Finalize(cfg, old(View()), k, old(block.Row())) == Ok(View())
      ensures r.Ok? ==> block.Row() == blocks[k]
      ensures r.Err? ==>
                Finalize(cfg, old(View()), k, old(block.Row())) == Err(r.error) && View() == old(View())
    {
      var checked := block.ValidateBlock(validators, None, None, cfg.Threshold(), true);
      if checked.Err? {
        return Err(InvalidBlock);
      }
      var state, replayed := ReplayTransactions(FinalizedTxs(blocks) + block.transactions);
      if replayed.Err? {
        return Err(ReplayFailed);
      }
      blocks := blocks[k := block.Row()];
      balances := state.View().ToList();
      return Ok(());
    }

    /** approve_block once the chain is initialized. */
    method ApproveReady(hash: Digest, key: Key, signature: Signature)
      returns (r: Result<Block, LedgerError>)
      modifies this
      ensures r.Ok? ==> Approve(cfg, old(View()), hash, key, signature) == Ok(View())
      ensures r.Err? ==>
                Approve(cfg, old(View()), hash, key, signature) == Err(r.error) && View() == old(View())
      ensures r.Ok? ==> r.value.hash == hash && r.value in blocks
    {
      var k := FindBlock(blocks, hash);
      if k == |blocks| {
        return Err(BlockNotFound);
      }
      if blocks[k].finalized {
        return Err(AlreadyFinalized);
      }
      var block := new ComputeBlock.FromRow(blocks[k]);
      var added := block.AddApproval(key, signature, validators);
      if added.Err? {
        return Err(added.error);
      }
      block.finalized := |block.approvals| >= cfg.Threshold();
      assert block.Row() == Closed(cfg, blocks[k], blocks[k].approvals + [Approval(key, signature)]);
      if block.finalized {
        var written := FinalizeBlock(k, block);
        if written.Err? {
          return Err(written.error);
        }
      } else {
        blocks := blocks[k := block.Row()];
      }
      assert blocks[k] == block.Row();
      return Ok(block.Row());
    }

    method ApproveBlock(hash: Digest, key: Key, signature: Signature, e: Entropy)
      returns (r: Result<Block, LedgerError>)
      modifies this
      ensures View() == After(cfg, old(View()), CallApprove(hash, key, signature), e)
      ensures ErrorOf(r) == CallError(cfg, old(View()), CallApprove(hash, key, signature), e)
      ensures r.Ok? ==> r.value.hash == hash && r.value in blocks
    {
      ghost var before := View();
      var started := EnsureInitialized(e);
      if started.Err? {
        return Err(started.error);
      }
      AfterStart(cfg, before, View(), CallApprove(hash, key, signature), e);
      r := ApproveReady(hash, key, signature);
    }

    method RegisterValidator(key: Key, e: Entropy) returns (r: Result<(), LedgerError>)
      modifies this
      ensures View() == After(cfg, old(View()), CallRegister(key), e)
      ensures ErrorOf(r) == CallError(cfg, old(View()), CallRegister(key), e)
    {
      r := EnsureInitialized(e);
      if r.Ok? {
        validators := validators + {key};
      }
    }

    method RebuildBalances(e: Entropy) returns (r: Result<seq<Row>, LedgerError>)
      modifies this
      ensures View() == After(cfg, old(View()), CallRebuild, e)
      ensures ErrorOf(r) == CallError(cfg, old(View()), CallRebuild, e)
      ensures r.Ok? ==> r.value == balances
    {
      var state, replayed := ReplayTransactions(FinalizedTxs(blocks));
      if replayed.Err? {
        return Err(ReplayFailed);
      }
      balances := state.View().ToList();
      return Ok(balances);
    }

    /** The loop of verify_chain over the stored blocks. */
    method CheckBlocks() returns (bad: seq<nat>)
      ensures bad == BadHeights(View(), |blocks|)
    {
      bad := [];
      var previous := ZeroHash;
      for k := 0 to |blocks|
        invariant previous == HashBefore(blocks, k) && bad == BadHeights(View(), k)
      {
        var block := new ComputeBlock.FromRow(blocks[k]);
        var checked := block.ValidateBlock(validators, Some(previous), Some(k),
                                           EffectiveQuorum(blocks[k]), blocks[k].finalized);
        assert checked.Ok? <==> BlockVerifies(View(), k);
        if checked.Err? {
          bad := bad + [k];
        }
        previous := blocks[k].hash;
      }
    }

    /** The highest finalized block. */
    method FindFinalTip() returns (tip: Option<Block>)
      ensures tip.None? ==> forall i :: 0 <= i < |blocks| ==> !blocks[i].finalized
      ensures tip.Some? ==> exists k: nat :: IsFinalTip(blocks, k) && tip.value == blocks[k]
    {
      tip := None;
      ghost var top := 0;
      for k := 0 to |blocks|
        invariant tip.None? ==> forall i :: 0 <= i < k ==> !blocks[i].finalized
        invariant tip.Some? ==> top < k && blocks[top].finalized && tip.value == blocks[top]
        invariant tip.Some? ==> forall i :: top < i < k ==> !blocks[i].finalized
      {
        if blocks[k].finalized {
          tip, top := Some(blocks[k]), k;
        }
      }
      assert tip.Some? ==> IsFinalTip(blocks, top);
    }

    method VerifyChain(e: Entropy) returns (r: Result<ChainReport, LedgerError>)
      modifies this
      ensures View() == After(cfg, old(View()), CallStart, e)
      ensures ErrorOf(r) == CallError(cfg, old(View()), CallStart, e)
      ensures r.Ok? ==> Reported(View(), r.value)
    {
      var started := EnsureInitialized(e);
      if started.Err? {
        return Err(started.error);
      }
      var bad := CheckBlocks();
      var state, replayed := ReplayTransactions(FinalizedTxs(blocks));
      if replayed.Err? {
        state := new CreditState();
      }
      var tip := FindFinalTip();
      var report := ChainReport(bad, replayed.Err?, |blocks|, if tip.Some? then tip.value.height else -1,
                                if tip.Some? then Some(tip.value.hash) else None,
                                state.View().StateRoot(), state.View().ToList());
      TipIsReported(blocks, tip);
      ReportHolds(View(), report, if replayed.Ok? then state.View() else NO_CREDITS);
      return Ok(report);
    }

    /** A proof that a transaction is in a block; the proof it builds always verifies. */
    method GetInclusionProof(hash: Digest, txHash: Digest) returns (r: Result<Proof, LedgerError>)
      ensures var k := FindBlock(blocks, hash);
              if k == |blocks| then r == Err(BlockNotFound)
              else
                var leaves := LeafHashes(blocks[k].transactions);
                var index := IndexOf(leaves, txHash);
                if index == |leaves| then r == Err(TransactionNotInBlock)
                else r == Ok(ProofOf(leaves, index)) && r.value.index == index && Verifies(r.value)
    {
      var k := FindBlock(blocks, hash);
      if k == |blocks| {
        return Err(BlockNotFound);
      }
      var leaves := LeafHashes(blocks[k].transactions);
      var index := 0;
      while index < |leaves| && leaves[index] != txHash
        invariant 0 <= index <= |leaves| && IndexOf(leaves, txHash) == index + IndexOf(leaves[index..], txHash)
      {
        assert leaves[index..][1..] == leaves[index + 1..];
        index := index + 1;
      }
      if index == |leaves| {
        return Err(TransactionNotInBlock);
      }
      var proof := MerkleProof(leaves, index);
      Completeness(leaves, index);
      return Ok(proof.value);
    }

    method ExportHeadersOf(fromHeight: int, limit: int, finalizedOnly: bool, e: Entropy)
      returns (r: Result<seq<Header>, LedgerError>)
      modifies this
      ensures View() == After(cfg, old(View()), CallStart, e)
      ensures ErrorOf(r) == CallError(cfg, old(View()), CallStart, e)
      ensures r.Ok? ==> r.value == Exported(blocks, fromHeight, limit, finalizedOnly)
    {
      var started := EnsureInitialized(e);
      if started.Err? {
        return Err(started.error);
      }
      var headers := ExportHeaders(blocks, fromHeight, limit, finalizedOnly);
      return Ok(headers);
    }
  }

  // ---------------------------------------------------------------------------------------------
  // Steps of the method proofs
  // ---------------------------------------------------------------------------------------------

  lemma AfterStart(cfg: Config, before: Ledger, started: Ledger, call: Call, e: Entropy)
    requires Initialize(cfg, before, e) == Ok(started) && !call.CallRebuild?
    ensures After(cfg, before, call, e) == Act(cfg, started, call, e.now)
    ensures CallError(cfg, before, call, e) == ActError(cfg, started, call, e.now)
  {
  }

  lemma GenesisApplies(cfg: Config, e: Entropy)
    ensures Apply(NO_CREDITS, GenesisTx(cfg, e)) == Ok(GenesisState(cfg))
  {
    assert NO_CREDITS.nonces[cfg.relay := 0] == map[cfg.relay := 0];
    assert Postings(GenesisTx(cfg, e).body) == Ok([]);
  }

  lemma GenesisSelfApproved(cfg: Config, e: Entropy)
    ensures WithProposerApproval(GenesisBlock(cfg, e)) == GenesisBlock(cfg, e)
  {
    var b := Proposed(cfg, 0, ZeroHash, e.now, [GenesisTx(cfg, e)], GenesisState(cfg).StateRoot());
    CosignEachGood(b.approvals, cfg.extras, b.hash, cfg.OwnKeys());
    assert b.approvals[0].validator == cfg.relay;
    assert cfg.relay in Approvers(b.approvals);
  }

  lemma NextSelfApproved(cfg: Config, tip: Block, now: string, txs: seq<Transaction>, state: Credits)
    ensures var b := NextBlock(cfg, tip, now, txs, state); WithProposerApproval(b) == b
  {
    var b := Proposed(cfg, tip.height + 1, tip.hash, now, txs, state.StateRoot());
    CosignNewGood(b.approvals, cfg.extras, b.hash, cfg.OwnKeys());
    assert b.approvals[0].validator == cfg.relay;
    assert cfg.relay in Approvers(b.approvals);
  }
}
