/** What each call of the ledger service demands, writes and refuses, said of the tables themselves. */
module LedgerCalls {
  import opened Hashing
  import opened Sequences
  import opened Merkle
  import opened Replay
  import opened ReplayMeaning
  import opened CreditTables
  import opened Blocks
  import opened Ledgers
  import opened LedgerSafety
  import opened LedgerTheorems
  import opened ChainChecks
  import opened BridgeSafety
  import opened BridgeTransfers

  // ---------------------------------------------------------------------------------------------
  // Submission
  // ---------------------------------------------------------------------------------------------

  predicate Complete(tx: Transaction) {
    tx.body.id != "" && tx.body.sender != "" && tx.body.nonce >= 0
  }

  predicate SignedIfAsked(tx: Transaction, requireSignature: bool) {
    requireSignature ==> tx.signature == Signed(tx.body.sender, TxMessage(tx.body))
  }

  /** The sender has used the nonce or a larger one, in a block or waiting. */
  predicate NonceUsed(l: Ledger, tx: Transaction) {
    exists i :: 0 <= i < |Rows(l)| && Rows(l)[i].body.sender == tx.body.sender
                && Rows(l)[i].body.nonce >= tx.body.nonce
  }

  predicate IdUsed(l: Ledger, id: string) {
    exists i :: 0 <= i < |Rows(l)| && Rows(l)[i].body.id == id
  }

  lemma NonceUsedIff(l: Ledger, tx: Transaction)
    requires tx.body.nonce >= 0
    ensures tx.body.nonce <= MaxNonce(Rows(l), tx.body.sender) <==> NonceUsed(l, tx)
  {
    MaxNonceMeaning(Rows(l), tx.body.sender, tx.body.nonce);
  }

  /** A submission is refused as incomplete, unsigned, stale or repeated, in this order; otherwise it joins
      the waiting transactions and changes nothing else. */
  lemma SubmitDemands(cfg: Config, l: Ledger, tx: Transaction, requireSignature: bool, now: string)
    ensures Submit(cfg, l, tx, requireSignature, false, now) ==
            if !Complete(tx) then Err(BadTransaction)
            else if !SignedIfAsked(tx, requireSignature) then Err(BadTransactionSignature)
            else if NonceUsed(l, tx) then Err(StaleTransactionNonce)
            else if IdUsed(l, tx.body.id) then Err(DuplicateTransaction)
            else Ok(Sealing(Ledger(l.blocks, l.pending + [tx], l.validators, l.balances), None))
  {
    if Complete(tx) {
      NonceUsedIff(l, tx);
    }
  }

  /** With automatic sealing, what was accepted is sealed at once with everything else that waits. */
  lemma SubmitSeals(cfg: Config, l: Ledger, tx: Transaction, requireSignature: bool, now: string)
    ensures var added := Submit(cfg, l, tx, requireSignature, false, now);
            Submit(cfg, l, tx, requireSignature, true, now) ==
            if added.Err? then added else Seal(cfg, added.value.ledger, now)
  {
  }

  // ---------------------------------------------------------------------------------------------
  // No id occurs twice
  // ---------------------------------------------------------------------------------------------

  ghost predicate DistinctIds(txs: seq<Transaction>) {
    forall i, k :: 0 <= i < k < |txs| ==> txs[i].body.id != txs[k].body.id
  }

  lemma SubmitDistinct(cfg: Config, l: Ledger, tx: Transaction, requireSignature: bool, autoSeal: bool,
                       now: string, after: Sealing)
    requires DistinctIds(Rows(l)) && Submit(cfg, l, tx, requireSignature, autoSeal, now) == Ok(after)
    ensures DistinctIds(Rows(after.ledger))
  {
    SubmitGrows(cfg, l, tx, requireSignature, autoSeal, now, after);
    SubmitDemands(cfg, l, tx, requireSignature, now);
    assert !IdUsed(l, tx.body.id);
  }

  lemma ActDistinct(cfg: Config, l: Ledger, call: Call, now: string)
    requires DistinctIds(Rows(l))
    ensures DistinctIds(Rows(Act(cfg, l, call, now)))
  {
    if call.CallSubmit? {
      var r := Submit(cfg, l, call.tx, call.requireSignature, call.autoSeal, now);
      if r.Ok? {
        SubmitDistinct(cfg, l, call.tx, call.requireSignature, call.autoSeal, now, r.value);
      }
    } else {
      var added := ActGrows(cfg, l, call, now);
      assert Rows(l) + [] == Rows(l);
    }
  }

  lemma InitializeDistinct(cfg: Config, l: Ledger, e: Entropy, after: Ledger)
    requires DistinctIds(Rows(l)) && (l.blocks == [] ==> l.pending == [])
    requires Initialize(cfg, l, e) == Ok(after)
    ensures DistinctIds(Rows(after))
  {
    InitializeGrows(cfg, l, e, after);
    if l.blocks == [] {
      assert Rows(l) == [];
    }
  }

  lemma AfterDistinct(cfg: Config, l: Ledger, call: Call, e: Entropy)
    requires DistinctIds(Rows(l)) && (l.blocks == [] ==> l.pending == [])
    ensures DistinctIds(Rows(After(cfg, l, call, e)))
  {
    var started := Initialize(cfg, l, e);
    if call.CallRebuild? {
      ActDistinct(cfg, l, call, e.now);
    } else if started.Ok? {
      InitializeDistinct(cfg, l, e, started.value);
      ActDistinct(cfg, started.value, call, e.now);
    }
  }

  lemma {:induction false} RunDistinct(cfg: Config, ledgers: seq<Ledger>, trace: Trace, k: nat)
    requires IsRun(cfg, ledgers, trace) && ledgers[0] == EMPTY_LEDGER && k <= |trace|
    ensures DistinctIds(Rows(ledgers[k]))
  {
    if k > 0 {
      RunDistinct(cfg, ledgers, trace, k - 1);
      DistinctNext(cfg, ledgers, trace, k);
    } else {
      assert Rows(EMPTY_LEDGER) == [];
    }
  }

  lemma DistinctNext(cfg: Config, ledgers: seq<Ledger>, trace: Trace, k: nat)
    requires IsRun(cfg, ledgers, trace) && ledgers[0] == EMPTY_LEDGER && 0 < k <= |trace|
    requires DistinctIds(Rows(ledgers[k - 1]))
    ensures DistinctIds(Rows(ledgers[k]))
  {
    EmptySafe(cfg);
    RunKeeps(cfg, ledgers, trace, k - 1);
    AfterDistinct(cfg, ledgers[k - 1], trace[k - 1].0, trace[k - 1].1);
    assert CallAt(cfg, ledgers, trace, k - 1);
  }

  /** On a reachable ledger no two transactions, in blocks or waiting, have the same id. */
  lemma ReachableDistinctIds(cfg: Config, l: Ledger)
    requires Reachable(cfg, l)
    ensures DistinctIds(Rows(l))
  {
    var ledgers: seq<Ledger>, trace: Trace :|
      IsRun(cfg, ledgers, trace) && ledgers[0] == EMPTY_LEDGER && l == ledgers[|trace|];
    RunDistinct(cfg, ledgers, trace, |trace|);
  }

  // ---------------------------------------------------------------------------------------------
  // Sealing
  // ---------------------------------------------------------------------------------------------

  predicate SomeOpen(l: Ledger) {
    exists k :: 0 <= k < |l.blocks| && !l.blocks[k].finalized
  }

  /** Sealing a chain fails on an open block, then on a replay that fails, then on a transaction that is not
      signed, and makes no block when nothing waits; in all other cases it makes one. */
  lemma SealDemands(cfg: Config, l: Ledger, now: string)
    requires l.blocks != []
    ensures var r := Seal(cfg, l, now);
            if SomeOpen(l) then r == Err(AwaitingQuorum)
            else if l.pending == [] then r == Ok(Sealing(l, None))
            else if !Admissible(FinalizedTxs(l.blocks) + l.pending) then r == Err(ReplayFailed)
            else if exists i :: 0 <= i < |l.pending| && !SignedBySender(l.pending[i]) then r == Err(InvalidBlock)
            else r.Ok? && r.value.block.Some?
  {
    if !SomeOpen(l) && l.pending != [] {
      ReplayCharacterised(FinalizedTxs(l.blocks) + l.pending);
      SealOutcome(cfg, l, now);
      SignedIff(l.pending);
    }
  }

  lemma SignedIff(txs: seq<Transaction>)
    ensures ValidTransactions(txs) <==> forall i :: 0 <= i < |txs| ==> SignedBySender(txs[i])
  {
    forall i | 0 <= i < |txs| ensures ValidTransaction(txs[i], true) <==> SignedBySender(txs[i]) {
    }
  }

  /** A sealed block holds everything that waited, in order, sits on the top block, is proposed now by the
      relay and approved by exactly the chain's own keys; nothing waits any longer, and it is final exactly when
      the own keys make a quorum. */
  lemma SealWrites(cfg: Config, l: Ledger, now: string, after: Sealing)
    requires Seal(cfg, l, now) == Ok(after) && after.block.Some?
    ensures l.blocks != [] && l.pending != []
    ensures var b, tip := after.block.value, l.blocks[|l.blocks| - 1];
            && b.transactions == l.pending && b.height == tip.height + 1 && b.previousHash == tip.hash
            && b.timestamp == now && b.validator == cfg.relay
            && Approvers(b.approvals) == {cfg.relay} + Elements(cfg.extras)
            && (b.finalized <==> |{cfg.relay} + Elements(cfg.extras)| >= cfg.Threshold())
            && after.ledger.blocks == l.blocks + [b] && after.ledger.pending == []
            && after.ledger.validators == l.validators + ({cfg.relay} + Elements(cfg.extras))
            && (!b.finalized ==> after.ledger.balances == l.balances)
  {
    var tip := l.blocks[|l.blocks| - 1];
    var state := ReplayAll(FinalizedTxs(l.blocks) + l.pending).value;
    NextApprovers(cfg, tip, now, l.pending, state);
  }

  lemma NextApprovers(cfg: Config, tip: Block, now: string, txs: seq<Transaction>, state: Credits)
    ensures var b := NextBlock(cfg, tip, now, txs, state);
            && Approvers(b.approvals) == {cfg.relay} + Elements(cfg.extras)
            && |b.approvals| == |{cfg.relay} + Elements(cfg.extras)|
  {
    var p := Proposed(cfg, tip.height + 1, tip.hash, now, txs, state.StateRoot());
    ProposedGood(cfg, tip.height + 1, tip.hash, now, txs, state.StateRoot(), cfg.OwnKeys());
    CosignNewApprovers(p.approvals, cfg.extras, p.hash);
    CosignNewGood(p.approvals, cfg.extras, p.hash, cfg.OwnKeys());
    SignersCount(NextBlock(cfg, tip, now, txs, state).approvals);
  }

  // ---------------------------------------------------------------------------------------------
  // The first block
  // ---------------------------------------------------------------------------------------------

  /** The first call writes one block, signed by the relay and cosigned by every extra key in turn, whose only
      transaction registers the relay, and makes the chain's own keys validators. */
  lemma GenesisWrites(cfg: Config, e: Entropy, l: Ledger)
    requires Initialize(cfg, EMPTY_LEDGER, e) == Ok(l)
    ensures |l.blocks| == 1 && l.pending == [] && l.validators == {cfg.relay} + Elements(cfg.extras)
    ensures l.balances == []
    ensures var b := l.blocks[0];
            && |b.transactions| == 1 && b.timestamp == e.now && b.validator == cfg.relay
            && b.transactions[0].body == TxBody(e.id, cfg.relay, 0, e.now, ValidatorRegistered("relay"))
            && |b.approvals| == 1 + |cfg.extras| && b.approvals[0].validator == cfg.relay
            && (forall k :: 0 <= k < |cfg.extras| ==> b.approvals[1 + k].validator == cfg.extras[k])
            && (b.finalized <==> 1 + |cfg.extras| >= cfg.Threshold())
  {
    var b := GenesisBlock(cfg, e);
    CosignEachKeys([Cosignature(cfg.relay, b.hash)], cfg.extras, b.hash);
    EmptyTable(cfg);
  }

  lemma EmptyTable(cfg: Config)
    ensures GenesisState(cfg).ToList() == []
  {
  }

  // ---------------------------------------------------------------------------------------------
  // Approval, registration and rebuild
  // ---------------------------------------------------------------------------------------------

  /** The block is the first that has the hash. */
  predicate FirstWith(blocks: seq<Block>, hash: Digest, k: nat) {
    k < |blocks| && blocks[k].hash == hash && forall i :: 0 <= i < k ==> blocks[i].hash != hash
  }

  predicate HasApproved(b: Block, key: Key) {
    exists i :: 0 <= i < |b.approvals| && b.approvals[i].validator == key
  }

  /** An approval is refused for a missing or final block, an unknown validator, a bad signature or a second
      approval of the same validator, in this order. */
  lemma ApproveDemands(cfg: Config, l: Ledger, hash: Digest, key: Key, signature: Signature, k: nat)
    requires FirstWith(l.blocks, hash, k)
    ensures var r := Approve(cfg, l, hash, key, signature);
            if l.blocks[k].finalized then r == Err(AlreadyFinalized)
            else if key !in l.validators then r == Err(UnauthorizedValidator)
            else if signature != Signed(key, BlockMessage(hash)) then r == Err(BadApprovalSignature)
            else if HasApproved(l.blocks[k], key) then r == Err(AlreadyApproved)
            else r.Err? ==> r.error in {InvalidBlock, ReplayFailed} && |l.blocks[k].approvals| + 1 >= cfg.Threshold()
  {
    assert FindBlock(l.blocks, hash) == k;
    assert ApprovedBy(l.blocks[k], key) <==> HasApproved(l.blocks[k], key);
  }

  lemma ApproveMissing(cfg: Config, l: Ledger, hash: Digest, key: Key, signature: Signature)
    requires forall k :: 0 <= k < |l.blocks| ==> l.blocks[k].hash != hash
    ensures Approve(cfg, l, hash, key, signature) == Err(BlockNotFound)
  {
  }

  /** Registering adds one validator to a started chain and changes nothing else. */
  lemma RegisterWrites(cfg: Config, l: Ledger, key: Key, e: Entropy)
    requires l.blocks != []
    ensures After(cfg, l, CallRegister(key), e) == Ledger(l.blocks, l.pending, l.validators + {key}, l.balances)
    ensures CallError(cfg, l, CallRegister(key), e) == None
  {
  }

  /** Whatever the cached rows have become, a rebuild brings back the table of the final transactions: that of
      the reachable ledger the rows were lost from. */
  lemma RebuildRepairs(cfg: Config, l: Ledger, rows: seq<Row>, e: Entropy)
    requires Reachable(cfg, l)
    ensures After(cfg, l.(balances := rows), CallRebuild, e) == l
    ensures CallError(cfg, l.(balances := rows), CallRebuild, e) == None
  {
    ReachableIsSafe(cfg, l);
  }

  /** A rebuild writes the table of the final transactions, or fails and writes nothing when they do not
      replay. */
  lemma RebuildWrites(cfg: Config, l: Ledger, e: Entropy, rows: seq<Row>)
    requires TableOf(rows, FinalizedTxs(l.blocks))
    ensures After(cfg, l, CallRebuild, e) ==
            if Admissible(FinalizedTxs(l.blocks)) then Ledger(l.blocks, l.pending, l.validators, rows) else l
    ensures CallError(cfg, l, CallRebuild, e) ==
            if Admissible(FinalizedTxs(l.blocks)) then None else Some(ReplayFailed)
  {
    ReplayCharacterised(FinalizedTxs(l.blocks));
    if Admissible(FinalizedTxs(l.blocks)) {
      RootHashesTable(FinalizedTxs(l.blocks), rows);
    }
  }

  // ---------------------------------------------------------------------------------------------
  // From calls to steps
  // ---------------------------------------------------------------------------------------------

  /** A call on a started chain leaves what its step makes of the chain, and raises the step's error if it
      fails, leaving the chain as it was. */
  lemma CallsMakeSteps(cfg: Config, l: Ledger, tx: Transaction, requireSignature: bool, autoSeal: bool,
                       hash: Digest, key: Key, signature: Signature, e: Entropy)
    requires l.blocks != []
    ensures var r, call := Submit(cfg, l, tx, requireSignature, autoSeal, e.now), CallSubmit(tx, requireSignature, autoSeal);
            && After(cfg, l, call, e) == (if r.Ok? then r.value.ledger else l)
            && CallError(cfg, l, call, e) == (if r.Ok? then None else Some(r.error))
    ensures var r := Seal(cfg, l, e.now);
            && After(cfg, l, CallSeal, e) == (if r.Ok? then r.value.ledger else l)
            && CallError(cfg, l, CallSeal, e) == (if r.Ok? then None else Some(r.error))
    ensures var r, call := Approve(cfg, l, hash, key, signature), CallApprove(hash, key, signature);
            && After(cfg, l, call, e) == (if r.Ok? then r.value else l)
            && CallError(cfg, l, call, e) == (if r.Ok? then None else Some(r.error))
    ensures After(cfg, l, CallStart, e) == l && CallError(cfg, l, CallStart, e) == None
  {
  }

  /** A call on an empty chain first writes the genesis block, and does nothing more when that fails. */
  lemma CallsStart(cfg: Config, call: Call, e: Entropy)
    requires !call.CallRebuild?
    ensures var r := Initialize(cfg, EMPTY_LEDGER, e);
            && After(cfg, EMPTY_LEDGER, call, e) == (if r.Ok? then After(cfg, r.value, call, e) else EMPTY_LEDGER)
            && CallError(cfg, EMPTY_LEDGER, call, e)
               == (if r.Ok? then CallError(cfg, r.value, call, e) else Some(r.error))
  {
  }
}
