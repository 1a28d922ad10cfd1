/** What one step does to a pair of bridged chains.

    Both chains only grow: calls add transactions, blocks never disappear and finalized ones never change
    (Grows).  A mint is backed when a final burn of the other chain has the same account, the same amount
    and the receipt the mint carries; the ledgers of a pair back each other's mints and no two mints share
    a receipt (Backed, PairSafe).  A transfer is followed from the started chains to the burn (BurnForKeeps),
    from the sealed burn to its finality (BurnedStep), and from the final burn to the mint (MintForKeeps):
    at each point the pair is safe, and once the burn is final only the destination's own submission can
    still refuse.  Runs of such steps are the subject of module BridgeRuns. */
module BridgeSafety {
  import opened Hashing
  import opened Sequences
  import opened Merkle
  import opened Replay
  import opened ReplayMeaning
  import opened Blocks
  import opened Ledgers
  import opened LedgerSafety
  import opened LedgerTheorems
  import opened LightClient
  import opened Bridge

  // ---------------------------------------------------------------------------------------------
  // What calls do to the transactions of a chain
  // ---------------------------------------------------------------------------------------------

  /** The chain's transactions, finalized ones in particular, are only added to. */
  ghost predicate Grows(l: Ledger, after: Ledger, added: seq<Transaction>) {
    Rows(after) == Rows(l) + added && Extends(l.blocks, after.blocks)
  }

  lemma AppendGrows(l: Ledger, b: Block, validators: set<Key>, pending: seq<Transaction>, state: Credits,
                    added: seq<Transaction>)
    requires b.transactions + pending == l.pending + added
    ensures Grows(l, Appended(l, b, validators, pending, state), added)
  {
    TxsAppend(l.blocks, b);
    assert TxsOf(l.blocks) + b.transactions + pending == TxsOf(l.blocks) + (b.transactions + pending);
    assert Rows(l) + added == TxsOf(l.blocks) + (l.pending + added);
  }

  lemma SealGrows(cfg: Config, l: Ledger, now: string, after: Sealing)
    requires Seal(cfg, l, now) == Ok(after)
    ensures Grows(l, after.ledger, [])
    ensures after.block.Some? ==>
              after.ledger.blocks == l.blocks + [after.block.value]
              && after.block.value.transactions == l.pending
  {
    if after.block.Some? {
      var state := ReplayAll(FinalizedTxs(l.blocks) + l.pending).value;
      AppendGrows(l, after.block.value, l.validators + cfg.OwnKeys(), [], state, []);
    } else {
      assert Rows(l) + [] == Rows(l);
    }
  }

  lemma SubmitGrows(cfg: Config, l: Ledger, tx: Transaction, requireSignature: bool, autoSeal: bool,
                    now: string, after: Sealing)
    requires Submit(cfg, l, tx, requireSignature, autoSeal, now) == Ok(after)
    ensures Grows(l, after.ledger, [tx])
    ensures after.block.Some? ==>
              after.ledger.blocks == l.blocks + [after.block.value]
              && after.block.value.transactions == l.pending + [tx]
    ensures tx.body.nonce > MaxNonce(Rows(l), tx.body.sender)
  {
    var added := l.(pending := l.pending + [tx]);
    assert Rows(added) == Rows(l) + [tx];
    if autoSeal {
      SealGrows(cfg, added, now, after);
      assert Rows(after.ledger) == Rows(added) + [] == Rows(added);
    }
  }

  lemma InitializeAppends(cfg: Config, l: Ledger, e: Entropy, after: Ledger)
    requires Initialize(cfg, l, e) == Ok(after) && l.blocks == []
    ensures after == Appended(l, GenesisBlock(cfg, e), l.validators + cfg.OwnKeys(), l.pending,
                              GenesisState(cfg))
    ensures GenesisBlock(cfg, e).transactions == [GenesisTx(cfg, e)]
  {
  }

  lemma InitializeGrows(cfg: Config, l: Ledger, e: Entropy, after: Ledger)
    requires Initialize(cfg, l, e) == Ok(after) && (l.blocks == [] ==> l.pending == [])
    ensures Grows(l, after, if l.blocks == [] then [GenesisTx(cfg, e)] else [])
  {
    if l.blocks == [] {
      InitializeAppends(cfg, l, e, after);
      var genesis := GenesisBlock(cfg, e);
      AppendGrows(l, genesis, l.validators + cfg.OwnKeys(), [], GenesisState(cfg), genesis.transactions);
    } else {
      assert Rows(l) + [] == Rows(l);
    }
  }

  lemma ApproveGrows(cfg: Config, l: Ledger, hash: Digest, key: Key, signature: Signature, after: Ledger)
    requires Approve(cfg, l, hash, key, signature) == Ok(after)
    ensures Grows(l, after, [])
  {
    ApproveExtends(cfg, l, hash, key, signature);
    ApproveWrites(cfg, l, hash, key, signature, after);
    TxsOfSame(after.blocks, l.blocks);
    assert Rows(l) + [] == Rows(l);
  }

  /** The transactions a call may add: the genesis transaction and the one submitted. */
  ghost predicate AddedBy(cfg: Config, call: Call, e: Entropy, added: seq<Transaction>) {
    forall k :: 0 <= k < |added| ==>
      added[k] == GenesisTx(cfg, e) || (call.CallSubmit? && added[k] == call.tx)
  }

  lemma ActGrows(cfg: Config, l: Ledger, call: Call, now: string) returns (added: seq<Transaction>)
    ensures Grows(l, Act(cfg, l, call, now), added)
    ensures added == [] || (call.CallSubmit? && added == [call.tx])
  {
    added := [];
    assert Rows(l) + [] == Rows(l);
    match call
    case CallSubmit(tx, requireSignature, autoSeal) =>
      var r := Submit(cfg, l, tx, requireSignature, autoSeal, now);
      if r.Ok? {
        SubmitGrows(cfg, l, tx, requireSignature, autoSeal, now, r.value);
        added := [tx];
      }
    case CallSeal =>
      var r := Seal(cfg, l, now);
      if r.Ok? {
        SealGrows(cfg, l, now, r.value);
      }
    case CallApprove(hash, key, signature) =>
      var r := Approve(cfg, l, hash, key, signature);
      if r.Ok? {
        ApproveGrows(cfg, l, hash, key, signature, r.value);
      }
    case _ =>
  }

  lemma GrowsTransitive(a: Ledger, b: Ledger, c: Ledger, x: seq<Transaction>, y: seq<Transaction>)
    requires Grows(a, b, x) && Grows(b, c, y)
    ensures Grows(a, c, x + y)
  {
    ExtendsTransitive(a.blocks, b.blocks, c.blocks);
    assert Rows(a) + x + y == Rows(a) + (x + y);
  }

  lemma AddedInTwo(cfg: Config, call: Call, e: Entropy, first: seq<Transaction>, more: seq<Transaction>)
    requires first == [] || first == [GenesisTx(cfg, e)]
    requires more == [] || (call.CallSubmit? && more == [call.tx])
    ensures AddedBy(cfg, call, e, first + more)
  {
  }

  lemma StartedGrows(cfg: Config, l: Ledger, call: Call, e: Entropy, started: Ledger)
    returns (added: seq<Transaction>)
    requires l.blocks == [] ==> l.pending == []
    requires Initialize(cfg, l, e) == Ok(started)
    ensures Grows(l, Act(cfg, started, call, e.now), added) && AddedBy(cfg, call, e, added)
  {
    InitializeGrows(cfg, l, e, started);
    var more := ActGrows(cfg, started, call, e.now);
    var first := if l.blocks == [] then [GenesisTx(cfg, e)] else [];
    GrowsTransitive(l, started, Act(cfg, started, call, e.now), first, more);
    AddedInTwo(cfg, call, e, first, more);
    added := first + more;
  }

  lemma AfterGrows(cfg: Config, l: Ledger, call: Call, e: Entropy) returns (added: seq<Transaction>)
    requires l.blocks == [] ==> l.pending == []
    ensures Grows(l, After(cfg, l, call, e), added) && AddedBy(cfg, call, e, added)
  {
    var started := Initialize(cfg, l, e);
    if call.CallRebuild? {
      added := ActGrows(cfg, l, call, e.now);
    } else if started.Ok? {
      added := StartedGrows(cfg, l, call, e, started.value);
    } else {
      added := [];
      assert Rows(l) + [] == Rows(l);
    }
  }

  // ---------------------------------------------------------------------------------------------
  // Finalized transactions
  // ---------------------------------------------------------------------------------------------

  lemma {:induction false} FinalizedMember(blocks: seq<Block>, t: Transaction)
    ensures t in FinalizedTxs(blocks) <==>
            exists k :: 0 <= k < |blocks| && blocks[k].finalized && t in blocks[k].transactions
  {
    if blocks != [] {
      var n := |blocks| - 1;
      FinalizedMember(blocks[..n], t);
      if t in FinalizedTxs(blocks[..n]) {
        var k :| 0 <= k < n && blocks[..n][k].finalized && t in blocks[..n][k].transactions;
        assert blocks[k].finalized && t in blocks[k].transactions;
      }
      if k :| 0 <= k < |blocks| && blocks[k].finalized && t in blocks[k].transactions {
        if k < n {
          assert blocks[..n][k].finalized && t in blocks[..n][k].transactions;
        }
      }
    }
  }

  lemma FinalizedStays(before: seq<Block>, after: seq<Block>, t: Transaction)
    requires Extends(before, after) && t in FinalizedTxs(before)
    ensures t in FinalizedTxs(after)
  {
    FinalizedMember(before, t);
    FinalizedMember(after, t);
    var k :| 0 <= k < |before| && before[k].finalized && t in before[k].transactions;
    assert Endures(before[k], after[k]);
  }

  // ---------------------------------------------------------------------------------------------
  // Backing
  // ---------------------------------------------------------------------------------------------

  /** A mint pays out a burn of the source chain: same account, same amount, and its receipt. */
  ghost predicate PaysOut(cs: Config, burn: TxBody, mint: TxBody) {
    && burn.payload.BridgeBurn? && burn.payload.burned.Amount? && mint.payload.BridgeMint?
    && mint.payload.mintAccount == burn.payload.burnAccount
    && mint.payload.minted == burn.payload.burned
    && mint.payload.receipt ==
       Some(ReceiptId(cs, burn, burn.payload.burnAccount, burn.payload.burned.value))
  }

  ghost predicate BackedMint(cs: Config, s: Ledger, mint: TxBody) {
    exists burn :: burn in FinalizedTxs(s.blocks) && PaysOut(cs, burn.body, mint)
  }

  function IsMint(): Transaction -> bool {
    (t: Transaction) => t.body.payload.BridgeMint?
  }

  function MintReceipt(): Transaction -> Digest {
    (t: Transaction) =>
      if t.body.payload.BridgeMint? && t.body.payload.receipt.Some?
      then t.body.payload.receipt.value else ZeroHash
  }

  /** Every mint among the destination's transactions, pending ones included, is backed by a finalized
      burn of the source, and no two carry the same receipt. */
  ghost predicate Backed(cs: Config, s: Ledger, d: Ledger) {
    && (forall k :: 0 <= k < |Rows(d)| && Rows(d)[k].body.payload.BridgeMint? ==>
          BackedMint(cs, s, Rows(d)[k].body))
    && DistinctKeys(IsMint(), MintReceipt(), Rows(d))
  }

  lemma BackedMintStays(cs: Config, s: Ledger, s': Ledger, mint: TxBody)
    requires BackedMint(cs, s, mint) && Extends(s.blocks, s'.blocks)
    ensures BackedMint(cs, s', mint)
  {
    var burn :| burn in FinalizedTxs(s.blocks) && PaysOut(cs, burn.body, mint);
    FinalizedStays(s.blocks, s'.blocks, burn);
  }

  predicate MintFree(txs: seq<Transaction>) {
    forall k :: 0 <= k < |txs| ==> !txs[k].body.payload.BridgeMint?
  }

  lemma BackedGrows(cs: Config, s: Ledger, s': Ledger, d: Ledger, d': Ledger, added: seq<Transaction>)
    requires Backed(cs, s, d) && Extends(s.blocks, s'.blocks)
    requires Rows(d') == Rows(d) + added && MintFree(added)
    ensures Backed(cs, s', d')
  {
    var rows, more := Rows(d), Rows(d');
    forall k | 0 <= k < |more| && more[k].body.payload.BridgeMint?
      ensures BackedMint(cs, s', more[k].body)
    {
      assert k < |rows| && more[k] == rows[k];
      BackedMintStays(cs, s, s', rows[k].body);
    }
    forall i, k | 0 <= i < k < |more| && IsMint()(more[i]) && IsMint()(more[k])
      ensures MintReceipt()(more[i]) != MintReceipt()(more[k])
    {
      assert k < |rows| && more[k] == rows[k] && more[i] == rows[i];
    }
  }

  /** One chain growing by transactions that are not mints leaves both directions backed. */
  lemma GrowthKeepsBacked(cs: Config, s: Ledger, s': Ledger, cd: Config, d: Ledger, added: seq<Transaction>)
    requires Backed(cs, s, d) && Backed(cd, d, s) && Grows(s, s', added) && MintFree(added)
    ensures Backed(cs, s', d) && Backed(cd, d, s')
  {
    BackedGrows(cs, s, s', d, d, []);
    BackedGrows(cd, d, d, s, s', added);
  }

  lemma BackedMintAdded(cs: Config, s: Ledger, d: Ledger, d': Ledger, burn: Transaction, mint: Transaction)
    requires Backed(cs, s, d) && Rows(d') == Rows(d) + [mint]
    requires burn in FinalizedTxs(s.blocks) && PaysOut(cs, burn.body, mint.body)
    requires !MintedIn(Rows(d), mint.body.payload.receipt.value)
    ensures Backed(cs, s, d')
  {
    var rows, more := Rows(d), Rows(d');
    assert BackedMint(cs, s, mint.body);
    forall k | 0 <= k < |more| && more[k].body.payload.BridgeMint?
      ensures BackedMint(cs, s, more[k].body)
    {
      if k < |rows| {
        assert more[k] == rows[k];
      }
    }
    forall i, k | 0 <= i < k < |more| && IsMint()(more[i]) && IsMint()(more[k])
      ensures MintReceipt()(more[i]) != MintReceipt()(more[k])
    {
      if k < |rows| {
        assert more[i] == rows[i] && more[k] == rows[k];
      } else {
        assert BackedMint(cs, s, rows[i].body);
        assert rows[i].body.payload.receipt.Some?;
      }
    }
  }

  lemma FreshNotFinal(s: Ledger, burn: TxBody)
    requires OnlyTipOpen(s.blocks) && burn.nonce > MaxNonce(Rows(s), burn.sender)
    ensures forall k :: 0 <= k < |FinalizedTxs(s.blocks)| ==> FinalizedTxs(s.blocks)[k].body != burn
  {
    FinalizedPrefix(s.blocks);
    MaxNonceMeaning(Rows(s), burn.sender, burn.nonce);
    forall k | 0 <= k < |FinalizedTxs(s.blocks)| ensures FinalizedTxs(s.blocks)[k].body != burn {
      assert Rows(s)[k] == FinalizedTxs(s.blocks)[k];
    }
  }

  /** A burn that is not among the source's transactions yet has no mint. */
  lemma FreshBurnUnminted(cs: Config, s: Ledger, d: Ledger, burn: TxBody, account: Account, amount: real)
    requires Backed(cs, s, d) && OnlyTipOpen(s.blocks)
    requires burn.nonce > MaxNonce(Rows(s), burn.sender)
    ensures !MintedIn(Rows(d), ReceiptId(cs, burn, account, amount))
  {
    FreshNotFinal(s, burn);
    forall k | 0 <= k < |Rows(d)| && Rows(d)[k].body.payload.BridgeMint?
      ensures Rows(d)[k].body.payload.receipt != Some(ReceiptId(cs, burn, account, amount))
    {
      assert BackedMint(cs, s, Rows(d)[k].body);
      var earlier :| earlier in FinalizedTxs(s.blocks) && PaysOut(cs, earlier.body, Rows(d)[k].body);
      assert earlier.body != burn;
    }
  }

  // ---------------------------------------------------------------------------------------------
  // One transfer
  // ---------------------------------------------------------------------------------------------

  /** A transaction of the top block has an inclusion proof, and it passes the offline check. */
  lemma InclusionHolds(cfg: Config, l: Ledger, block: Block, tx: Transaction)
    requires Safe(cfg, l) && l.blocks != [] && block == l.blocks[|l.blocks| - 1]
    requires tx in block.transactions
    ensures var proof := InclusionProof(l, block.hash, Hash(tx));
            proof.Ok? && Included(FromBlock(block), proof.value)
  {
    TopBlockFound(cfg, l, |l.blocks| - 1);
    assert SoundBlock(block, l.validators, cfg.Threshold());
    LeafProven(block.transactions, tx);
  }

  lemma LeafProven(txs: seq<Transaction>, tx: Transaction)
    requires tx in txs
    ensures var leaves := LeafHashes(txs);
            var i := IndexOf(leaves, Hash(tx));
            i < |leaves| && ProofOf(leaves, i).root == Root(leaves) && Verifies(ProofOf(leaves, i))
  {
    var leaves := LeafHashes(txs);
    var k :| 0 <= k < |txs| && txs[k] == tx;
    assert leaves[k] == Hash(tx);
    Completeness(leaves, IndexOf(leaves, Hash(tx)));
  }

  /** The burn a transfer sealed into a final top block. */
  ghost predicate BurnDone(cs: Config, s: Ledger, o: Order, burn: Transaction, block: Block) {
    && s.blocks != [] && block == s.blocks[|s.blocks| - 1] && block.finalized
    && burn in block.transactions
    && burn.body.payload.BridgeBurn? && burn.body.payload.burnAccount == o.account
    && burn.body.payload.burned == Amount(o.amount)
  }

  lemma MintBody(cs: Config, cd: Config, d: Ledger, o: Order, burn: Transaction, block: Block, proof: Proof)
    requires burn.body.payload.BridgeBurn? && burn.body.payload.burnAccount == o.account
    requires burn.body.payload.burned == Amount(o.amount)
    ensures var mint := MintTx(cs, cd, d, o, burn, block, proof).body;
            && PaysOut(cs, burn.body, mint)
            && mint.payload.receipt == Some(ReceiptId(cs, burn.body, o.account, o.amount))
  {
  }

  /** Once the burn is final, none of the transfer's own checks rejects it: what is left is the
      destination's submission of the mint. */
  lemma MintForIsSubmit(cs: Config, s: Ledger, cd: Config, d: Ledger, o: Order, autoSeal: bool,
                        burn: Transaction, block: Block)
    requires Safe(cs, s) && OnlyTipOpen(d.blocks)
    requires BurnDone(cs, s, o, burn, block)
    requires !MintedIn(Rows(d), ReceiptId(cs, burn.body, o.account, o.amount))
    ensures InclusionProof(s, block.hash, Hash(burn)).Ok?
    ensures MintFor(cs, s, cd, d, o, autoSeal, burn, block)
         == Minting(s, d, ReceiptId(cs, burn.body, o.account, o.amount),
                    Submit(cd, d, MintTx(cs, cd, d, o, burn, block,
                                         InclusionProof(s, block.hash, Hash(burn)).value),
                           true, autoSeal, o.now))
  {
    InclusionHolds(cs, s, block, burn);
    NotMintedFinalized(d, ReceiptId(cs, burn.body, o.account, o.amount));
  }

  /** Submitting the mint of a final burn keeps the destination safe and backed. */
  lemma MintKeeps(cs: Config, s: Ledger, cd: Config, d: Ledger, burn: Transaction, mint: Transaction,
                  autoSeal: bool, now: string, minted: Sealing)
    requires Safe(cd, d) && d.blocks != [] && Backed(cs, s, d)
    requires burn in FinalizedTxs(s.blocks) && PaysOut(cs, burn.body, mint.body)
    requires !MintedIn(Rows(d), mint.body.payload.receipt.value)
    requires Submit(cd, d, mint, true, autoSeal, now) == Ok(minted)
    ensures Safe(cd, minted.ledger) && Backed(cs, s, minted.ledger)
    ensures Extends(d.blocks, minted.ledger.blocks) && Rows(minted.ledger) == Rows(d) + [mint]
  {
    SubmitKeeps(cd, d, mint, true, autoSeal, now, minted);
    SubmitGrows(cd, d, mint, true, autoSeal, now, minted);
    BackedMintAdded(cs, s, d, minted.ledger, burn, mint);
  }

  /** The result is none of the errors the transfer's checks of its own burn can raise. */
  predicate OwnChecksPass(r: Result<Digest, LedgerError>) {
    r.Err? ==> NotOwnCheck(r.error)
  }

  predicate NotOwnCheck(e: LedgerError) {
    e !in {BlockNotFound, TransactionNotInBlock, ReceiptAlreadyMinted, InclusionFailed}
  }

  ghost predicate MintAdded(cs: Config, d: Ledger, burn: Transaction, after: Ledger) {
    exists mint: Transaction :: PaysOut(cs, burn.body, mint.body) && Rows(after) == Rows(d) + [mint]
  }

  /** What the last step of a transfer, the submission of the mint, does to the destination. */
  ghost predicate MintOutcome(cs: Config, s: Ledger, cd: Config, d: Ledger, burn: Transaction,
                              receipt: Digest, out: Outcome)
  {
    && out.source == s && Safe(cd, out.dest) && Backed(cs, s, out.dest)
    && Extends(d.blocks, out.dest.blocks) && BridgeRows(d, out.dest)
    && (out.result.Err? ==> out.dest == d && OwnChecksPass(out.result))
    && (out.result.Ok? ==> out.result == Ok(receipt) && MintAdded(cs, d, burn, out.dest))
  }

  lemma MintingKeeps(cs: Config, s: Ledger, cd: Config, d: Ledger, burn: Transaction, mint: Transaction,
                     autoSeal: bool, now: string, receipt: Digest, r: Result<Sealing, LedgerError>)
    requires Safe(cd, d) && d.blocks != [] && Backed(cs, s, d)
    requires burn in FinalizedTxs(s.blocks) && PaysOut(cs, burn.body, mint.body)
    requires mint.body.payload.receipt == Some(receipt) && !MintedIn(Rows(d), receipt)
    requires r == Submit(cd, d, mint, true, autoSeal, now)
    ensures MintOutcome(cs, s, cd, d, burn, receipt, Minting(s, d, receipt, r))
  {
    var out := Minting(s, d, receipt, r);
    if r.Ok? {
      MintKeeps(cs, s, cd, d, burn, mint, autoSeal, now, r.value);
      assert BridgeOnly([mint]);
    } else {
      SubmitErrors(cd, d, mint, true, autoSeal, now);
      BridgeRowsRefl(d);
    }
  }

  lemma MintForKeeps(cs: Config, s: Ledger, cd: Config, d: Ledger, o: Order, autoSeal: bool,
                     burn: Transaction, block: Block)
    requires Safe(cs, s) && Safe(cd, d) && d.blocks != [] && Backed(cs, s, d)
    requires BurnDone(cs, s, o, burn, block)
    requires !MintedIn(Rows(d), ReceiptId(cs, burn.body, o.account, o.amount))
    ensures MintOutcome(cs, s, cd, d, burn, ReceiptId(cs, burn.body, o.account, o.amount),
                        MintFor(cs, s, cd, d, o, autoSeal, burn, block))
  {
    MintForIsSubmit(cs, s, cd, d, o, autoSeal, burn, block);
    var proof := InclusionProof(s, block.hash, Hash(burn)).value;
    var mint := MintTx(cs, cd, d, o, burn, block, proof);
    MintBody(cs, cd, d, o, burn, block, proof);
    BurnIsFinal(s, block, burn);
    MintingKeeps(cs, s, cd, d, burn, mint, autoSeal, o.now, ReceiptId(cs, burn.body, o.account, o.amount),
                 Submit(cd, d, mint, true, autoSeal, o.now));
  }

  predicate BridgeOnly(txs: seq<Transaction>) {
    forall k :: 0 <= k < |txs| ==>
      var p := txs[k].body.payload;
      p.BridgeMint? || p.BridgeBurn? || p.ValidatorRegistered?
  }

  /** The chain's transactions grow by bridge transactions only. */
  ghost predicate BridgeRows(l: Ledger, after: Ledger) {
    exists added :: Rows(after) == Rows(l) + added && BridgeOnly(added)
  }

  lemma BridgeRowsRefl(l: Ledger)
    ensures BridgeRows(l, l)
  {
    assert Rows(l) == Rows(l) + [] && BridgeOnly([]);
  }

  lemma SubmitErrors(cfg: Config, l: Ledger, tx: Transaction, requireSignature: bool, autoSeal: bool, now: string)
    requires Submit(cfg, l, tx, requireSignature, autoSeal, now).Err?
    ensures NotOwnCheck(Submit(cfg, l, tx, requireSignature, autoSeal, now).error)
  {
  }

  lemma BurnIsFinal(s: Ledger, block: Block, burn: Transaction)
    requires s.blocks != [] && block == s.blocks[|s.blocks| - 1] && block.finalized
    requires burn in block.transactions
    ensures burn in FinalizedTxs(s.blocks)
  {
    FinalizedMember(s.blocks, burn);
  }

  lemma NotMintedFinalized(d: Ledger, receipt: Digest)
    requires OnlyTipOpen(d.blocks) && !MintedIn(Rows(d), receipt)
    ensures !MintedIn(FinalizedTxs(d.blocks), receipt)
  {
    FinalizedPrefix(d.blocks);
    var done := FinalizedTxs(d.blocks);
    forall k | 0 <= k < |done| && done[k].body.payload.BridgeMint?
      ensures done[k].body.payload.receipt != Some(receipt)
    {
      assert Rows(d)[k] == done[k];
    }
  }

  /** The two ledgers of a pair of chains, each backing the other's mints. */
  ghost predicate PairSafe(ca: Config, a: Ledger, cb: Config, b: Ledger) {
    Safe(ca, a) && Safe(cb, b) && Backed(ca, a, b) && Backed(cb, b, a)
  }

  /** What a transfer does to the pair: both chains only grow, by bridge transactions. */
  ghost predicate PairStep(s: Ledger, s': Ledger, d: Ledger, d': Ledger) {
    && Extends(s.blocks, s'.blocks) && Extends(d.blocks, d'.blocks)
    && BridgeRows(s, s') && BridgeRows(d, d')
  }

  lemma PairStepRefl(s: Ledger, d: Ledger)
    ensures PairStep(s, s, d, d)
  {
    BridgeRowsRefl(s);
    BridgeRowsRefl(d);
  }

  lemma PairStepTransitive(s: Ledger, s': Ledger, s'': Ledger, d: Ledger, d': Ledger, d'': Ledger)
    requires PairStep(s, s', d, d') && PairStep(s', s'', d', d'')
    ensures PairStep(s, s'', d, d'')
  {
    ExtendsTransitive(s.blocks, s'.blocks, s''.blocks);
    ExtendsTransitive(d.blocks, d'.blocks, d''.blocks);
    BridgeRowsTransitive(s, s', s'');
    BridgeRowsTransitive(d, d', d'');
  }

  lemma BridgeRowsTransitive(l: Ledger, m: Ledger, n: Ledger)
    requires BridgeRows(l, m) && BridgeRows(m, n)
    ensures BridgeRows(l, n)
  {
    var x :| Rows(m) == Rows(l) + x && BridgeOnly(x);
    var y :| Rows(n) == Rows(m) + y && BridgeOnly(y);
    assert Rows(n) == Rows(l) + (x + y) && BridgeOnly(x + y);
  }

  /** A transfer that went through added one final burn here and the mint that pays it out there. */
  ghost predicate Moved(cs: Config, s: Ledger, d: Ledger, o: Order, out: Outcome, burn: Transaction) {
    && burn.body.payload.BridgeBurn? && burn.body.payload.burnAccount == o.account
    && burn.body.payload.burned == Amount(o.amount)
    && Rows(out.source) == Rows(s) + [burn] && burn in FinalizedTxs(out.source.blocks)
    && MintAdded(cs, d, burn, out.dest)
    && out.result == Ok(ReceiptId(cs, burn.body, o.account, o.amount))
  }

  ghost predicate Completed(cs: Config, s: Ledger, d: Ledger, o: Order, out: Outcome) {
    && OwnChecksPass(out.result)
    && (out.result.Ok? ==> exists burn: Transaction :: Moved(cs, s, d, o, out, burn))
  }

  lemma BurnForKeeps(cs: Config, s: Ledger, cd: Config, d: Ledger, o: Order, autoSeal: bool, out: Outcome)
    requires PairSafe(cs, s, cd, d) && s.blocks != [] && d.blocks != []
    requires out == BurnFor(cs, s, cd, d, o, autoSeal)
    ensures PairSafe(cs, out.source, cd, out.dest) && PairStep(s, out.source, d, out.dest)
    ensures Completed(cs, s, d, o, out)
  {
    PairStepRefl(s, d);
    var burn := BurnTx(cs, s, cd, o);
    var r := Submit(cs, s, burn, true, autoSeal, o.now);
    if r.Err? {
      SubmitErrors(cs, s, burn, true, autoSeal, o.now);
    } else if out == Burned(cs, s, cd, d, o, autoSeal, burn, r.value) {
      BurnedStep(cs, s, cd, d, o, autoSeal, burn, r.value, out);
    }
  }

  /** The source half: the burn is on the source chain, and nothing has happened on the other. */
  lemma BurnKeeps(cs: Config, s: Ledger, cd: Config, d: Ledger, autoSeal: bool, burn: Transaction,
                  now: string, sealing: Sealing)
    requires PairSafe(cs, s, cd, d) && s.blocks != [] && burn.body.payload.BridgeBurn?
    requires Submit(cs, s, burn, true, autoSeal, now) == Ok(sealing)
    ensures PairSafe(cs, sealing.ledger, cd, d) && PairStep(s, sealing.ledger, d, d)
    ensures Rows(sealing.ledger) == Rows(s) + [burn] && burn.body.nonce > MaxNonce(Rows(s), burn.body.sender)
    ensures sealing.block.Some? ==>
              sealing.ledger.blocks == s.blocks + [sealing.block.value]
              && burn in sealing.block.value.transactions
  {
    SubmitKeeps(cs, s, burn, true, autoSeal, now, sealing);
    SubmitGrows(cs, s, burn, true, autoSeal, now, sealing);
    GrowthKeepsBacked(cs, s, sealing.ledger, cd, d, [burn]);
    BridgeRowsRefl(d);
    assert BridgeOnly([burn]);
    if sealing.block.Some? {
      assert sealing.block.value.transactions[|s.pending|] == burn;
    }
  }

  lemma BurnedStep(cs: Config, s: Ledger, cd: Config, d: Ledger, o: Order, autoSeal: bool,
                   burn: Transaction, sealing: Sealing, out: Outcome)
    requires PairSafe(cs, s, cd, d) && s.blocks != [] && d.blocks != []
    requires burn.body.payload.BridgeBurn? && burn.body.payload.burnAccount == o.account
    requires burn.body.payload.burned == Amount(o.amount)
    requires Submit(cs, s, burn, true, autoSeal, o.now) == Ok(sealing)
    requires out == Burned(cs, s, cd, d, o, autoSeal, burn, sealing)
    ensures PairSafe(cs, out.source, cd, out.dest) && PairStep(s, out.source, d, out.dest)
    ensures Completed(cs, s, d, o, out)
  {
    PairStepRefl(s, d);
    if sealing.block.Some? {
      BurnKeeps(cs, s, cd, d, autoSeal, burn, o.now, sealing);
      if sealing.block.value.finalized {
        FinalBurnMints(cs, s, sealing.ledger, cd, d, o, autoSeal, burn, sealing.block.value);
        MintedStep(cs, s, sealing.ledger, cd, d, o, burn, out);
      }
    }
  }

  lemma FinalBurnMints(cs: Config, s: Ledger, s1: Ledger, cd: Config, d: Ledger, o: Order, autoSeal: bool,
                       burn: Transaction, block: Block)
    requires OnlyTipOpen(s.blocks) && burn.body.nonce > MaxNonce(Rows(s), burn.body.sender)
    requires Backed(cs, s, d) && PairSafe(cs, s1, cd, d) && d.blocks != []
    requires BurnDone(cs, s1, o, burn, block)
    ensures MintOutcome(cs, s1, cd, d, burn, ReceiptId(cs, burn.body, o.account, o.amount),
                        MintFor(cs, s1, cd, d, o, autoSeal, burn, block))
    ensures burn in FinalizedTxs(s1.blocks)
  {
    FreshBurnUnminted(cs, s, d, burn.body, o.account, o.amount);
    MintForKeeps(cs, s1, cd, d, o, autoSeal, burn, block);
    BurnIsFinal(s1, block, burn);
  }

  lemma MintedStep(cs: Config, s: Ledger, s1: Ledger, cd: Config, d: Ledger, o: Order, burn: Transaction,
                   out: Outcome)
    requires PairSafe(cs, s1, cd, d) && PairStep(s, s1, d, d)
    requires Rows(s1) == Rows(s) + [burn] && burn in FinalizedTxs(s1.blocks)
    requires burn.body.payload.BridgeBurn? && burn.body.payload.burnAccount == o.account
    requires burn.body.payload.burned == Amount(o.amount)
    requires MintOutcome(cs, s1, cd, d, burn, ReceiptId(cs, burn.body, o.account, o.amount), out)
    ensures PairSafe(cs, out.source, cd, out.dest) && PairStep(s, out.source, d, out.dest)
    ensures Completed(cs, s, d, o, out)
  {
    BackedGrows(cd, d, out.dest, s1, s1, []);
    if out.result.Ok? {
      assert Moved(cs, s, d, o, out, burn);
    }
  }

  lemma GenesisRegisters(cfg: Config, e: Entropy)
    ensures MintFree([GenesisTx(cfg, e)]) && BridgeOnly([GenesisTx(cfg, e)])
  {
  }

  /** Creating a genesis block on one chain of the pair. */
  lemma StartKeeps(cs: Config, s: Ledger, cd: Config, d: Ledger, e: Entropy, after: Ledger)
    requires PairSafe(cs, s, cd, d) && Initialize(cs, s, e) == Ok(after)
    ensures PairSafe(cs, after, cd, d) && PairStep(s, after, d, d) && after.blocks != []
  {
    InitializeKeeps(cs, s, e, after);
    var added := GenesisGrows(cs, s, e, after);
    GrowthKeepsBacked(cs, s, after, cd, d, added);
    BridgeRowsRefl(d);
  }

  lemma GenesisGrows(cfg: Config, l: Ledger, e: Entropy, after: Ledger) returns (added: seq<Transaction>)
    requires Safe(cfg, l) && Initialize(cfg, l, e) == Ok(after)
    ensures Grows(l, after, added) && MintFree(added) && BridgeRows(l, after)
  {
    added := if l.blocks == [] then [GenesisTx(cfg, e)] else [];
    InitializeGrows(cfg, l, e, after);
    GenesisRegisters(cfg, e);
    assert BridgeOnly(added);
  }

  lemma PairSwaps(ca: Config, a: Ledger, a': Ledger, cb: Config, b: Ledger, b': Ledger)
    requires PairSafe(ca, a', cb, b') && PairStep(a, a', b, b')
    ensures PairSafe(cb, b', ca, a') && PairStep(b, b', a, a')
  {
  }

  /** A transfer that went through first gave each chain its genesis block, if it had none, and then added
      one final burn to the source and the mint that pays it out to the destination. */
  ghost predicate MovedFromStart(cs: Config, s: Ledger, cd: Config, d: Ledger, o: Order, out: Outcome) {
    var s1, d1 := Initialize(cs, s, o.sourceGenesis), Initialize(cd, d, o.destGenesis);
    s1.Ok? && d1.Ok? && exists burn: Transaction :: Moved(cs, s1.value, d1.value, o, out, burn)
  }

  /** A transfer keeps both chains safe and every mint backed, and never trips over its own burn. */
  lemma TransferKeeps(cs: Config, s: Ledger, cd: Config, d: Ledger, o: Order, autoSeal: bool, out: Outcome)
    requires PairSafe(cs, s, cd, d) && out == Transfer(cs, s, cd, d, o, autoSeal)
    ensures PairSafe(cs, out.source, cd, out.dest) && PairStep(s, out.source, d, out.dest)
    ensures OwnChecksPass(out.result)
    ensures out.result.Ok? ==> MovedFromStart(cs, s, cd, d, o, out)
  {
    PairStepRefl(s, d);
    var started := Initialize(cs, s, o.sourceGenesis);
    if o.amount > 0.0 && cs.chainId != cd.chainId {
      if started.Ok? {
        StartKeeps(cs, s, cd, d, o.sourceGenesis, started.value);
        StartedTransfer(cs, s, started.value, cd, d, o, autoSeal, out);
      } else {
        InitializeErrors(cs, s, o.sourceGenesis);
      }
    }
  }

  lemma InitializeErrors(cfg: Config, l: Ledger, e: Entropy)
    requires Initialize(cfg, l, e).Err?
    ensures NotOwnCheck(Initialize(cfg, l, e).error) && l.blocks == []
  {
  }

  lemma StartedTransfer(cs: Config, s: Ledger, s1: Ledger, cd: Config, d: Ledger, o: Order, autoSeal: bool,
                        out: Outcome)
    requires PairSafe(cs, s1, cd, d) && PairStep(s, s1, d, d) && s1.blocks != []
    requires out == match Initialize(cd, d, o.destGenesis)
                    case Err(e) => Outcome(s1, d, Err(e))
                    case Ok(d1) => BurnFor(cs, s1, cd, d1, o, autoSeal)
    ensures PairSafe(cs, out.source, cd, out.dest) && PairStep(s, out.source, d, out.dest)
    ensures OwnChecksPass(out.result)
    ensures out.result.Ok? ==>
              Initialize(cd, d, o.destGenesis).Ok?
              && exists burn: Transaction ::
                   Moved(cs, s1, Initialize(cd, d, o.destGenesis).value, o, out, burn)
  {
    var r := Initialize(cd, d, o.destGenesis);
    if r.Err? {
      InitializeErrors(cd, d, o.destGenesis);
    } else {
      var d1 := r.value;
      StartKeeps(cd, d, cs, s1, o.destGenesis, d1);
      PairSwaps(cd, d, d1, cs, s1, s1);
      PairStepTransitive(s, s1, s1, d, d, d1);
      BurnForKeeps(cs, s1, cd, d1, o, autoSeal, out);
      PairStepTransitive(s, s1, out.source, d, d1, out.dest);
    }
  }

  // ---------------------------------------------------------------------------------------------
  // A mint submitted past the bridge
  // ---------------------------------------------------------------------------------------------

  /** A final burn of the other chain backs the mint, and its receipt is not minted yet. */
  ghost predicate MintAllowed(cs: Config, s: Ledger, d: Ledger, mint: TxBody) {
    BackedMint(cs, s, mint) && !MintedIn(Rows(d), mint.payload.receipt.value)
  }

  lemma AllowedIffBacked(cs: Config, s: Ledger, d: Ledger, d': Ledger, mint: Transaction)
    requires Backed(cs, s, d) && Rows(d') == Rows(d) + [mint] && mint.body.payload.BridgeMint?
    ensures Backed(cs, s, d') <==> MintAllowed(cs, s, d, mint.body)
  {
    if MintAllowed(cs, s, d, mint.body) {
      var burn :| burn in FinalizedTxs(s.blocks) && PaysOut(cs, burn.body, mint.body);
      BackedMintAdded(cs, s, d, d', burn, mint);
    }
    if Backed(cs, s, d') {
      var n := |Rows(d)|;
      assert Rows(d')[n] == mint && BackedMint(cs, s, mint.body);
      forall k | 0 <= k < n && Rows(d)[k].body.payload.BridgeMint?
        ensures Rows(d)[k].body.payload.receipt != mint.body.payload.receipt
      {
        assert Rows(d')[k] == Rows(d)[k];
        assert BackedMint(cs, s, Rows(d)[k].body);
        assert IsMint()(Rows(d')[k]) && IsMint()(Rows(d')[n]);
        assert MintReceipt()(Rows(d')[k]) != MintReceipt()(Rows(d')[n]);
      }
    }
  }

  /** The service accepts mints that anyone submits.  One that it accepts leaves the pair safe exactly when
      a final burn of the other chain backs it and its receipt is not minted yet. */
  lemma MintSubmitIff(cs: Config, s: Ledger, cd: Config, d: Ledger, mint: Transaction, requireSignature: bool,
                      autoSeal: bool, now: string, after: Sealing)
    requires PairSafe(cs, s, cd, d) && d.blocks != [] && mint.body.payload.BridgeMint?
    requires Submit(cd, d, mint, requireSignature, autoSeal, now) == Ok(after)
    ensures PairSafe(cs, s, cd, after.ledger) <==> MintAllowed(cs, s, d, mint.body)
  {
    SubmitKeeps(cd, d, mint, requireSignature, autoSeal, now, after);
    SubmitGrows(cd, d, mint, requireSignature, autoSeal, now, after);
    BackedGrows(cd, d, after.ledger, s, s, []);
    AllowedIffBacked(cs, s, d, after.ledger, mint);
  }
}
