/** The two transactions a transfer writes, the evidence the mint carries, and what a transfer demands. */
module BridgeEvidence {
  import opened Hashing
  import opened Sequences
  import opened Merkle
  import opened Replay
  import opened ReplayMeaning
  import opened Blocks
  import opened Ledgers
  import opened LedgerSafety
  import opened LedgerTheorems
  import opened LightClient
  import opened Bridge
  import opened BridgeSafety
  import opened BridgeChains
  import opened BridgeTransfers

  /** The nonce is one above the largest the sender has used, or zero if it has used none. */
  ghost predicate FirstUnused(l: Ledger, sender: Key, nonce: int) {
    && (forall i :: 0 <= i < |Rows(l)| && Rows(l)[i].body.sender == sender ==> Rows(l)[i].body.nonce < nonce)
    && nonce >= 0
    && (nonce > 0 ==> exists i :: 0 <= i < |Rows(l)| && Rows(l)[i].body.sender == sender
                                  && Rows(l)[i].body.nonce == nonce - 1)
  }

  lemma {:induction false} MaxNonceUsed(txs: seq<Transaction>, sender: Key)
    ensures MaxNonce(txs, sender) >= 0 ==>
              exists i :: 0 <= i < |txs| && txs[i].body.sender == sender && txs[i].body.nonce == MaxNonce(txs, sender)
  {
    if txs != [] {
      var n := |txs| - 1;
      MaxNonceUsed(txs[..n], sender);
      if MaxNonce(txs, sender) >= 0 && MaxNonce(txs, sender) == MaxNonce(txs[..n], sender) {
        var i :| 0 <= i < n && txs[..n][i].body.sender == sender
                 && txs[..n][i].body.nonce == MaxNonce(txs, sender);
        assert txs[i].body.sender == sender;
      }
    }
  }

  lemma NextIsFirstUnused(l: Ledger, sender: Key)
    ensures FirstUnused(l, sender, NextNonce(l, sender))
  {
    NextNonceFits(l, sender);
    MaxNonceMeaning(Rows(l), sender, NextNonce(l, sender));
    MaxNonceUsed(Rows(l), sender);
  }

  /** The relay's own signed transaction. */
  predicate SignedByRelay(cfg: Config, tx: Transaction) {
    tx.body.sender == cfg.relay && tx.signature == Signed(cfg.relay, TxMessage(tx.body))
  }

  /** The burn asks for what the order says. */
  ghost predicate IsBurnOf(cs: Config, s: Ledger, cd: Config, o: Order, burn: Transaction) {
    && SignedByRelay(cs, burn) && FirstUnused(s, cs.relay, burn.body.nonce)
    && burn.body.id == o.burnId && burn.body.timestamp == o.now
    && burn.body.payload == BridgeBurn(o.account, Amount(o.amount), cd.chainId, o.bridgeId)
  }

  /** The mint pays the order out and names the burn, its chain, the block that holds it, and a proof. */
  ghost predicate IsMintOf(cs: Config, cd: Config, d: Ledger, o: Order, burn: Transaction, block: Block,
                           mint: Transaction)
  {
    && SignedByRelay(cd, mint) && FirstUnused(d, cd.relay, mint.body.nonce)
    && mint.body.id == o.mintId && mint.body.timestamp == o.now
    && mint.body.payload.BridgeMint?
    && var p := mint.body.payload;
       && p.mintAccount == o.account && p.minted == Amount(o.amount)
       && p.receipt == Some(ReceiptHash(cs.chainId, TxHash(burn.body), o.account, o.amount))
       && p.sourceChain == cs.chainId && p.burnTxHash == TxHash(burn.body)
       && p.burnBlockHash == block.hash && p.burnBlockHeight == block.height
       && p.inclusion.leaf == TxHash(burn.body) && p.inclusion.root == block.transactionsRoot
       && Directed(p.inclusion.steps) && Fold(TxHash(burn.body), p.inclusion.steps) == block.transactionsRoot
  }

  lemma BurnIs(cs: Config, s: Ledger, cd: Config, o: Order)
    ensures IsBurnOf(cs, s, cd, o, BurnTx(cs, s, cd, o))
  {
    NextIsFirstUnused(s, cs.relay);
  }

  lemma MintIs(cs: Config, cd: Config, d: Ledger, o: Order, burn: Transaction, block: Block, proof: Proof)
    requires proof.leaf == Hash(burn) && Included(FromBlock(block), proof)
    ensures IsMintOf(cs, cd, d, o, burn, block, MintTx(cs, cd, d, o, burn, block, proof))
  {
    NextIsFirstUnused(d, cd.relay);
  }

  lemma ProofLeaf(l: Ledger, hash: Digest, txHash: Digest)
    ensures var r := InclusionProof(l, hash, txHash); r.Ok? ==> r.value.leaf == txHash
  {
  }

  /** The last step of a transfer that went through wrote the mint, and nothing on the source. */
  lemma MintForWrites(cs: Config, s: Ledger, cd: Config, d: Ledger, o: Order, autoSeal: bool,
                      burn: Transaction, block: Block, out: Outcome) returns (mint: Transaction)
    requires out == MintFor(cs, s, cd, d, o, autoSeal, burn, block) && out.result.Ok?
    ensures IsMintOf(cs, cd, d, o, burn, block, mint) && out.source == s
    ensures Rows(out.dest) == Rows(d) + [mint]
    ensures out.result == Ok(ReceiptHash(cs.chainId, TxHash(burn.body), o.account, o.amount))
  {
    var proof := InclusionProof(s, block.hash, Hash(burn)).value;
    ProofLeaf(s, block.hash, Hash(burn));
    MintIs(cs, cd, d, o, burn, block, proof);
    mint := MintTx(cs, cd, d, o, burn, block, proof);
    SubmitGrows(cd, d, mint, true, autoSeal, o.now, Submit(cd, d, mint, true, autoSeal, o.now).value);
  }

  /** Block k is final and holds the burn. */
  predicate HoldsFinal(l: Ledger, k: nat, burn: Transaction) {
    k < |l.blocks| && l.blocks[k].finalized && burn in l.blocks[k].transactions
  }

  lemma BurnForWrites(cs: Config, s: Ledger, cd: Config, d: Ledger, o: Order, autoSeal: bool, out: Outcome)
    returns (burn: Transaction, mint: Transaction, k: nat)
    requires out == BurnFor(cs, s, cd, d, o, autoSeal) && out.result.Ok?
    ensures IsBurnOf(cs, s, cd, o, burn) && HoldsFinal(out.source, k, burn)
    ensures IsMintOf(cs, cd, d, o, burn, out.source.blocks[k], mint)
    ensures Rows(out.source) == Rows(s) + [burn] && Rows(out.dest) == Rows(d) + [mint]
    ensures out.result == Ok(ReceiptHash(cs.chainId, TxHash(burn.body), o.account, o.amount))
  {
    burn := BurnTx(cs, s, cd, o);
    BurnIs(cs, s, cd, o);
    var sealing := Submit(cs, s, burn, true, autoSeal, o.now).value;
    SubmitGrows(cs, s, burn, true, autoSeal, o.now, sealing);
    var block := sealing.block.value;
    mint := MintForWrites(cs, sealing.ledger, cd, d, o, autoSeal, burn, block, out);
    k := |sealing.ledger.blocks| - 1;
    assert block.transactions[|s.pending|] == burn;
  }

  /** What a transfer that goes through writes: one burn and one mint, in full, each on its started chain; the
      mint's evidence is the final block that holds the burn and a proof against that block's root. */
  lemma TransferWrites(cs: Config, s: Ledger, cd: Config, d: Ledger, o: Order, autoSeal: bool, out: Outcome)
    returns (s1: Ledger, d1: Ledger, burn: Transaction, mint: Transaction, k: nat)
    requires out == Transfer(cs, s, cd, d, o, autoSeal) && out.result.Ok?
    ensures Initialize(cs, s, o.sourceGenesis) == Ok(s1) && Initialize(cd, d, o.destGenesis) == Ok(d1)
    ensures IsBurnOf(cs, s1, cd, o, burn) && HoldsFinal(out.source, k, burn)
    ensures IsMintOf(cs, cd, d1, o, burn, out.source.blocks[k], mint)
    ensures Rows(out.source) == Rows(s1) + [burn] && Rows(out.dest) == Rows(d1) + [mint]
    ensures out.result == Ok(ReceiptHash(cs.chainId, TxHash(burn.body), o.account, o.amount))
  {
    s1 := Initialize(cs, s, o.sourceGenesis).value;
    d1 := Initialize(cd, d, o.destGenesis).value;
    burn, mint, k := BurnForWrites(cs, s1, cd, d1, o, autoSeal, out);
  }

  // ---------------------------------------------------------------------------------------------
  // What a transfer demands
  // ---------------------------------------------------------------------------------------------

  /** An error of a later step. */
  predicate Later(r: Result<Digest, LedgerError>) {
    r.Err? ==> r.error !in {NonPositiveTransfer, SameChain, InsufficientSourceBalance}
  }

  lemma SubmitLater(cfg: Config, l: Ledger, tx: Transaction, autoSeal: bool, now: string)
    ensures var r := Submit(cfg, l, tx, true, autoSeal, now);
            r.Err? ==> r.error !in {NonPositiveTransfer, SameChain, InsufficientSourceBalance}
  {
  }

  lemma MintForLater(cs: Config, s: Ledger, cd: Config, d: Ledger, o: Order, autoSeal: bool,
                     burn: Transaction, block: Block)
    ensures Later(MintFor(cs, s, cd, d, o, autoSeal, burn, block).result)
  {
    var proof := InclusionProof(s, block.hash, Hash(burn));
    if proof.Ok? {
      SubmitLater(cd, d, MintTx(cs, cd, d, o, burn, block, proof.value), autoSeal, o.now);
    }
  }

  lemma BurnedLater(cs: Config, s: Ledger, cd: Config, d: Ledger, o: Order, autoSeal: bool,
                    burn: Transaction, sealing: Sealing)
    ensures Later(Burned(cs, s, cd, d, o, autoSeal, burn, sealing).result)
  {
    if sealing.block.Some? {
      MintForLater(cs, sealing.ledger, cd, d, o, autoSeal, burn, sealing.block.value);
    }
  }

  lemma NotForBalance(cs: Config, s: Ledger, cd: Config, d: Ledger, o: Order, autoSeal: bool)
    requires CachedNet(s.balances, o.account) >= o.amount
    ensures Later(BurnFor(cs, s, cd, d, o, autoSeal).result)
  {
    var burn := BurnTx(cs, s, cd, o);
    var r := Submit(cs, s, burn, true, autoSeal, o.now);
    SubmitLater(cs, s, burn, autoSeal, o.now);
    if r.Ok? {
      BurnedLater(cs, s, cd, d, o, autoSeal, burn, r.value);
    }
  }

  lemma NotForBalanceStart(cfg: Config, l: Ledger, e: Entropy)
    requires Initialize(cfg, l, e).Err?
    ensures Initialize(cfg, l, e) == Err(InvalidBlock)
  {
  }

  /** The final transactions leave the account less than is asked for. */
  ghost predicate TooLittle(s: Ledger, o: Order) {
    TotalCredit(FinalizedTxs(s.blocks), o.account) - TotalDebit(FinalizedTxs(s.blocks), o.account) < o.amount
  }

  lemma BurnForDemands(cs: Config, s: Ledger, cd: Config, d: Ledger, o: Order, autoSeal: bool)
    requires CacheCurrent(s)
    ensures var out := BurnFor(cs, s, cd, d, o, autoSeal);
            if TooLittle(s, o) then out == Outcome(s, d, Err(InsufficientSourceBalance))
            else Later(out.result)
  {
    CachedIsNet(s, o.account);
    if !TooLittle(s, o) {
      NotForBalance(cs, s, cd, d, o, autoSeal);
    }
  }

  /** A transfer refuses an amount that is not positive, a single chain, and an amount above what the final
      transactions of the started source leave the account, each with its own error, in this order, and for no
      other reason; refused for the balance it leaves both chains as started. */
  lemma TransferDemands(cs: Config, s: Ledger, cd: Config, d: Ledger, o: Order, autoSeal: bool)
    requires Safe(cs, s)
    ensures var out := Transfer(cs, s, cd, d, o, autoSeal);
            var s1, d1 := Initialize(cs, s, o.sourceGenesis), Initialize(cd, d, o.destGenesis);
            if o.amount <= 0.0 then out == Outcome(s, d, Err(NonPositiveTransfer))
            else if cs.chainId == cd.chainId then out == Outcome(s, d, Err(SameChain))
            else if s1.Err? then out == Outcome(s, d, Err(InvalidBlock))
            else if d1.Err? then out == Outcome(s1.value, d, Err(InvalidBlock))
            else if TooLittle(s1.value, o) then out == Outcome(s1.value, d1.value, Err(InsufficientSourceBalance))
            else Later(out.result)
  {
    var s1, d1 := Initialize(cs, s, o.sourceGenesis), Initialize(cd, d, o.destGenesis);
    if s1.Err? {
      NotForBalanceStart(cs, s, o.sourceGenesis);
    } else {
      InitializeKeeps(cs, s, o.sourceGenesis, s1.value);
      if d1.Err? {
        NotForBalanceStart(cd, d, o.destGenesis);
      } else {
        BurnForDemands(cs, s1.value, cd, d1.value, o, autoSeal);
      }
    }
  }

  // ---------------------------------------------------------------------------------------------
  // What a transfer leaves behind
  // ---------------------------------------------------------------------------------------------

  lemma MintForLeaves(cs: Config, s: Ledger, cd: Config, d: Ledger, o: Order, autoSeal: bool,
                      burn: Transaction, block: Block)
    ensures var out := MintFor(cs, s, cd, d, o, autoSeal, burn, block);
            out.source == s && (out.result.Err? ==> out.dest == d)
  {
  }

  /** From two started chains and a sufficient balance: a burn that is refused, or not sealed, leaves nothing; one
      that is sealed stays, final or not; and the destination changes only when the transfer goes through. */
  lemma TransferLeaves(cs: Config, s: Ledger, cd: Config, d: Ledger, o: Order, autoSeal: bool, burn: Transaction)
    requires burn == BurnTx(cs, s, cd, o) && CachedNet(s.balances, o.account) >= o.amount
    ensures var out, r := BurnFor(cs, s, cd, d, o, autoSeal), Submit(cs, s, burn, true, autoSeal, o.now);
            && (out.result.Err? ==> out.dest == d)
            && if r.Err? then out == Outcome(s, d, Err(r.error))
               else if r.value.block.None? then out == Outcome(s, d, Err(BurnNotFinalized))
               else out.source == r.value.ledger
                    && (!r.value.block.value.finalized ==> out.result == Err(BurnNotFinalized))
  {
    var r := Submit(cs, s, burn, true, autoSeal, o.now);
    if r.Ok? && r.value.block.Some? {
      MintForLeaves(cs, r.value.ledger, cd, d, o, autoSeal, burn, r.value.block.value);
    }
  }
}
