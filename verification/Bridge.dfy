/** The burn-and-mint bridge between two chains (compute_ledger/bridge.py). */
module Bridge {
  import opened Hashing
  import opened Sequences
  import opened Merkle
  import opened Replay
  import opened Blocks
  import opened Ledgers
  import opened LightClient
  import opened LedgerServices

  /** What a caller asks for, and the ids and times the transfer draws on the way. */
  datatype Order = Order(account: Account, amount: real, burnId: string, bridgeId: string, mintId: string,
                         sourceGenesis: Entropy, destGenesis: Entropy, now: string)

  /** The two committed ledgers after a transfer and its receipt, if it went through. */
  datatype Outcome = Outcome(source: Ledger, dest: Ledger, result: Result<Digest, LedgerError>)

  function CachedNet(rows: seq<Row>, account: Account): real {
    if rows == [] then 0.0
    else if rows[0].account == account then rows[0].credit - rows[0].debit
    else CachedNet(rows[1..], account)
  }

  function SignedBy(key: Key, body: TxBody): Transaction {
    Transaction(body, Sign(key, TxMessage(body)))
  }

  function NextNonce(l: Ledger, key: Key): int {
    MaxNonce(Rows(l), key) + 1
  }

  function BurnTx(cs: Config, s: Ledger, cd: Config, o: Order): Transaction {
    SignedBy(cs.relay, TxBody(o.burnId, cs.relay, NextNonce(s, cs.relay), o.now,
                              BridgeBurn(o.account, Amount(o.amount), cd.chainId, o.bridgeId)))
  }

  function ReceiptId(cs: Config, burn: TxBody, account: Account, amount: real): Digest {
    ReceiptHash(cs.chainId, TxHash(burn), account, amount)
  }

  function MintTx(cs: Config, cd: Config, d: Ledger, o: Order, burn: Transaction, block: Block, proof: Proof)
    : Transaction
  {
    SignedBy(cd.relay,
             TxBody(o.mintId, cd.relay, NextNonce(d, cd.relay), o.now,
                    BridgeMint(o.account, Amount(o.amount),
                               Some(ReceiptId(cs, burn.body, o.account, o.amount)), cs.chainId,
                               Hash(burn), block.hash, block.height, proof)))
  }

  predicate MintedIn(txs: seq<Transaction>, receipt: Digest) {
    exists k :: 0 <= k < |txs| && txs[k].body.payload.BridgeMint?
                && txs[k].body.payload.receipt == Some(receipt)
  }

  /** The inclusion proof of a transaction in a stored block. */
  function InclusionProof(l: Ledger, hash: Digest, txHash: Digest): Result<Proof, LedgerError> {
    var k := FindBlock(l.blocks, hash);
    if k == |l.blocks| then Err(BlockNotFound)
    else
      var leaves := LeafHashes(l.blocks[k].transactions);
      var index := IndexOf(leaves, txHash);
      if index == |leaves| then Err(TransactionNotInBlock) else Ok(ProofOf(leaves, index))
  }

  function Minting(s: Ledger, d: Ledger, receipt: Digest, r: Result<Sealing, LedgerError>): Outcome {
    match r
    case Err(e) => Outcome(s, d, Err(e))
    case Ok(minted) => Outcome(s, minted.ledger, Ok(receipt))
  }

  /** From a finalized burn to the mint. */
  function MintFor(cs: Config, s: Ledger, cd: Config, d: Ledger, o: Order, autoSeal: bool,
                   burn: Transaction, block: Block): Outcome
  {
    match InclusionProof(s, block.hash, Hash(burn))
    case Err(e) => Outcome(s, d, Err(e))
    case Ok(proof) =>
      var receipt := ReceiptId(cs, burn.body, o.account, o.amount);
      if MintedIn(FinalizedTxs(d.blocks), receipt) then Outcome(s, d, Err(ReceiptAlreadyMinted))
      else if !Included(FromBlock(block), proof) then Outcome(s, d, Err(InclusionFailed))
      else
        Minting(s, d, receipt,
                Submit(cd, d, MintTx(cs, cd, d, o, burn, block, proof), true, autoSeal, o.now))
  }

  /** From an accepted burn.  A burn that is sealed but not final stays on its chain; one that was not
      even sealed is rolled back. */
  function Burned(cs: Config, s: Ledger, cd: Config, d: Ledger, o: Order, autoSeal: bool,
                  burn: Transaction, sealing: Sealing): Outcome
  {
    if sealing.block.None? then Outcome(s, d, Err(BurnNotFinalized))
    else if !sealing.block.value.finalized then Outcome(sealing.ledger, d, Err(BurnNotFinalized))
    else MintFor(cs, sealing.ledger, cd, d, o, autoSeal, burn, sealing.block.value)
  }

  /** From two initialized chains. */
  function BurnFor(cs: Config, s: Ledger, cd: Config, d: Ledger, o: Order, autoSeal: bool): Outcome {
    if CachedNet(s.balances, o.account) < o.amount then Outcome(s, d, Err(InsufficientSourceBalance))
    else
      match Submit(cs, s, BurnTx(cs, s, cd, o), true, autoSeal, o.now)
      case Err(e) => Outcome(s, d, Err(e))
      case Ok(sealing) => Burned(cs, s, cd, d, o, autoSeal, BurnTx(cs, s, cd, o), sealing)
  }

  function Transfer(cs: Config, s: Ledger, cd: Config, d: Ledger, o: Order, autoSeal: bool): Outcome {
    if o.amount <= 0.0 then Outcome(s, d, Err(NonPositiveTransfer))
    else if cs.chainId == cd.chainId then Outcome(s, d, Err(SameChain))
    else
      match Initialize(cs, s, o.sourceGenesis)
      case Err(e) => Outcome(s, d, Err(e))
      case Ok(s1) =>
        match Initialize(cd, d, o.destGenesis)
        case Err(e) => Outcome(s1, d, Err(e))
        case Ok(d1) => BurnFor(cs, s1, cd, d1, o, autoSeal)
  }

  // ---------------------------------------------------------------------------------------------
  // The code
  // ---------------------------------------------------------------------------------------------

  /** Submit on a chain that has its genesis block. */
  method SubmitOn(service: LedgerService, tx: Transaction, autoSeal: bool, e: Entropy)
    returns (r: Result<Option<Block>, LedgerError>)
    requires service.blocks != []
    modifies service
    ensures r.Ok? ==>
              Submit(service.cfg, old(service.View()), tx, true, autoSeal, e.now)
              == Ok(Sealing(service.View(), r.value))
    ensures r.Err? ==>
              Submit(service.cfg, old(service.View()), tx, true, autoSeal, e.now) == Err(r.error)
              && service.View() == old(service.View())
  {
    r := service.SubmitTransaction(tx, true, autoSeal, e);
  }

  method MintOn(src: LedgerService, dst: LedgerService, o: Order, autoSeal: bool, burn: Transaction,
                block: Block)
    returns (r: Result<Digest, LedgerError>)
    requires src != dst && dst.blocks != []
    modifies dst
    ensures var out := MintFor(src.cfg, src.View(), dst.cfg, old(dst.View()), o, autoSeal, burn, block);
            && dst.View() == out.dest && src.View() == out.source
            && r == out.result
  {
    ghost var d := dst.View();
    var proof := InclusionProof(src.View(), block.hash, Hash(burn));
    if proof.Err? {
      return Err(proof.error);
    }
    var receipt := ReceiptId(src.cfg, burn.body, o.account, o.amount);
    var minted := FinalizedTxs(dst.blocks);
    for k := 0 to |minted|
      invariant dst.View() == d
      invariant forall i :: 0 <= i < k ==> !(minted[i].body.payload.BridgeMint?
                                             && minted[i].body.payload.receipt == Some(receipt))
    {
      if minted[k].body.payload.BridgeMint? && minted[k].body.payload.receipt == Some(receipt) {
        return Err(ReceiptAlreadyMinted);
      }
    }
    var included := VerifyTxInclusion(FromBlock(block), proof.value);
    if !included {
      return Err(InclusionFailed);
    }
    var tx := MintTx(src.cfg, dst.cfg, dst.View(), o, burn, block, proof.value);
    var sealed := SubmitOn(dst, tx, autoSeal, Entropy(o.mintId, o.now));
    if sealed.Err? {
      return Err(sealed.error);
    }
    return Ok(receipt);
  }

  /** From an accepted burn; an unsealed one is rolled back to the pending list before it. */
  method BurnedOn(src: LedgerService, dst: LedgerService, o: Order, autoSeal: bool, burn: Transaction,
                  before: seq<Transaction>, sealed: Option<Block>)
    returns (r: Result<Digest, LedgerError>)
    requires src != dst && dst.blocks != []
    modifies src, dst
    ensures var out := Burned(src.cfg, old(src.View()).(pending := before), dst.cfg, old(dst.View()), o,
                              autoSeal, burn, Sealing(old(src.View()), sealed));
            && dst.View() == out.dest && src.View() == out.source
            && r == out.result
  {
    if sealed.None? {
      src.pending := before;
      return Err(BurnNotFinalized);
    }
    if !sealed.value.finalized {
      return Err(BurnNotFinalized);
    }
    r := MintOn(src, dst, o, autoSeal, burn, sealed.value);
  }

  method BurnOn(src: LedgerService, dst: LedgerService, o: Order, autoSeal: bool)
    returns (r: Result<Digest, LedgerError>)
    requires src != dst && src.blocks != [] && dst.blocks != []
    modifies src, dst
    ensures var out := BurnFor(src.cfg, old(src.View()), dst.cfg, old(dst.View()), o, autoSeal);
            && dst.View() == out.dest && src.View() == out.source
            && r == out.result
  {
    if CachedNet(src.balances, o.account) < o.amount {
      return Err(InsufficientSourceBalance);
    }
    var burn := BurnTx(src.cfg, src.View(), dst.cfg, o);
    var before := src.pending;
    var sealed := SubmitOn(src, burn, autoSeal, Entropy(o.burnId, o.now));
    if sealed.Err? {
      return Err(sealed.error);
    }
    r := BurnedOn(src, dst, o, autoSeal, burn, before, sealed.value);
  }

  method TransferBetween(src: LedgerService, dst: LedgerService, o: Order, autoSeal: bool)
    returns (r: Result<Digest, LedgerError>)
    requires src != dst
    modifies src, dst
    ensures var out := Transfer(src.cfg, old(src.View()), dst.cfg, old(dst.View()), o, autoSeal);
            && dst.View() == out.dest && src.View() == out.source
            && r == out.result
  {
    if o.amount <= 0.0 {
      return Err(NonPositiveTransfer);
    }
    if src.cfg.chainId == dst.cfg.chainId {
      return Err(SameChain);
    }
    var started := src.EnsureInitialized(o.sourceGenesis);
    if started.Err? {
      return Err(started.error);
    }
    started := dst.EnsureInitialized(o.destGenesis);
    if started.Err? {
      return Err(started.error);
    }
    r := BurnOn(src, dst, o, autoSeal);
  }
}
