/** One chain of the compute ledger as a value, and what each service call does to it
    (compute_ledger/service.py with database/repositories/ledger_repository.py).

    A Ledger is the committed content of the tables of one chain: blocks by height, transactions
    without a block in submission order, active validators and the cached balance table.  A call
    that raises leaves the tables as they were at its last commit. */
module Ledgers {
  import opened Hashing
  import opened Sequences
  import opened Merkle
  import opened Replay
  import opened Blocks

  datatype Config = Config(chainId: string, relay: Key, extras: seq<Key>, quorumSetting: int) {
    function Threshold(): int {
      if quorumSetting < 1 then 1 else quorumSetting
    }

    function OwnKeys(): set<Key> { {relay} + Elements(extras) }
  }

  datatype Ledger = Ledger(blocks: seq<Block>, pending: seq<Transaction>, validators: set<Key>,
                           balances: seq<Row>)

  const EMPTY_LEDGER := Ledger([], [], {}, [])

  /** The clock and the fresh id a call draws. */
  datatype Entropy = Entropy(id: string, now: string)

  /** A ledger after a call, and the block the call sealed, if any. */
  datatype Sealing = Sealing(ledger: Ledger, block: Option<Block>)

  // ---------------------------------------------------------------------------------------------
  // Queries
  // ---------------------------------------------------------------------------------------------

  function TxsOf(blocks: seq<Block>): seq<Transaction> {
    if blocks == [] then [] else TxsOf(blocks[..|blocks| - 1]) + blocks[|blocks| - 1].transactions
  }

  /** Sealed transactions of finalized blocks, by height and position. */
  function FinalizedTxs(blocks: seq<Block>): seq<Transaction> {
    if blocks == [] then []
    else
      var tip := blocks[|blocks| - 1];
      FinalizedTxs(blocks[..|blocks| - 1]) + (if tip.finalized then tip.transactions else [])
  }

  predicate AllFinalized(blocks: seq<Block>) {
    forall k :: 0 <= k < |blocks| ==> blocks[k].finalized
  }

  /** Every transaction of the chain, sealed or pending. */
  function Rows(l: Ledger): seq<Transaction> {
    TxsOf(l.blocks) + l.pending
  }

  function MaxNonce(txs: seq<Transaction>, sender: Key): int {
    if txs == [] then -1
    else
      var last := txs[|txs| - 1].body;
      var before := MaxNonce(txs[..|txs| - 1], sender);
      if last.sender == sender && last.nonce > before then last.nonce else before
  }

  predicate IdTaken(txs: seq<Transaction>, id: string) {
    exists k :: 0 <= k < |txs| && txs[k].body.id == id
  }

  /** The index of the block with a hash, or the number of blocks. */
  function FindBlock(blocks: seq<Block>, hash: Digest): (k: nat)
    ensures k <= |blocks|
    ensures k < |blocks| ==> blocks[k].hash == hash
    ensures forall i :: 0 <= i < k ==> blocks[i].hash != hash
  {
    if blocks == [] then 0
    else if blocks[0].hash == hash then 0
    else
      var k := FindBlock(blocks[1..], hash);
      assert forall i :: 0 < i < 1 + k ==> blocks[i] == blocks[1..][i - 1];
      1 + k
  }

  /** The index of the first leaf equal to the given one, or the number of leaves. */
  function IndexOf(leaves: seq<Digest>, leaf: Digest): (k: nat)
    ensures k <= |leaves|
    ensures k < |leaves| ==> leaves[k] == leaf
    ensures forall i :: 0 <= i < k ==> leaves[i] != leaf
  {
    if leaves == [] || leaves[0] == leaf then 0
    else
      var k := IndexOf(leaves[1..], leaf);
      assert forall i :: 0 < i < 1 + k ==> leaves[i] == leaves[1..][i - 1];
      1 + k
  }

  // ---------------------------------------------------------------------------------------------
  // Proposing a block
  // ---------------------------------------------------------------------------------------------

  /** A block hashed and signed by the relay, carrying the relay's own approval. */
  function Proposed(cfg: Config, height: int, previous: Digest, now: string, txs: seq<Transaction>,
                    stateRoot: Digest): Block
  {
    var root := Root(LeafHashes(txs));
    var hash := HeaderHash(height, previous, now, root, stateRoot, cfg.relay);
    var signature := Sign(cfg.relay, BlockMessage(hash));
    Block(height, previous, now, txs, cfg.relay, root, stateRoot, hash, signature,
          [Approval(cfg.relay, signature)], true)
  }

  function Cosignature(key: Key, hash: Digest): Approval {
    Approval(key, Sign(key, BlockMessage(hash)))
  }

  /** Genesis is cosigned by every extra key in turn. */
  function CosignEach(approvals: seq<Approval>, extras: seq<Key>, hash: Digest): seq<Approval> {
    if extras == [] then approvals
    else CosignEach(approvals, extras[..|extras| - 1], hash)
         + [Cosignature(extras[|extras| - 1], hash)]
  }

  /** Later blocks are cosigned by the extra keys that have not approved yet. */
  function CosignNew(approvals: seq<Approval>, extras: seq<Key>, hash: Digest): seq<Approval> {
    if extras == [] then approvals
    else
      var before := CosignNew(approvals, extras[..|extras| - 1], hash);
      var key := extras[|extras| - 1];
      if key in Approvers(before) then before else before + [Cosignature(key, hash)]
  }

  function Closed(cfg: Config, b: Block, approvals: seq<Approval>): Block {
    b.(approvals := approvals, finalized := |approvals| >= cfg.Threshold())
  }

  function GenesisTx(cfg: Config, e: Entropy): Transaction {
    var body := TxBody(e.id, cfg.relay, 0, e.now, ValidatorRegistered("relay"));
    Transaction(body, Sign(cfg.relay, TxMessage(body)))
  }

  function GenesisState(cfg: Config): Credits {
    NO_CREDITS.(nonces := map[cfg.relay := 0])
  }

  function GenesisBlock(cfg: Config, e: Entropy): Block {
    var b := Proposed(cfg, 0, ZeroHash, e.now, [GenesisTx(cfg, e)], GenesisState(cfg).StateRoot());
    Closed(cfg, b, CosignEach(b.approvals, cfg.extras, b.hash))
  }

  function NextBlock(cfg: Config, tip: Block, now: string, txs: seq<Transaction>, state: Credits): Block {
    var b := Proposed(cfg, tip.height + 1, tip.hash, now, txs, state.StateRoot());
    Closed(cfg, b, CosignNew(b.approvals, cfg.extras, b.hash))
  }

  /** The checks a proposer runs on its own block. */
  predicate SelfCheck(cfg: Config, b: Block, validators: set<Key>, previous: Digest, height: int) {
    ValidBlock(b, validators, Some(previous), Some(height),
               if b.finalized then cfg.Threshold() else 1, b.finalized)
  }

  function Appended(l: Ledger, b: Block, validators: set<Key>, pending: seq<Transaction>, state: Credits): Ledger {
    Ledger(l.blocks + [b], pending, validators, if b.finalized then state.ToList() else l.balances)
  }

  // ---------------------------------------------------------------------------------------------
  // Calls
  // ---------------------------------------------------------------------------------------------

  function Initialize(cfg: Config, l: Ledger, e: Entropy): Result<Ledger, LedgerError> {
    if l.blocks != [] then Ok(l)
    else
      var validators := l.validators + cfg.OwnKeys();
      var b := GenesisBlock(cfg, e);
      if SelfCheck(cfg, b, validators, ZeroHash, 0)
      then Ok(Appended(l, b, validators, l.pending, GenesisState(cfg)))
      else Err(InvalidBlock)
  }

  /** The block of all pending transactions on top of the chain, if it passes the proposer's checks. */
  function SealBlock(cfg: Config, l: Ledger, now: string, state: Credits): Result<Sealing, LedgerError>
    requires l.blocks != []
  {
    var tip := l.blocks[|l.blocks| - 1];
    var validators := l.validators + cfg.OwnKeys();
    var b := NextBlock(cfg, tip, now, l.pending, state);
    if SelfCheck(cfg, b, validators, tip.hash, tip.height + 1)
    then Ok(Sealing(Appended(l, b, validators, [], state), Some(b)))
    else Err(InvalidBlock)
  }

  /** seal_pending on an initialized chain. */
  function Seal(cfg: Config, l: Ledger, now: string): Result<Sealing, LedgerError> {
    if !AllFinalized(l.blocks) then Err(AwaitingQuorum)
    else if l.pending == [] then Ok(Sealing(l, None))
    else if l.blocks == [] then Err(NoFinalizedTip)
    else
      match ReplayAll(FinalizedTxs(l.blocks) + l.pending)
      case Err(_) => Err(ReplayFailed)
      case Ok(state) => SealBlock(cfg, l, now, state)
  }

  /** submit_transaction on an initialized chain. */
  function Submit(cfg: Config, l: Ledger, tx: Transaction, requireSignature: bool, autoSeal: bool,
                  now: string): Result<Sealing, LedgerError>
  {
    if !ValidTransaction(tx, requireSignature) then Err(TransactionFault(tx))
    else if tx.body.nonce <= MaxNonce(Rows(l), tx.body.sender) then Err(StaleTransactionNonce)
    else if IdTaken(Rows(l), tx.body.id) then Err(DuplicateTransaction)
    else
      var added := l.(pending := l.pending + [tx]);
      if autoSeal then Seal(cfg, added, now) else Ok(Sealing(added, None))
  }

  /** The finalizing write of approve_block; validation has added a missing proposer approval. */
  function Finalize(cfg: Config, l: Ledger, k: nat, b: Block): Result<Ledger, LedgerError>
    requires k < |l.blocks|
  {
    if !ValidBlock(b, l.validators, None, None, cfg.Threshold(), true) then Err(InvalidBlock)
    else
      match ReplayAll(FinalizedTxs(l.blocks) + b.transactions)
      case Err(_) => Err(ReplayFailed)
      case Ok(state) =>
        Ok(l.(blocks := l.blocks[k := WithProposerApproval(b)], balances := state.ToList()))
  }

  /** approve_block on an initialized chain. */
  function Approve(cfg: Config, l: Ledger, hash: Digest, key: Key, signature: Signature)
    : Result<Ledger, LedgerError>
  {
    var k := FindBlock(l.blocks, hash);
    if k == |l.blocks| then Err(BlockNotFound)
    else if l.blocks[k].finalized then Err(AlreadyFinalized)
    else
      var approval := Approval(key, signature);
      if !GoodApproval(approval, hash, l.validators) then
        Err(if key !in l.validators then UnauthorizedValidator else BadApprovalSignature)
      else if ApprovedBy(l.blocks[k], key) then Err(AlreadyApproved)
      else
        var b := Closed(cfg, l.blocks[k], l.blocks[k].approvals + [approval]);
        if b.finalized then Finalize(cfg, l, k, b)
        else Ok(l.(blocks := l.blocks[k := b]))
  }

  function Rebuild(l: Ledger): Result<Ledger, LedgerError> {
    match ReplayAll(FinalizedTxs(l.blocks))
    case Err(_) => Err(ReplayFailed)
    case Ok(state) => Ok(l.(balances := state.ToList()))
  }

  // ---------------------------------------------------------------------------------------------
  // Runs
  // ---------------------------------------------------------------------------------------------

  datatype Call =
    | CallStart
    | CallSubmit(tx: Transaction, requireSignature: bool, autoSeal: bool)
    | CallSeal
    | CallApprove(hash: Digest, key: Key, signature: Signature)
    | CallRegister(validator: Key)
    | CallRebuild

  function Keep<E>(r: Result<Ledger, E>, l: Ledger): Ledger {
    match r case Ok(after) => after case Err(_) => l
  }

  function KeepSealing<E>(r: Result<Sealing, E>, l: Ledger): Ledger {
    match r case Ok(after) => after.ledger case Err(_) => l
  }

  /** A call on a chain whose genesis exists. */
  function Act(cfg: Config, l: Ledger, call: Call, now: string): Ledger {
    match call
    case CallStart => l
    case CallSubmit(tx, requireSignature, autoSeal) =>
      KeepSealing(Submit(cfg, l, tx, requireSignature, autoSeal, now), l)
    case CallSeal => KeepSealing(Seal(cfg, l, now), l)
    case CallApprove(hash, key, signature) => Keep(Approve(cfg, l, hash, key, signature), l)
    case CallRegister(validator) => l.(validators := l.validators + {validator})
    case CallRebuild => Keep(Rebuild(l), l)
  }

  /** The committed ledger after a call.  All calls but a rebuild create the genesis block first and
      do nothing more when that fails. */
  function After(cfg: Config, l: Ledger, call: Call, e: Entropy): Ledger {
    if call.CallRebuild? then Act(cfg, l, call, e.now)
    else
      match Initialize(cfg, l, e)
      case Err(_) => l
      case Ok(started) => Act(cfg, started, call, e.now)
  }

  function ErrorOf<T, E>(r: Result<T, E>): Option<E> {
    match r case Ok(_) => None case Err(e) => Some(e)
  }

  /** The error of a call on a chain whose genesis exists. */
  function ActError(cfg: Config, l: Ledger, call: Call, now: string): Option<LedgerError> {
    match call
    case CallSubmit(tx, requireSignature, autoSeal) =>
      ErrorOf(Submit(cfg, l, tx, requireSignature, autoSeal, now))
    case CallSeal => ErrorOf(Seal(cfg, l, now))
    case CallApprove(hash, key, signature) => ErrorOf(Approve(cfg, l, hash, key, signature))
    case CallRebuild => ErrorOf(Rebuild(l))
    case _ => None
  }

  /** The error a call raises, if it raises one. */
  function CallError(cfg: Config, l: Ledger, call: Call, e: Entropy): Option<LedgerError> {
    if call.CallRebuild? then ActError(cfg, l, call, e.now)
    else
      match Initialize(cfg, l, e)
      case Err(error) => Some(error)
      case Ok(started) => ActError(cfg, started, call, e.now)
  }

  type Trace = seq<(Call, Entropy)>

  /** Call k makes ledger k + 1 of ledger k. */
  ghost predicate CallAt(cfg: Config, ledgers: seq<Ledger>, trace: Trace, k: nat)
    requires k < |trace| && k + 1 < |ledgers|
  {
    ledgers[k + 1] == After(cfg, ledgers[k], trace[k].0, trace[k].1)
  }

  /** The committed ledgers before, between and after the calls of a trace. */
  ghost predicate IsRun(cfg: Config, ledgers: seq<Ledger>, trace: Trace) {
    && |ledgers| == |trace| + 1
    && forall k {:trigger CallAt(cfg, ledgers, trace, k)} :: 0 <= k < |trace| ==> CallAt(cfg, ledgers, trace, k)
  }

  /** Every trace runs from every ledger. */
  lemma {:induction false} RunExists(cfg: Config, l: Ledger, trace: Trace) returns (ledgers: seq<Ledger>)
    ensures IsRun(cfg, ledgers, trace) && ledgers[0] == l
  {
    if trace == [] {
      ledgers := [l];
    } else {
      var n := |trace| - 1;
      var before := RunExists(cfg, l, trace[..n]);
      ledgers := before + [After(cfg, before[n], trace[n].0, trace[n].1)];
      forall k | 0 <= k < |trace| ensures CallAt(cfg, ledgers, trace, k) {
        if k < n {
          assert CallAt(cfg, before, trace[..n], k);
        }
      }
    }
  }
}
