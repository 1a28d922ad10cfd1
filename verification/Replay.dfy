/** Deterministic credit replay (compute_ledger/replay.py).  What it means is proved in ReplayMeaning. */
module Replay {
  import opened Hashing
  import opened Sequences

  datatype ReplayError =
    | StaleNonce | BadNumber | NegativeSeconds | MissingAccount | NonPositiveSeconds
    | InsufficientBalance | MissingReceipt

  datatype Balance = Balance(credit: real, debit: real) {
    function Net(): real { credit - debit }
  }

  const NO_BALANCE := Balance(0.0, 0.0)

  /** The balance table in creation order, and the last nonce of each sender. */
  datatype Credits = Credits(order: seq<Account>, balances: map<Account, Balance>, nonces: map<Key, int>) {
    function Lookup(account: Account): Balance {
      if account in balances then balances[account] else NO_BALANCE
    }

    function LastNonce(sender: Key): int {
      if sender in nonces then nonces[sender] else -1
    }

    /** The table lists each account once. */
    ghost predicate WellFormed() {
      Distinct(order) && Elements(order) == balances.Keys
    }

    function GetOrCreate(account: Account): Credits {
      if account in balances then this
      else this.(order := order + [account], balances := balances[account := NO_BALANCE])
    }

    function Post(posting: Posting): Credits {
      var created := GetOrCreate(posting.account);
      var balance := Lookup(posting.account);
      created.(balances := created.balances[posting.account :=
        Balance(balance.credit + posting.credit, balance.debit + posting.debit)])
    }

    /** The table sorted by account. */
    function ToList(): seq<Row> {
      RowsFor(Sort(StringLeq, order), this)
    }

    function StateRoot(): Digest { StateHash(ToList()) }
  }

  const NO_CREDITS := Credits([], map[], map[])

  function RowsFor(accounts: seq<Account>, credits: Credits): (rows: seq<Row>)
    ensures |rows| == |accounts|
  {
    if accounts == [] then []
    else
      var balance := credits.Lookup(accounts[0]);
      [Row(accounts[0], balance.credit, balance.debit)] + RowsFor(accounts[1..], credits)
  }

  /** An addition to the two columns of one account. */
  datatype Posting = Posting(account: Account, credit: real, debit: real)

  function OrSender(account: Account, body: TxBody): Account {
    if account != "" then account else body.sender
  }

  /** The table changes a transaction asks for, in order, or why its payload is refused. */
  function Postings(body: TxBody): Result<seq<Posting>, ReplayError> {
    match body.payload
    case JobCompleted(provider, consumer, gpuSeconds) =>
      if gpuSeconds.NotANumber? then Err(BadNumber)
      else if gpuSeconds.value < 0.0 then Err(NegativeSeconds)
      else
        Ok([Posting(OrSender(provider, body), gpuSeconds.value, 0.0)]
           + if consumer != "" then [Posting(consumer, 0.0, gpuSeconds.value)] else [])
    case CreditSettled(fromAccount, toAccount, settled) =>
      if settled.NotANumber? then Err(BadNumber)
      else if settled.value < 0.0 then Err(NegativeSeconds)
      else if toAccount == "" then Err(MissingAccount)
      else
        Ok([Posting(OrSender(fromAccount, body), 0.0, settled.value),
            Posting(toAccount, settled.value, 0.0)])
    case BridgeBurn(account, burned, _, _) =>
      if burned.NotANumber? then Err(BadNumber)
      else if account == "" then Err(MissingAccount)
      else if burned.value <= 0.0 then Err(NonPositiveSeconds)
      else Ok([Posting(account, 0.0, burned.value)])
    case BridgeMint(account, minted, receipt, _, _, _, _, _) =>
      if minted.NotANumber? then Err(BadNumber)
      else if account == "" then Err(MissingAccount)
      else if minted.value <= 0.0 then Err(NonPositiveSeconds)
      else if receipt.None? then Err(MissingReceipt)
      else Ok([Posting(account, minted.value, 0.0)])
    case _ => Ok([])
  }

  function PostAll(credits: Credits, postings: seq<Posting>): Credits
    decreases |postings|
  {
    if postings == [] then credits else PostAll(credits.Post(postings[0]), postings[1..])
  }

  /** What a payload does to the table. */
  function Settle(credits: Credits, body: TxBody): Result<Credits, ReplayError> {
    match Postings(body)
    case Err(e) => Err(e)
    case Ok(postings) =>
      if body.payload.BridgeBurn?
         && credits.Lookup(body.payload.burnAccount).Net() < body.payload.burned.value
      then Err(InsufficientBalance)
      else Ok(PostAll(credits, postings))
  }

  function Apply(credits: Credits, tx: Transaction): Result<Credits, ReplayError> {
    var body := tx.body;
    if body.nonce <= credits.LastNonce(body.sender) then Err(StaleNonce)
    else Settle(credits.(nonces := credits.nonces[body.sender := body.nonce]), body)
  }

  function ReplayFrom(credits: Credits, txs: seq<Transaction>): Result<Credits, ReplayError> {
    if txs == [] then Ok(credits)
    else
      var n := |txs| - 1;
      match ReplayFrom(credits, txs[..n])
      case Err(e) => Err(e)
      case Ok(before) => Apply(before, txs[n])
  }

  function ReplayAll(txs: seq<Transaction>): Result<Credits, ReplayError> {
    ReplayFrom(NO_CREDITS, txs)
  }

  /** A failure in a prefix is the failure of the whole list. */
  lemma {:induction false} ReplayStops(credits: Credits, txs: seq<Transaction>, k: nat)
    requires k <= |txs| && ReplayFrom(credits, txs[..k]).Err?
    ensures ReplayFrom(credits, txs) == ReplayFrom(credits, txs[..k])
  {
    if k < |txs| {
      assert txs[..|txs| - 1][..k] == txs[..k];
      ReplayStops(credits, txs[..|txs| - 1], k);
    } else {
      assert txs[..k] == txs;
    }
  }

  /** Replaying in two parts is replaying the concatenation. */
  lemma {:induction false} ReplaySplits(credits: Credits, a: seq<Transaction>, b: seq<Transaction>)
    ensures ReplayFrom(credits, a + b) ==
            match ReplayFrom(credits, a) case Err(e) => Err(e) case Ok(mid) => ReplayFrom(mid, b)
  {
    if b == [] {
      assert a + b == a;
    } else {
      var n := |b| - 1;
      ReplaySplits(credits, a, b[..n]);
      assert (a + b)[..|a + b| - 1] == a + b[..n];
    }
  }

  // ---------------------------------------------------------------------------------------------
  // The code
  // ---------------------------------------------------------------------------------------------

  class CreditState {
    var order: seq<Account>
    var balances: map<Account, Balance>
    var nonces: map<Key, int>

    function View(): Credits
      reads this
    {
      Credits(order, balances, nonces)
    }

    constructor ()
      ensures View() == NO_CREDITS
    {
      order, balances, nonces := [], map[], map[];
    }

    method GetOrCreate(account: Account) returns (balance: Balance)
      modifies this
      ensures View() == old(View()).GetOrCreate(account)
      ensures balance == old(View()).Lookup(account)
    {
      if account !in balances {
        order := order + [account];
        balances := balances[account := NO_BALANCE];
      }
      balance := balances[account];
    }

    method AddCredit(account: Account, seconds: real)
      modifies this
      ensures View() == old(View()).Post(Posting(account, seconds, 0.0))
    {
      var balance := GetOrCreate(account);
      balances := balances[account := balance.(credit := balance.credit + seconds)];
    }

    method AddDebit(account: Account, seconds: real)
      modifies this
      ensures View() == old(View()).Post(Posting(account, 0.0, seconds))
    {
      var balance := GetOrCreate(account);
      balances := balances[account := balance.(debit := balance.debit + seconds)];
    }

    method ApplyJob(body: TxBody) returns (r: Result<(), ReplayError>)
      requires body.payload.JobCompleted?
      modifies this
      ensures r.Ok? ==> Settle(old(View()), body) == Ok(View())
      ensures r.Err? ==> Settle(old(View()), body) == Err(r.error) && SameBalances(old(View()), View())
    {
      ghost var start := View();
      var p := body.payload;
      if p.gpuSeconds.NotANumber? { return Err(BadNumber); }
      if p.gpuSeconds.value < 0.0 { return Err(NegativeSeconds); }
      AddCredit(OrSender(p.provider, body), p.gpuSeconds.value);
      if p.consumer != "" {
        AddDebit(p.consumer, p.gpuSeconds.value);
      }
      PostTwo(start, Postings(body).value);
      r := Ok(());
    }

    method ApplySettlement(body: TxBody) returns (r: Result<(), ReplayError>)
      requires body.payload.CreditSettled?
      modifies this
      ensures r.Ok? ==> Settle(old(View()), body) == Ok(View())
      ensures r.Err? ==> Settle(old(View()), body) == Err(r.error) && SameBalances(old(View()), View())
    {
      ghost var start := View();
      var p := body.payload;
      if p.settled.NotANumber? { return Err(BadNumber); }
      if p.settled.value < 0.0 { return Err(NegativeSeconds); }
      if p.toAccount == "" { return Err(MissingAccount); }
      AddDebit(OrSender(p.fromAccount, body), p.settled.value);
      AddCredit(p.toAccount, p.settled.value);
      PostTwo(start, Postings(body).value);
      r := Ok(());
    }

    method ApplyBurn(body: TxBody) returns (r: Result<(), ReplayError>)
      requires body.payload.BridgeBurn?
      modifies this
      ensures r.Ok? ==> Settle(old(View()), body) == Ok(View())
      ensures r.Err? ==> Settle(old(View()), body) == Err(r.error) && SameBalances(old(View()), View())
    {
      ghost var start := View();
      var p := body.payload;
      if p.burned.NotANumber? { return Err(BadNumber); }
      if p.burnAccount == "" { return Err(MissingAccount); }
      if p.burned.value <= 0.0 { return Err(NonPositiveSeconds); }
      var balance := GetOrCreate(p.burnAccount);
      if balance.Net() < p.burned.value { return Err(InsufficientBalance); }
      AddDebit(p.burnAccount, p.burned.value);
      PostTwo(start, Postings(body).value);
      r := Ok(());
    }

    method ApplyMint(body: TxBody) returns (r: Result<(), ReplayError>)
      requires body.payload.BridgeMint?
      modifies this
      ensures r.Ok? ==> Settle(old(View()), body) == Ok(View())
      ensures r.Err? ==> Settle(old(View()), body) == Err(r.error) && SameBalances(old(View()), View())
    {
      ghost var start := View();
      var p := body.payload;
      if p.minted.NotANumber? { return Err(BadNumber); }
      if p.mintAccount == "" { return Err(MissingAccount); }
      if p.minted.value <= 0.0 { return Err(NonPositiveSeconds); }
      if p.receipt.None? { return Err(MissingReceipt); }
      AddCredit(p.mintAccount, p.minted.value);
      PostTwo(start, Postings(body).value);
      r := Ok(());
    }

    method ApplyPayload(body: TxBody) returns (r: Result<(), ReplayError>)
      modifies this
      ensures r.Ok? ==> Settle(old(View()), body) == Ok(View())
      ensures r.Err? ==> Settle(old(View()), body) == Err(r.error) && SameBalances(old(View()), View())
    {
      match body.payload {
        case JobCompleted(_, _, _) => r := ApplyJob(body);
        case CreditSettled(_, _, _) => r := ApplySettlement(body);
        case BridgeBurn(_, _, _, _) => r := ApplyBurn(body);
        case BridgeMint(_, _, _, _, _, _, _, _) => r := ApplyMint(body);
        case _ => r := Ok(());
      }
    }

    /** A refused transaction may already have moved the nonce and created an account, but it never
        moves a balance. */
    method ApplyTransaction(tx: Transaction) returns (r: Result<(), ReplayError>)
      modifies this
      ensures r.Ok? ==> Apply(old(View()), tx) == Ok(View())
      ensures r.Err? ==> Apply(old(View()), tx) == Err(r.error) && SameBalances(old(View()), View())
      ensures r == Err(StaleNonce) ==> View() == old(View())
    {
      var body := tx.body;
      if body.nonce <= View().LastNonce(body.sender) {
        return Err(StaleNonce);
      }
      nonces := nonces[body.sender := body.nonce];
      r := ApplyPayload(body);
    }

    /** The continuation of seal_pending: apply a list on top of the current state. */
    method ApplyAll(txs: seq<Transaction>) returns (r: Result<(), ReplayError>)
      modifies this
      ensures r.Ok? ==> ReplayFrom(old(View()), txs) == Ok(View())
      ensures r.Err? ==> ReplayFrom(old(View()), txs) == Err(r.error)
    {
      ghost var start := View();
      for i := 0 to |txs|
        invariant ReplayFrom(start, txs[..i]) == Ok(View())
      {
        r := ApplyTransaction(txs[i]);
        assert txs[..i + 1][..i] == txs[..i];
        if r.Err? {
          ReplayStops(start, txs, i + 1);
          return;
        }
      }
      assert txs[..|txs|] == txs;
      r := Ok(());
    }
  }

  ghost predicate SameBalances(c: Credits, d: Credits) {
    forall a :: c.Lookup(a) == d.Lookup(a)
  }

  lemma PostTwo(credits: Credits, postings: seq<Posting>)
    ensures |postings| == 1 ==> PostAll(credits, postings) == credits.Post(postings[0])
    ensures |postings| == 2 ==>
              PostAll(credits, postings) == credits.Post(postings[0]).Post(postings[1])
  {
    if |postings| == 2 {
      assert PostAll(credits, postings) == PostAll(credits.Post(postings[0]), postings[1..]);
    }
  }

  method ReplayTransactions(txs: seq<Transaction>) returns (state: CreditState, r: Result<(), ReplayError>)
    ensures fresh(state)
    ensures r.Ok? ==> ReplayAll(txs) == Ok(state.View())
    ensures r.Err? ==> ReplayAll(txs) == Err(r.error)
  {
    state := new CreditState();
    r := state.ApplyAll(txs);
  }
}
