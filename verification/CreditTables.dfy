/** Whom a transaction pays, why it is refused, and what the credit table and its root say. */
module CreditTables {
  import opened Hashing
  import opened Sequences
  import opened Replay
  import opened ReplayMeaning
  import opened Blocks
  import opened Ledgers
  import opened LedgerSafety

  // ---------------------------------------------------------------------------------------------
  // Whom a transaction pays
  // ---------------------------------------------------------------------------------------------

  lemma AppliedSettles(c: Credits, tx: Transaction, d: Credits)
    requires Apply(c, tx) == Ok(d)
    ensures Settle(Noted(c, tx.body), tx.body) == Ok(d)
  {
  }

  lemma AppliedMoves(c: Credits, tx: Transaction, d: Credits)
    requires c.WellFormed() && Apply(c, tx) == Ok(d)
    ensures Moves(c, tx.body, d) && WellFormedPayload(tx.body)
  {
    AppliedSettles(c, tx, d);
    SettleMeaning(Noted(c, tx.body), tx.body, d);
    SettleSucceeds(Noted(c, tx.body), tx.body);
  }

  /** A completed job credits its provider and debits its consumer, if it has one; the sender stands in for
      a provider only when none is named, and nobody else's columns move. */
  lemma JobMoves(c: Credits, tx: Transaction, d: Credits, a: Account)
    requires c.WellFormed() && tx.body.payload.JobCompleted? && Apply(c, tx) == Ok(d)
    ensures var p := tx.body.payload;
            var earns := if p.provider != "" then a == p.provider else a == tx.body.sender;
            var pays := p.consumer != "" && a == p.consumer;
            && p.gpuSeconds.Amount? && p.gpuSeconds.value >= 0.0
            && d.Lookup(a).credit == c.Lookup(a).credit + (if earns then p.gpuSeconds.value else 0.0)
            && d.Lookup(a).debit == c.Lookup(a).debit + (if pays then p.gpuSeconds.value else 0.0)
  {
    AppliedMoves(c, tx, d);
  }

  /** A sender that is neither the named provider nor the consumer keeps its balance. */
  lemma SenderKeeps(c: Credits, tx: Transaction, d: Credits)
    requires c.WellFormed() && tx.body.payload.JobCompleted? && Apply(c, tx) == Ok(d)
    requires tx.body.payload.provider !in {"", tx.body.sender} && tx.body.payload.consumer != tx.body.sender
    ensures d.Lookup(tx.body.sender) == c.Lookup(tx.body.sender)
  {
    JobMoves(c, tx, d, tx.body.sender);
  }

  /** A settlement moves its seconds from the account it names, or the sender if it names none, to the other. */
  lemma SettlementMoves(c: Credits, tx: Transaction, d: Credits, a: Account)
    requires c.WellFormed() && tx.body.payload.CreditSettled? && Apply(c, tx) == Ok(d)
    ensures var p := tx.body.payload;
            var pays := if p.fromAccount != "" then a == p.fromAccount else a == tx.body.sender;
            && p.settled.Amount? && p.settled.value >= 0.0 && p.toAccount != ""
            && d.Lookup(a).debit == c.Lookup(a).debit + (if pays then p.settled.value else 0.0)
            && d.Lookup(a).credit == c.Lookup(a).credit + (if a == p.toAccount then p.settled.value else 0.0)
  {
    AppliedMoves(c, tx, d);
  }

  lemma AppliedBurn(c: Credits, tx: Transaction, d: Credits)
    requires tx.body.payload.BridgeBurn? && Apply(c, tx) == Ok(d)
    ensures BurnCovered(Noted(c, tx.body), tx.body)
  {
    AppliedSettles(c, tx, d);
    SettleSucceeds(Noted(c, tx.body), tx.body);
  }

  /** A burn debits the account it names, which holds that much, and nobody else. */
  lemma BurnMoves(c: Credits, tx: Transaction, d: Credits, a: Account)
    requires c.WellFormed() && tx.body.payload.BridgeBurn? && Apply(c, tx) == Ok(d)
    ensures var p := tx.body.payload;
            && p.burned.Amount? && p.burned.value > 0.0 && p.burnAccount != ""
            && c.Lookup(p.burnAccount).credit - c.Lookup(p.burnAccount).debit >= p.burned.value
            && d.Lookup(a).credit == c.Lookup(a).credit
            && d.Lookup(a).debit == c.Lookup(a).debit + (if a == p.burnAccount then p.burned.value else 0.0)
  {
    AppliedMoves(c, tx, d);
    AppliedBurn(c, tx, d);
  }

  /** A mint credits the account it names, and nobody else; payloads that are neither a job, a settlement nor
      a bridge transaction move nothing. */
  lemma MintMoves(c: Credits, tx: Transaction, d: Credits, a: Account)
    requires c.WellFormed() && Apply(c, tx) == Ok(d)
    requires !tx.body.payload.JobCompleted? && !tx.body.payload.CreditSettled? && !tx.body.payload.BridgeBurn?
    ensures var p := tx.body.payload;
            && (p.BridgeMint? ==>
                  p.minted.Amount? && p.minted.value > 0.0 && p.mintAccount != "" && p.receipt.Some?)
            && d.Lookup(a).debit == c.Lookup(a).debit
            && d.Lookup(a).credit == c.Lookup(a).credit
                                     + (if p.BridgeMint? && a == p.mintAccount then p.minted.value else 0.0)
  {
    AppliedMoves(c, tx, d);
  }

  // ---------------------------------------------------------------------------------------------
  // Why a transaction is refused
  // ---------------------------------------------------------------------------------------------

  /** The number a payload carries. */
  function NumberOf(p: Payload): Option<Seconds> {
    match p
    case JobCompleted(_, _, s) => Some(s)
    case CreditSettled(_, _, s) => Some(s)
    case BridgeBurn(_, s, _, _) => Some(s)
    case BridgeMint(_, s, _, _, _, _, _, _) => Some(s)
    case _ => None
  }

  predicate ForBridge(p: Payload) {
    p.BridgeBurn? || p.BridgeMint?
  }

  /** The account a settlement or bridge payload cannot do without. */
  function NeededAccount(p: Payload): Account {
    match p
    case CreditSettled(_, toAccount, _) => toAccount
    case BridgeBurn(account, _, _, _) => account
    case BridgeMint(account, _, _, _, _, _, _, _) => account
    case _ => "none"
  }

  /** What makes a payload refused with each error.  A bad number comes before everything else; a negative
      number comes before a missing account, but one that is merely not positive comes after it. */
  predicate Causes(p: Payload, held: real, e: ReplayError) {
    var number := NumberOf(p);
    number.Some?
    && if number.value.NotANumber? then e == BadNumber
       else
         var s := number.value.value;
         match e
         case StaleNonce => false
         case BadNumber => false
         case NegativeSeconds => !ForBridge(p) && s < 0.0
         case MissingAccount => (ForBridge(p) || s >= 0.0) && NeededAccount(p) == ""
         case NonPositiveSeconds => ForBridge(p) && NeededAccount(p) != "" && s <= 0.0
         case MissingReceipt => p.BridgeMint? && NeededAccount(p) != "" && s > 0.0 && p.receipt == None
         case InsufficientBalance => p.BridgeBurn? && NeededAccount(p) != "" && held < s && s > 0.0
  }

  lemma PostingReasons(body: TxBody, held: real, e: ReplayError)
    ensures Postings(body) == Err(e) ==> Causes(body.payload, held, e)
    ensures Causes(body.payload, held, e) && e != InsufficientBalance ==> Postings(body) == Err(e)
    ensures Causes(body.payload, held, InsufficientBalance) ==> Postings(body).Ok?
  {
  }

  predicate Uncovered(body: TxBody, held: real) {
    Postings(body).Ok? && body.payload.BridgeBurn? && held < body.payload.burned.value
  }

  function Held(c: Credits, a: Account): real {
    c.Lookup(a).credit - c.Lookup(a).debit
  }

  lemma RefusedPostings(c: Credits, body: TxBody)
    requires Postings(body).Err?
    ensures Settle(c, body) == Err(Postings(body).error)
  {
  }

  lemma RefusedBurn(c: Credits, body: TxBody)
    requires Postings(body).Ok? && body.payload.BridgeBurn?
    ensures if Held(c, body.payload.burnAccount) < body.payload.burned.value
            then Settle(c, body) == Err(InsufficientBalance) else Settle(c, body).Ok?
  {
  }

  lemma NotRefused(c: Credits, body: TxBody)
    requires Postings(body).Ok? && !body.payload.BridgeBurn?
    ensures Settle(c, body).Ok?
  {
  }

  lemma SettleErrs(c: Credits, body: TxBody, e: ReplayError)
    ensures Settle(c, body) == Err(e) <==>
            || Postings(body) == Err(e)
            || (e == InsufficientBalance && Uncovered(body, Held(c, NeededAccount(body.payload))))
  {
    if Postings(body).Err? {
      RefusedPostings(c, body);
    } else if body.payload.BridgeBurn? {
      RefusedBurn(c, body);
    } else {
      NotRefused(c, body);
    }
  }

  lemma BurnPostings(body: TxBody)
    requires body.payload.BridgeBurn?
    ensures var p := body.payload;
            Postings(body).Ok? <==> p.burned.Amount? && p.burnAccount != "" && p.burned.value > 0.0
  {
  }

  lemma NotCovered(body: TxBody, held: real)
    ensures Uncovered(body, held) <==> Causes(body.payload, held, InsufficientBalance)
  {
    if body.payload.BridgeBurn? {
      BurnPostings(body);
    }
  }

  /** A payload is refused with an error exactly when its cause is there. */
  lemma SettleReasons(c: Credits, body: TxBody, e: ReplayError)
    ensures Settle(c, body) == Err(e) <==> Causes(body.payload, Held(c, NeededAccount(body.payload)), e)
  {
    var held := Held(c, NeededAccount(body.payload));
    SettleErrs(c, body, e);
    NotCovered(body, held);
    NeverInsufficient(body);
    PostingReasons(body, held, e);
  }

  lemma NeverInsufficient(body: TxBody)
    ensures Postings(body) != Err(InsufficientBalance)
  {
  }

  /** A transaction is refused with an error exactly when its cause is there, a stale nonce first. */
  lemma RefusalReasons(c: Credits, tx: Transaction, e: ReplayError)
    ensures var p := tx.body.payload;
            var stale := if tx.body.sender in c.nonces then tx.body.nonce <= c.nonces[tx.body.sender]
                         else tx.body.nonce < 0;
            Apply(c, tx) == Err(e) <==> if stale then e == StaleNonce else Causes(p, Held(c, NeededAccount(p)), e)
  {
    SettleReasons(Noted(c, tx.body), tx.body, e);
  }

  // ---------------------------------------------------------------------------------------------
  // The table and its root
  // ---------------------------------------------------------------------------------------------

  function AccountsOf(rows: seq<Row>): (accounts: seq<Account>)
    ensures |accounts| == |rows| && forall k :: 0 <= k < |rows| ==> accounts[k] == rows[k].account
  {
    seq(|rows|, (k: nat) requires k < |rows| => rows[k].account)
  }

  /** One row for each account of the set, in the order of accounts. */
  ghost predicate InAccountOrder(rows: seq<Row>, accounts: set<Account>) {
    && (forall i, k :: 0 <= i < k < |rows| ==>
          rows[i].account != rows[k].account && StringLeq(rows[i].account, rows[k].account))
    && (forall k :: 0 <= k < |rows| ==> rows[k].account in accounts)
    && (forall a :: a in accounts ==> exists k :: 0 <= k < |rows| && rows[k].account == a)
  }

  /** The rows are those of the balances, in the order of accounts. */
  ghost predicate Lists(rows: seq<Row>, balances: map<Account, Balance>) {
    && InAccountOrder(rows, balances.Keys)
    && forall k :: 0 <= k < |rows| && rows[k].account in balances ==>
                     rows[k].credit == balances[rows[k].account].credit
                     && rows[k].debit == balances[rows[k].account].debit
  }

  lemma {:induction false} RowsAt(accounts: seq<Account>, c: Credits, k: nat)
    requires k < |accounts|
    ensures RowsFor(accounts, c)[k] == Row(accounts[k], c.Lookup(accounts[k]).credit, c.Lookup(accounts[k]).debit)
  {
    if k > 0 {
      RowsAt(accounts[1..], c, k - 1);
    }
  }

  lemma SortedOrder(order: seq<Account>)
    requires Distinct(order)
    ensures var s := Sort(StringLeq, order);
            && Distinct(s) && SortedBy(StringLeq, s) && forall a :: a in s <==> a in order
  {
    var s := Sort(StringLeq, order);
    StringOrder();
    SortProperties(StringLeq, order);
    forall a ensures a in s <==> a in order {
      assert a in s <==> a in multiset(s);
      assert a in order <==> a in multiset(order);
    }
    DistinctSorted(order, s);
  }

  lemma DistinctSorted(order: seq<Account>, s: seq<Account>)
    requires Distinct(order) && multiset(order) == multiset(s)
    ensures Distinct(s)
  {
    forall i, k | 0 <= i < k < |s| ensures s[i] != s[k] {
      if s[i] == s[k] {
        DistinctCount(order, s[i]);
        TwiceCounted(s, i, k);
      }
    }
  }

  lemma TwiceCounted(s: seq<Account>, i: nat, k: nat)
    requires i < k < |s| && s[i] == s[k]
    ensures multiset(s)[s[i]] >= 2
  {
    DropMultiset(s, k);
    assert Drop(s, k)[i] == s[i];
    assert s[i] in multiset(Drop(s, k));
  }

  lemma TableAt(c: Credits, k: nat)
    requires k < |c.order|
    ensures |Sort(StringLeq, c.order)| == |c.order| == |c.ToList()|
    ensures var a := Sort(StringLeq, c.order)[k];
            c.ToList()[k] == Row(a, c.Lookup(a).credit, c.Lookup(a).debit)
  {
    SameLength(c.order);
    RowsAt(Sort(StringLeq, c.order), c, k);
  }

  lemma RowsInOrder(rows: seq<Row>, s: seq<Account>, accounts: set<Account>)
    requires |rows| == |s| && forall k :: 0 <= k < |s| ==> rows[k].account == s[k]
    requires Distinct(s) && SortedBy(StringLeq, s) && forall a :: a in s <==> a in accounts
    ensures InAccountOrder(rows, accounts)
  {
    forall a | a in accounts ensures exists k :: 0 <= k < |rows| && rows[k].account == a {
      var k :| 0 <= k < |s| && s[k] == a;
      assert rows[k].account == a;
    }
  }

  lemma TableInOrder(c: Credits)
    requires c.WellFormed()
    ensures InAccountOrder(c.ToList(), c.balances.Keys)
  {
    var s, rows := Sort(StringLeq, c.order), c.ToList();
    SortedOrder(c.order);
    SameLength(c.order);
    forall k | 0 <= k < |s| ensures rows[k].account == s[k] {
      TableAt(c, k);
    }
    forall a ensures a in s <==> a in c.balances.Keys {
      assert a in c.order <==> a in Elements(c.order);
    }
    RowsInOrder(rows, s, c.balances.Keys);
  }

  lemma SameLength(order: seq<Account>)
    ensures |Sort(StringLeq, order)| == |order|
  {
    StringOrder();
    SortProperties(StringLeq, order);
  }

  /** The table of a state lists its balances. */
  lemma TableLists(c: Credits)
    requires c.WellFormed()
    ensures Lists(c.ToList(), c.balances)
  {
    TableInOrder(c);
    SameLength(c.order);
    forall k | 0 <= k < |c.ToList()|
      ensures var row := c.ToList()[k];
              row == Row(row.account, c.Lookup(row.account).credit, c.Lookup(row.account).debit)
    {
      TableAt(c, k);
    }
  }

  lemma SameAccounts(x: seq<Row>, y: seq<Row>, accounts: set<Account>)
    requires InAccountOrder(x, accounts) && InAccountOrder(y, accounts)
    ensures AccountsOf(x) == AccountsOf(y)
  {
    var a, b := AccountsOf(x), AccountsOf(y);
    forall n ensures n in a <==> n in accounts {
      if n in accounts {
        var k :| 0 <= k < |x| && x[k].account == n;
        assert a[k] == n;
      }
    }
    forall n ensures n in b <==> n in accounts {
      if n in accounts {
        var k :| 0 <= k < |y| && y[k].account == n;
        assert b[k] == n;
      }
    }
    DistinctSame(a, b);
    StringOrder();
    SortedUnique(StringLeq, a, b);
  }

  /** Only one list of rows lists given balances. */
  lemma ListsUnique(x: seq<Row>, y: seq<Row>, balances: map<Account, Balance>)
    requires Lists(x, balances) && Lists(y, balances)
    ensures x == y
  {
    SameAccounts(x, y, balances.Keys);
    forall k | 0 <= k < |x| ensures x[k] == y[k] {
      assert AccountsOf(x)[k] == AccountsOf(y)[k];
    }
  }

  lemma ListsDetermines(rows: seq<Row>, b: map<Account, Balance>, d: map<Account, Balance>)
    requires Lists(rows, b) && Lists(rows, d)
    ensures b == d
  {
    forall a ensures a in b <==> a in d {
      if a in b {
        var k :| 0 <= k < |rows| && rows[k].account == a;
      }
      if a in d {
        var k :| 0 <= k < |rows| && rows[k].account == a;
      }
    }
    forall a | a in b ensures b[a] == d[a] {
      var k :| 0 <= k < |rows| && rows[k].account == a;
    }
  }

  /** The state root binds the balances. */
  lemma RootBindsBalances(c: Credits, d: Credits)
    requires c.WellFormed() && d.WellFormed()
    ensures c.StateRoot() == d.StateRoot() <==> c.balances == d.balances
  {
    TableLists(c);
    TableLists(d);
    if c.balances == d.balances {
      ListsUnique(c.ToList(), d.ToList(), c.balances);
    }
    if c.StateRoot() == d.StateRoot() {
      ListsDetermines(c.ToList(), c.balances, d.balances);
    }
  }

  /** The table of a transaction list: a row for each account it touches, in the order of accounts, with all
      it credits and debits the account. */
  ghost predicate TableOf(rows: seq<Row>, txs: seq<Transaction>) {
    && InAccountOrder(rows, TouchedBy(txs))
    && forall k :: 0 <= k < |rows| ==>
                     rows[k].credit == TotalCredit(txs, rows[k].account)
                     && rows[k].debit == TotalDebit(txs, rows[k].account)
  }

  lemma TableListsTotals(c: Credits, txs: seq<Transaction>, rows: seq<Row>)
    requires Describes(c, txs)
    ensures TableOf(rows, txs) <==> Lists(rows, c.balances)
  {
    assert forall a :: a in c.balances ==> c.balances[a] == c.Lookup(a);
  }

  /** The root after a list that replays is the hash of exactly one table, that of the list. */
  lemma RootHashesTable(txs: seq<Transaction>, rows: seq<Row>)
    requires ReplayAll(txs).Ok?
    ensures ReplayAll(txs).value.StateRoot() == StateHash(rows) <==> TableOf(rows, txs)
    ensures ReplayAll(txs).value.ToList() == rows <==> TableOf(rows, txs)
  {
    var c := ReplayAll(txs).value;
    ReplayDescribes(txs, c);
    TableLists(c);
    TableListsTotals(c, txs, rows);
    if TableOf(rows, txs) {
      ListsUnique(rows, c.ToList(), c.balances);
    }
  }

  // ---------------------------------------------------------------------------------------------
  // Ledgers
  // ---------------------------------------------------------------------------------------------

  /** On a reachable ledger the state root of a block is the hash of the table of all transactions up to and
      including it, and the cached rows are the table of the final ones. */
  lemma RootsAndCacheAreTables(cfg: Config, l: Ledger, k: nat, rows: seq<Row>)
    requires Reachable(cfg, l) && k < |l.blocks|
    ensures l.blocks[k].stateRoot == StateHash(rows) <==> TableOf(rows, TxsOf(l.blocks[..k + 1]))
    ensures l.balances == rows <==> TableOf(rows, FinalizedTxs(l.blocks))
  {
    ReachableIsSafe(cfg, l);
    assert CommitsReplay(l.blocks, k);
    RootHashesTable(TxsOf(l.blocks[..k + 1]), rows);
    RootHashesTable(FinalizedTxs(l.blocks), rows);
  }

  /** Two blocks of reachable ledgers have the same state root exactly when the transactions up to them leave
      the same balances. */
  lemma EqualRootsEqualBalances(ca: Config, a: Ledger, i: nat, cb: Config, b: Ledger, k: nat)
    requires Reachable(ca, a) && i < |a.blocks| && Reachable(cb, b) && k < |b.blocks|
    ensures var x, y := ReplayAll(TxsOf(a.blocks[..i + 1])), ReplayAll(TxsOf(b.blocks[..k + 1]));
            && x.Ok? && y.Ok?
            && (a.blocks[i].stateRoot == b.blocks[k].stateRoot <==> x.value.balances == y.value.balances)
  {
    ReachableIsSafe(ca, a);
    ReachableIsSafe(cb, b);
    assert CommitsReplay(a.blocks, i) && CommitsReplay(b.blocks, k);
    var x, y := ReplayAll(TxsOf(a.blocks[..i + 1])), ReplayAll(TxsOf(b.blocks[..k + 1]));
    ReplayDescribes(TxsOf(a.blocks[..i + 1]), x.value);
    ReplayDescribes(TxsOf(b.blocks[..k + 1]), y.value);
    RootBindsBalances(x.value, y.value);
  }
}
