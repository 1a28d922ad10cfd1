/** What replay computes, said without replaying: column sums over the transaction list, when replay
    succeeds, what it conserves, and that the order of the list does not matter to the result. */
module ReplayMeaning {
  import opened Hashing
  import opened Sequences
  import opened Replay

  // ---------------------------------------------------------------------------------------------
  // The reference: sums over transactions
  // ---------------------------------------------------------------------------------------------

  function SecondsOf(seconds: Seconds): real {
    if seconds.Amount? then seconds.value else 0.0
  }

  /** An account field means the account it names; only an empty one means the sender. */
  predicate Means(field: Account, body: TxBody, a: Account) {
    if field == "" then a == body.sender else a == field
  }

  function CreditTo(body: TxBody, a: Account): real {
    match body.payload
    case JobCompleted(provider, _, s) => if Means(provider, body, a) then SecondsOf(s) else 0.0
    case CreditSettled(_, toAccount, s) => if toAccount == a then SecondsOf(s) else 0.0
    case BridgeMint(account, s, _, _, _, _, _, _) => if account == a then SecondsOf(s) else 0.0
    case _ => 0.0
  }

  function DebitTo(body: TxBody, a: Account): real {
    match body.payload
    case JobCompleted(_, consumer, s) => if consumer != "" && consumer == a then SecondsOf(s) else 0.0
    case CreditSettled(fromAccount, _, s) =>
      if Means(fromAccount, body, a) then SecondsOf(s) else 0.0
    case BridgeBurn(account, s, _, _) => if account == a then SecondsOf(s) else 0.0
    case _ => 0.0
  }

  /** Net credit a transaction brings into the ledger. */
  function Issued(body: TxBody): real {
    match body.payload
    case JobCompleted(_, consumer, s) => if consumer == "" then SecondsOf(s) else 0.0
    case BridgeMint(_, s, _, _, _, _, _, _) => SecondsOf(s)
    case BridgeBurn(_, s, _, _) => -SecondsOf(s)
    case _ => 0.0
  }

  function Touched(body: TxBody): set<Account> {
    match body.payload
    case JobCompleted(provider, consumer, _) =>
      {if provider == "" then body.sender else provider} + (if consumer != "" then {consumer} else {})
    case CreditSettled(fromAccount, toAccount, _) =>
      {if fromAccount == "" then body.sender else fromAccount, toAccount}
    case BridgeBurn(account, _, _, _) => {account}
    case BridgeMint(account, _, _, _, _, _, _, _) => {account}
    case _ => {}
  }

  predicate WellFormedPayload(body: TxBody) {
    match body.payload
    case JobCompleted(_, _, s) => s.Amount? && s.value >= 0.0
    case CreditSettled(_, toAccount, s) => s.Amount? && s.value >= 0.0 && toAccount != ""
    case BridgeBurn(account, s, _, _) => s.Amount? && s.value > 0.0 && account != ""
    case BridgeMint(account, s, receipt, _, _, _, _, _) =>
      s.Amount? && s.value > 0.0 && account != "" && receipt.Some?
    case _ => true
  }

  ghost function CreditTerm(a: Account): Transaction -> real {
    (t: Transaction) => CreditTo(t.body, a)
  }

  ghost function DebitTerm(a: Account): Transaction -> real {
    (t: Transaction) => DebitTo(t.body, a)
  }

  ghost function IssuedTerm(): Transaction -> real {
    (t: Transaction) => Issued(t.body)
  }

  ghost function TotalCredit(txs: seq<Transaction>, a: Account): real { Sum(CreditTerm(a), txs) }

  ghost function TotalDebit(txs: seq<Transaction>, a: Account): real { Sum(DebitTerm(a), txs) }

  ghost function NetOf(txs: seq<Transaction>, a: Account): real {
    TotalCredit(txs, a) - TotalDebit(txs, a)
  }

  ghost function TotalIssued(txs: seq<Transaction>): real { Sum(IssuedTerm(), txs) }

  ghost function TouchedBy(txs: seq<Transaction>): set<Account> {
    set i, a | 0 <= i < |txs| && a in Touched(txs[i].body) :: a
  }

  /** The nonce is not negative and exceeds every earlier nonce of its sender. */
  ghost predicate FreshNonce(txs: seq<Transaction>, i: nat)
    requires i < |txs|
  {
    && txs[i].body.nonce >= 0
    && forall j :: 0 <= j < i && txs[j].body.sender == txs[i].body.sender ==>
                     txs[j].body.nonce < txs[i].body.nonce
  }

  /** A burn takes no more than its account holds at that point of the list. */
  ghost predicate Covered(txs: seq<Transaction>, i: nat)
    requires i < |txs|
  {
    var p := txs[i].body.payload;
    p.BridgeBurn? ==> NetOf(txs[..i], p.burnAccount) >= SecondsOf(p.burned)
  }

  ghost predicate Admissible(txs: seq<Transaction>) {
    forall i :: 0 <= i < |txs| ==>
      WellFormedPayload(txs[i].body) && FreshNonce(txs, i) && Covered(txs, i)
  }

  /** The nonce table holds the largest nonce of each sender that occurs. */
  ghost predicate NoncesOf(nonces: map<Key, int>, txs: seq<Transaction>) {
    && (forall i :: 0 <= i < |txs| ==>
          txs[i].body.sender in nonces && txs[i].body.nonce <= nonces[txs[i].body.sender])
    && (forall s :: s in nonces ==>
          exists i :: 0 <= i < |txs| && txs[i].body.sender == s
                      && 0 <= txs[i].body.nonce == nonces[s])
  }

  /** The state a transaction list describes. */
  ghost predicate Describes(credits: Credits, txs: seq<Transaction>) {
    && credits.WellFormed()
    && credits.balances.Keys == TouchedBy(txs)
    && (forall a :: credits.Lookup(a) == Balance(TotalCredit(txs, a), TotalDebit(txs, a)))
    && NoncesOf(credits.nonces, txs)
  }

  // ---------------------------------------------------------------------------------------------
  // One step
  // ---------------------------------------------------------------------------------------------

  lemma PostMeaning(c: Credits, p: Posting)
    requires c.WellFormed()
    ensures c.Post(p).WellFormed() && c.Post(p).nonces == c.nonces
    ensures c.Post(p).balances.Keys == c.balances.Keys + {p.account}
    ensures forall a :: c.Post(p).Lookup(a) ==
                        if a == p.account
                        then Balance(c.Lookup(a).credit + p.credit, c.Lookup(a).debit + p.debit)
                        else c.Lookup(a)
  {
    var created := c.GetOrCreate(p.account);
    assert Elements(created.order) == created.balances.Keys;
  }

  function PostedCredit(ps: seq<Posting>, a: Account): real {
    if ps == [] then 0.0
    else (if ps[0].account == a then ps[0].credit else 0.0) + PostedCredit(ps[1..], a)
  }

  function PostedDebit(ps: seq<Posting>, a: Account): real {
    if ps == [] then 0.0
    else (if ps[0].account == a then ps[0].debit else 0.0) + PostedDebit(ps[1..], a)
  }

  function PostedNet(ps: seq<Posting>): real {
    if ps == [] then 0.0 else ps[0].credit - ps[0].debit + PostedNet(ps[1..])
  }

  function PostedAccounts(ps: seq<Posting>): set<Account> {
    if ps == [] then {} else {ps[0].account} + PostedAccounts(ps[1..])
  }

  lemma {:induction false} PostAllMeaning(c: Credits, ps: seq<Posting>)
    requires c.WellFormed()
    ensures PostAll(c, ps).WellFormed() && PostAll(c, ps).nonces == c.nonces
    ensures PostAll(c, ps).balances.Keys == c.balances.Keys + PostedAccounts(ps)
    ensures forall a :: PostAll(c, ps).Lookup(a) ==
                        Balance(c.Lookup(a).credit + PostedCredit(ps, a),
                                c.Lookup(a).debit + PostedDebit(ps, a))
    decreases |ps|
  {
    if ps != [] {
      PostMeaning(c, ps[0]);
      PostAllMeaning(c.Post(ps[0]), ps[1..]);
    }
  }

  lemma PostedOne(p: Posting)
    ensures PostedNet([p]) == p.credit - p.debit && PostedAccounts([p]) == {p.account}
    ensures forall a :: PostedCredit([p], a) == (if p.account == a then p.credit else 0.0)
                        && PostedDebit([p], a) == (if p.account == a then p.debit else 0.0)
  {
    assert [p][1..] == [];
    forall a
      ensures PostedCredit([p], a) == (if p.account == a then p.credit else 0.0)
              && PostedDebit([p], a) == (if p.account == a then p.debit else 0.0)
    {
      assert PostedCredit([p][1..], a) == 0.0 && PostedDebit([p][1..], a) == 0.0;
    }
  }

  lemma PostedTwo(p: Posting, q: Posting)
    ensures PostedNet([p, q]) == PostedNet([p]) + PostedNet([q])
    ensures PostedAccounts([p, q]) == PostedAccounts([p]) + PostedAccounts([q])
    ensures forall a :: PostedCredit([p, q], a) == PostedCredit([p], a) + PostedCredit([q], a)
                        && PostedDebit([p, q], a) == PostedDebit([p], a) + PostedDebit([q], a)
  {
    assert [p, q][1..] == [q];
    PostedOne(p);
  }

  /** The postings of an accepted payload are its two columns. */
  lemma PostingsMeaning(body: TxBody)
    ensures Postings(body).Ok? <==> WellFormedPayload(body)
    ensures Postings(body).Ok? ==>
              var ps := Postings(body).value;
              && PostedAccounts(ps) == Touched(body) && PostedNet(ps) == Issued(body)
              && forall a :: PostedCredit(ps, a) == CreditTo(body, a)
                             && PostedDebit(ps, a) == DebitTo(body, a)
  {
    if Postings(body).Ok? {
      var ps := Postings(body).value;
      if |ps| == 1 {
        assert ps == [ps[0]];
        PostedOne(ps[0]);
      } else if |ps| == 2 {
        assert ps == [ps[0], ps[1]];
        PostedOne(ps[0]);
        PostedOne(ps[1]);
        PostedTwo(ps[0], ps[1]);
      }
    }
  }

  ghost predicate BurnCovered(c: Credits, body: TxBody) {
    body.payload.BridgeBurn? ==>
      c.Lookup(body.payload.burnAccount).Net() >= SecondsOf(body.payload.burned)
  }

  lemma SettleSucceeds(c: Credits, body: TxBody)
    ensures Settle(c, body).Ok? <==> WellFormedPayload(body) && BurnCovered(c, body)
  {
    PostingsMeaning(body);
  }

  /** An accepted payload moves each account by its two columns. */
  ghost predicate Moves(c: Credits, body: TxBody, d: Credits) {
    forall a :: d.Lookup(a) == Balance(c.Lookup(a).credit + CreditTo(body, a),
                                       c.Lookup(a).debit + DebitTo(body, a))
  }

  lemma SettleMeaning(c: Credits, body: TxBody, d: Credits)
    requires c.WellFormed() && Settle(c, body) == Ok(d)
    ensures d.WellFormed() && d.nonces == c.nonces
    ensures d.balances.Keys == c.balances.Keys + Touched(body)
    ensures Moves(c, body, d)
  {
    var ps := Postings(body).value;
    PostingsMeaning(body);
    PostAllMeaning(c, ps);
    assert d == PostAll(c, ps);
  }

  lemma TotalsStep(txs: seq<Transaction>, tx: Transaction)
    ensures forall a :: TotalCredit(txs + [tx], a) == TotalCredit(txs, a) + CreditTo(tx.body, a)
    ensures forall a :: TotalDebit(txs + [tx], a) == TotalDebit(txs, a) + DebitTo(tx.body, a)
    ensures TotalIssued(txs + [tx]) == TotalIssued(txs) + Issued(tx.body)
    ensures TouchedBy(txs + [tx]) == TouchedBy(txs) + Touched(tx.body)
  {
    forall a ensures TotalCredit(txs + [tx], a) == TotalCredit(txs, a) + CreditTo(tx.body, a)
             ensures TotalDebit(txs + [tx], a) == TotalDebit(txs, a) + DebitTo(tx.body, a) {
      SumAppend(CreditTerm(a), txs, tx);
      SumAppend(DebitTerm(a), txs, tx);
    }
    SumAppend(IssuedTerm(), txs, tx);
    var all := txs + [tx];
    forall a | a in Touched(tx.body) ensures a in TouchedBy(all) {
      assert all[|txs|] == tx;
    }
    forall a | a in TouchedBy(txs) ensures a in TouchedBy(all) {
      var i :| 0 <= i < |txs| && a in Touched(txs[i].body);
      assert all[i] == txs[i];
    }
  }

  lemma NonceMeaning(c: Credits, txs: seq<Transaction>, tx: Transaction)
    requires NoncesOf(c.nonces, txs)
    ensures tx.body.nonce > c.LastNonce(tx.body.sender) <==> FreshNonce(txs + [tx], |txs|)
    ensures FreshNonce(txs + [tx], |txs|) ==>
              NoncesOf(c.nonces[tx.body.sender := tx.body.nonce], txs + [tx])
  {
    var all, sender := txs + [tx], tx.body.sender;
    if sender in c.nonces {
      var i :| 0 <= i < |txs| && txs[i].body.sender == sender
               && 0 <= txs[i].body.nonce == c.nonces[sender];
      assert all[i] == txs[i];
    }
    if FreshNonce(all, |txs|) {
      var nonces := c.nonces[sender := tx.body.nonce];
      forall s | s in nonces
        ensures exists i :: 0 <= i < |all| && all[i].body.sender == s
                            && 0 <= all[i].body.nonce == nonces[s]
      {
        if s == sender {
          assert all[|txs|].body.sender == s;
        } else {
          var i :| 0 <= i < |txs| && txs[i].body.sender == s && 0 <= txs[i].body.nonce == c.nonces[s];
          assert all[i] == txs[i];
        }
      }
    }
  }

  function Noted(c: Credits, body: TxBody): Credits {
    c.(nonces := c.nonces[body.sender := body.nonce])
  }

  lemma ApplySucceeds(c: Credits, txs: seq<Transaction>, tx: Transaction)
    requires Describes(c, txs)
    ensures Apply(c, tx).Ok? <==>
            WellFormedPayload(tx.body) && FreshNonce(txs + [tx], |txs|) && Covered(txs + [tx], |txs|)
  {
    var noted := Noted(c, tx.body);
    NonceMeaning(c, txs, tx);
    SettleSucceeds(noted, tx.body);
    assert (txs + [tx])[..|txs|] == txs;
    if tx.body.payload.BridgeBurn? {
      assert noted.Lookup(tx.body.payload.burnAccount) == c.Lookup(tx.body.payload.burnAccount);
    }
  }

  lemma MovesTotals(c: Credits, txs: seq<Transaction>, tx: Transaction, d: Credits)
    requires Moves(c, tx.body, d)
    requires forall a :: c.Lookup(a) == Balance(TotalCredit(txs, a), TotalDebit(txs, a))
    ensures forall a :: d.Lookup(a) == Balance(TotalCredit(txs + [tx], a), TotalDebit(txs + [tx], a))
  {
    TotalsStep(txs, tx);
  }

  lemma ApplyMeaning(c: Credits, txs: seq<Transaction>, tx: Transaction, d: Credits)
    requires Describes(c, txs) && Apply(c, tx) == Ok(d)
    ensures Describes(d, txs + [tx])
  {
    var noted := Noted(c, tx.body);
    ApplySucceeds(c, txs, tx);
    NonceMeaning(c, txs, tx);
    SettleMeaning(noted, tx.body, d);
    MovesTotals(noted, txs, tx, d);
    TotalsStep(txs, tx);
  }

  // ---------------------------------------------------------------------------------------------
  // Replay succeeds exactly on admissible lists, and computes the described state
  // ---------------------------------------------------------------------------------------------

  lemma AdmissibleStep(txs: seq<Transaction>)
    requires txs != []
    ensures var n := |txs| - 1;
            Admissible(txs) <==>
            Admissible(txs[..n])
            && WellFormedPayload(txs[n].body) && FreshNonce(txs, n) && Covered(txs, n)
  {
    var n := |txs| - 1;
    forall i | 0 <= i < n
      ensures FreshNonce(txs, i) == FreshNonce(txs[..n], i)
      ensures Covered(txs, i) == Covered(txs[..n], i)
    {
      assert txs[..n][..i] == txs[..i];
    }
    if Admissible(txs) {
      forall i | 0 <= i < n
        ensures WellFormedPayload(txs[..n][i].body) && FreshNonce(txs[..n], i) && Covered(txs[..n], i)
      {
        assert txs[..n][i] == txs[i];
      }
    }
  }

  lemma {:induction false} ReplayCharacterised(txs: seq<Transaction>)
    ensures ReplayAll(txs).Ok? <==> Admissible(txs)
    ensures ReplayAll(txs).Ok? ==> Describes(ReplayAll(txs).value, txs)
  {
    if txs != [] {
      var n := |txs| - 1;
      ReplayCharacterised(txs[..n]);
      AdmissibleStep(txs);
      assert txs == txs[..n] + [txs[n]];
      if ReplayAll(txs[..n]).Ok? {
        var before := ReplayAll(txs[..n]).value;
        ApplySucceeds(before, txs[..n], txs[n]);
        if Apply(before, txs[n]).Ok? {
          ApplyMeaning(before, txs[..n], txs[n], Apply(before, txs[n]).value);
        }
      }
    }
  }

  lemma ReplayDescribes(txs: seq<Transaction>, c: Credits)
    requires ReplayAll(txs) == Ok(c)
    ensures Describes(c, txs)
  {
    ReplayCharacterised(txs);
  }

  /** Replay of a prefix succeeds when replay of the whole list does. */
  lemma PrefixReplays(txs: seq<Transaction>, k: nat)
    requires k <= |txs| && ReplayAll(txs).Ok?
    ensures ReplayAll(txs[..k]).Ok?
  {
    if ReplayAll(txs[..k]).Err? {
      ReplayStops(NO_CREDITS, txs, k);
    }
  }

  // ---------------------------------------------------------------------------------------------
  // Conservation and monotonicity
  // ---------------------------------------------------------------------------------------------

  ghost function NetTerm(c: Credits): Account -> real {
    (a: Account) => c.Lookup(a).Net()
  }

  ghost function TotalNet(c: Credits): real { Sum(NetTerm(c), c.order) }

  lemma PostConservesOld(c: Credits, p: Posting, k: nat)
    requires c.WellFormed() && k < |c.order| && c.order[k] == p.account
    ensures TotalNet(c.Post(p)) == TotalNet(c) + p.credit - p.debit
  {
    var d := c.Post(p);
    PostMeaning(c, p);
    assert p.account in Elements(c.order);
    assert d.order == c.order;
    SumDrop(NetTerm(c), c.order, k);
    SumDrop(NetTerm(d), c.order, k);
    SumPointwise(NetTerm(c), NetTerm(d), Drop(c.order, k));
  }

  lemma PostConserves(c: Credits, p: Posting)
    requires c.WellFormed()
    ensures TotalNet(c.Post(p)) == TotalNet(c) + p.credit - p.debit
  {
    if p.account in c.balances {
      assert p.account in Elements(c.order);
      var k :| 0 <= k < |c.order| && c.order[k] == p.account;
      PostConservesOld(c, p, k);
    } else {
      var d := c.Post(p);
      PostMeaning(c, p);
      assert forall i :: 0 <= i < |c.order| ==> c.order[i] in Elements(c.order);
      SumPointwise(NetTerm(c), NetTerm(d), c.order);
      SumAppend(NetTerm(d), c.order, p.account);
    }
  }

  lemma {:induction false} PostAllConserves(c: Credits, ps: seq<Posting>)
    requires c.WellFormed()
    ensures TotalNet(PostAll(c, ps)) == TotalNet(c) + PostedNet(ps)
    decreases |ps|
  {
    if ps != [] {
      PostConserves(c, ps[0]);
      PostMeaning(c, ps[0]);
      PostAllConserves(c.Post(ps[0]), ps[1..]);
    }
  }

  lemma ApplyConserves(c: Credits, tx: Transaction)
    requires c.WellFormed() && Apply(c, tx).Ok?
    ensures TotalNet(Apply(c, tx).value) == TotalNet(c) + Issued(tx.body)
  {
    var noted := Noted(c, tx.body);
    SumPointwise(NetTerm(c), NetTerm(noted), c.order);
    PostingsMeaning(tx.body);
    PostAllConserves(noted, Postings(tx.body).value);
  }

  /** The accounts together hold the mints minus the burns plus the seconds of jobs that have no
      consumer. */
  lemma {:induction false} Conservation(txs: seq<Transaction>)
    requires ReplayAll(txs).Ok?
    ensures TotalNet(ReplayAll(txs).value) == TotalIssued(txs)
  {
    if txs != [] {
      var n := |txs| - 1;
      Conservation(txs[..n]);
      ReplayCharacterised(txs[..n]);
      ApplyConserves(ReplayAll(txs[..n]).value, txs[n]);
    }
  }

  lemma {:induction false} TotalsMonotone(txs: seq<Transaction>, k: nat, a: Account)
    requires k <= |txs|
    requires forall i :: 0 <= i < |txs| ==> WellFormedPayload(txs[i].body)
    ensures TotalCredit(txs[..k], a) <= TotalCredit(txs, a)
    ensures TotalDebit(txs[..k], a) <= TotalDebit(txs, a)
  {
    if k == |txs| {
      assert txs[..k] == txs;
    } else {
      var n := |txs| - 1;
      TotalsMonotone(txs[..n], k, a);
      assert txs[..n][..k] == txs[..k];
    }
  }

  /** Neither column of an account ever falls along the list. */
  lemma ColumnsNeverFall(txs: seq<Transaction>, k: nat, a: Account)
    requires k <= |txs| && ReplayAll(txs).Ok?
    ensures ReplayAll(txs[..k]).Ok?
    ensures ReplayAll(txs[..k]).value.Lookup(a).credit <= ReplayAll(txs).value.Lookup(a).credit
    ensures ReplayAll(txs[..k]).value.Lookup(a).debit <= ReplayAll(txs).value.Lookup(a).debit
  {
    PrefixReplays(txs, k);
    ReplayCharacterised(txs[..k]);
    ReplayCharacterised(txs);
    TotalsMonotone(txs, k, a);
  }

  // ---------------------------------------------------------------------------------------------
  // Reordering
  // ---------------------------------------------------------------------------------------------

  function BySender(s: Key): Transaction -> bool {
    (t: Transaction) => t.body.sender == s
  }

  /** ys is a reordering of xs that keeps each sender's own order. */
  ghost predicate SameBySender(xs: seq<Transaction>, ys: seq<Transaction>) {
    forall s :: Filter(BySender(s), xs) == Filter(BySender(s), ys)
  }

  lemma SameElements(xs: seq<Transaction>, ys: seq<Transaction>)
    requires SameBySender(xs, ys)
    ensures multiset(xs) == multiset(ys)
  {
    forall t: Transaction ensures multiset(xs)[t] == multiset(ys)[t] {
      FilterCount(BySender(t.body.sender), xs, t);
      FilterCount(BySender(t.body.sender), ys, t);
    }
  }

  lemma MemberIndex(xs: seq<Transaction>, ys: seq<Transaction>, i: nat) returns (j: nat)
    requires i < |xs| && multiset(xs) == multiset(ys)
    ensures j < |ys| && ys[j] == xs[i]
  {
    assert xs[i] in multiset(ys);
    j :| 0 <= j < |ys| && ys[j] == xs[i];
  }

  lemma SameTouched(xs: seq<Transaction>, ys: seq<Transaction>)
    requires multiset(xs) == multiset(ys)
    ensures TouchedBy(xs) <= TouchedBy(ys)
  {
    forall a | a in TouchedBy(xs) ensures a in TouchedBy(ys) {
      var i :| 0 <= i < |xs| && a in Touched(xs[i].body);
      var j := MemberIndex(xs, ys, i);
    }
  }

  lemma SameNonces(xs: seq<Transaction>, ys: seq<Transaction>, c: map<Key, int>, d: map<Key, int>, s: Key)
    requires multiset(xs) == multiset(ys) && NoncesOf(c, xs) && NoncesOf(d, ys) && s in c
    ensures s in d && c[s] <= d[s]
  {
    var i :| 0 <= i < |xs| && xs[i].body.sender == s && 0 <= xs[i].body.nonce == c[s];
    var j := MemberIndex(xs, ys, i);
  }

  lemma SameRows(accounts: seq<Account>, c: Credits, d: Credits)
    requires SameBalances(c, d)
    ensures RowsFor(accounts, c) == RowsFor(accounts, d)
  {
  }

  lemma SortedSame(a: seq<Account>, b: seq<Account>)
    requires Distinct(a) && Distinct(b) && Elements(a) == Elements(b)
    ensures Sort(StringLeq, a) == Sort(StringLeq, b)
  {
    forall x ensures x in a <==> x in b {
      assert x in a <==> x in Elements(a);
      assert x in b <==> x in Elements(b);
    }
    DistinctSame(a, b);
    StringOrder();
    SortProperties(StringLeq, a);
    SortProperties(StringLeq, b);
    SortedUnique(StringLeq, Sort(StringLeq, a), Sort(StringLeq, b));
  }

  lemma SameTables(xs: seq<Transaction>, ys: seq<Transaction>, c: Credits, d: Credits)
    requires multiset(xs) == multiset(ys) && Describes(c, xs) && Describes(d, ys)
    ensures SameBalances(c, d) && c.balances == d.balances
  {
    SameTouched(xs, ys);
    SameTouched(ys, xs);
    forall a ensures c.Lookup(a) == d.Lookup(a) {
      SumPermutation(CreditTerm(a), xs, ys);
      SumPermutation(DebitTerm(a), xs, ys);
    }
    forall a | a in c.balances ensures c.balances[a] == d.balances[a] {
      assert c.Lookup(a) == d.Lookup(a);
    }
  }

  lemma SameNonceTables(xs: seq<Transaction>, ys: seq<Transaction>, c: map<Key, int>, d: map<Key, int>)
    requires multiset(xs) == multiset(ys) && NoncesOf(c, xs) && NoncesOf(d, ys)
    ensures c == d
  {
    forall s | s in c ensures s in d && c[s] <= d[s] {
      SameNonces(xs, ys, c, d, s);
    }
    forall s | s in d ensures s in c && d[s] <= c[s] {
      SameNonces(ys, xs, d, c, s);
    }
  }

  /** Two successful replays of the same transactions, each sender's in the same order, end in the
      same balances, nonces and state root, even though accounts are created in another order. */
  lemma OrderIrrelevant(xs: seq<Transaction>, ys: seq<Transaction>)
    requires SameBySender(xs, ys) && ReplayAll(xs).Ok? && ReplayAll(ys).Ok?
    ensures var c, d := ReplayAll(xs).value, ReplayAll(ys).value;
            c.balances == d.balances && c.nonces == d.nonces
            && c.ToList() == d.ToList() && c.StateRoot() == d.StateRoot()
  {
    var c, d := ReplayAll(xs).value, ReplayAll(ys).value;
    ReplayCharacterised(xs);
    ReplayCharacterised(ys);
    SameElements(xs, ys);
    SameTables(xs, ys, c, d);
    SameNonceTables(xs, ys, c.nonces, d.nonces);
    SortedSame(c.order, d.order);
    SameRows(Sort(StringLeq, c.order), c, d);
  }

  predicate Increasing(txs: seq<Transaction>) {
    && (forall k :: 0 <= k < |txs| ==> txs[k].body.nonce >= 0)
    && (forall i, k :: 0 <= i < k < |txs| ==> txs[i].body.nonce < txs[k].body.nonce)
  }

  ghost predicate AllFresh(txs: seq<Transaction>) {
    forall i :: 0 <= i < |txs| ==> FreshNonce(txs, i)
  }

  /** The last nonce is fresh exactly when it extends its sender's own list. */
  lemma FreshStep(txs: seq<Transaction>)
    requires txs != []
    ensures var n := |txs| - 1;
            var own := Filter(BySender(txs[n].body.sender), txs[..n]);
            && (AllFresh(txs) <==> AllFresh(txs[..n]) && FreshNonce(txs, n))
            && (FreshNonce(txs, n) <==>
                  txs[n].body.nonce >= 0
                  && forall k :: 0 <= k < |own| ==> own[k].body.nonce < txs[n].body.nonce)
  {
    var n := |txs| - 1;
    var init := txs[..n];
    var own := Filter(BySender(txs[n].body.sender), init);
    forall i | 0 <= i < n ensures FreshNonce(txs, i) == FreshNonce(init, i) {
    }
    OwnMembers(init, txs[n].body.sender);
    if AllFresh(txs) {
      forall i | 0 <= i < n ensures FreshNonce(init, i) {
        assert FreshNonce(txs, i);
      }
    }
  }

  /** Nonces are fresh along the list exactly when each sender's own list increases. */
  lemma {:induction false} FreshBySender(txs: seq<Transaction>)
    ensures AllFresh(txs) <==> forall s :: Increasing(Filter(BySender(s), txs))
  {
    if txs != [] {
      var n := |txs| - 1;
      var sender := txs[n].body.sender;
      FreshBySender(txs[..n]);
      FreshStep(txs);
      IncreasingStep(Filter(BySender(sender), txs[..n]), txs[n]);
      assert forall s :: s != sender ==> Filter(BySender(s), txs) == Filter(BySender(s), txs[..n]);
      assert Filter(BySender(sender), txs) == Filter(BySender(sender), txs[..n]) + [txs[n]];
    }
  }

  lemma IncreasingStep(own: seq<Transaction>, tx: Transaction)
    ensures Increasing(own + [tx]) <==>
            Increasing(own) && tx.body.nonce >= 0
            && forall k :: 0 <= k < |own| ==> own[k].body.nonce < tx.body.nonce
  {
    var all := own + [tx];
    if Increasing(all) {
      assert forall k :: 0 <= k < |own| ==> own[k] == all[k];
      assert all[|own|] == tx;
    }
  }

  lemma {:induction false} OwnMembers(txs: seq<Transaction>, s: Key)
    ensures forall j :: 0 <= j < |txs| && txs[j].body.sender == s ==> txs[j] in Filter(BySender(s), txs)
  {
    if txs != [] {
      OwnMembers(txs[..|txs| - 1], s);
    }
  }

  /** A reordering of a list that replays, keeping each sender's own order, replays too exactly when
      each burn is still covered at its new point. */
  lemma ReorderReplays(xs: seq<Transaction>, ys: seq<Transaction>)
    requires SameBySender(xs, ys) && ReplayAll(xs).Ok?
    ensures ReplayAll(ys).Ok? <==> forall i :: 0 <= i < |ys| ==> Covered(ys, i)
  {
    ReplayCharacterised(xs);
    ReplayCharacterised(ys);
    SameElements(xs, ys);
    FreshBySender(xs);
    FreshBySender(ys);
    assert AllFresh(xs);
    assert AllFresh(ys);
    forall i | 0 <= i < |ys| ensures WellFormedPayload(ys[i].body) && FreshNonce(ys, i) {
      var j := MemberIndex(ys, xs, i);
    }
  }

  predicate BurnFree(txs: seq<Transaction>) {
    forall k :: 0 <= k < |txs| ==> !txs[k].body.payload.BridgeBurn?
  }

  /** Without burns replay does not depend on the order between senders: it succeeds on both lists or
      on neither, and then ends in the same balances, nonces and state root. */
  lemma OrderIndependence(xs: seq<Transaction>, ys: seq<Transaction>)
    requires SameBySender(xs, ys) && BurnFree(xs)
    ensures ReplayAll(xs).Ok? <==> ReplayAll(ys).Ok?
    ensures ReplayAll(xs).Ok? ==>
              var c, d := ReplayAll(xs).value, ReplayAll(ys).value;
              c.balances == d.balances && c.nonces == d.nonces && c.StateRoot() == d.StateRoot()
  {
    SameElements(xs, ys);
    assert BurnFree(ys) by {
      forall k | 0 <= k < |ys| ensures !ys[k].body.payload.BridgeBurn? {
        var j := MemberIndex(ys, xs, k);
      }
    }
    if ReplayAll(xs).Ok? {
      ReorderReplays(xs, ys);
      OrderIrrelevant(xs, ys);
    }
    if ReplayAll(ys).Ok? {
      ReorderReplays(ys, xs);
    }
  }

  lemma ReplayOne(a: Transaction)
    ensures ReplayAll([a]) == Apply(NO_CREDITS, a)
  {
    assert [a][..0] == [];
    assert ReplayFrom(NO_CREDITS, []) == Ok(NO_CREDITS);
  }

  lemma ReplayTwo(a: Transaction, b: Transaction)
    ensures ReplayAll([a, b]) ==
            match Apply(NO_CREDITS, a) case Err(e) => Err(e) case Ok(c) => Apply(c, b)
  {
    assert [a, b][..1] == [a];
    ReplayOne(a);
  }

  /** With burns the order matters: a burn ahead of the mint that funds it is refused. */
  lemma BurnOrderMatters(mint: Transaction, burn: Transaction)
    requires mint.body == TxBody("m", "alice", 0, "t",
                                 BridgeMint("acct", Amount(5.0), Some(ZeroHash), "src", ZeroHash,
                                            ZeroHash, 1, Proof(ZeroHash, 0, ZeroHash, [])))
    requires burn.body == TxBody("b", "bob", 0, "t", BridgeBurn("acct", Amount(5.0), "dst", "x"))
    ensures SameBySender([mint, burn], [burn, mint])
    ensures ReplayAll([mint, burn]).Ok? && ReplayAll([burn, mint]) == Err(InsufficientBalance)
  {
    MintFirst(mint);
    ReplayTwo(mint, burn);
    ReplayTwo(burn, mint);
    forall s ensures Filter(BySender(s), [mint, burn]) == Filter(BySender(s), [burn, mint]) {
      assert [mint, burn][..1] == [mint] && [burn, mint][..1] == [burn];
      assert Filter(BySender(s), [mint]) == if s == "alice" then [mint] else [];
      assert Filter(BySender(s), [burn]) == if s == "bob" then [burn] else [];
    }
  }

  lemma MintFirst(mint: Transaction)
    requires mint.body.sender == "alice" && mint.body.nonce == 0
    requires Postings(mint.body) == Ok([Posting("acct", 5.0, 0.0)]) && !mint.body.payload.BridgeBurn?
    ensures Apply(NO_CREDITS, mint)
         == Ok(Credits(["acct"], map["acct" := Balance(5.0, 0.0)], map["alice" := 0]))
  {
    var noted, p := Noted(NO_CREDITS, mint.body), Posting("acct", 5.0, 0.0);
    PostTwo(noted, [p]);
    assert noted.Post(p) == Credits(["acct"], map["acct" := Balance(5.0, 0.0)], map["alice" := 0]);
  }
}
