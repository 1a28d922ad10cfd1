/** When a transfer goes through, and what it moves.

    The cached balance of an account is what the final transactions of the chain credit it less what they
    debit it (CachedIsNet).  A chain is idle when nothing waits on it, every block is final and the chain's
    own keys are enough for a quorum; an idle chain seals and finalizes an appliable transaction at once and
    is idle again (IdleSubmit).  Between two idle chains a transfer succeeds exactly when the cached balance
    of the account covers it, and then moves exactly the amount: the burn takes it from the account on the
    source, the mint gives it to the account on the destination, and nobody else's balance changes
    (TransferMoves). */
module BridgeTransfers {
  import opened Hashing
  import opened Sequences
  import opened Replay
  import opened ReplayMeaning
  import opened Blocks
  import opened Ledgers
  import opened LedgerSafety
  import opened LedgerTheorems
  import opened Bridge
  import opened BridgeSafety
  import opened BridgeRuns
  import opened BridgeConservation

  // ---------------------------------------------------------------------------------------------
  // The cached balance of an account
  // ---------------------------------------------------------------------------------------------

  lemma {:induction false} CachedRow(accounts: seq<Account>, c: Credits, a: Account)
    requires a in accounts || c.Lookup(a).Net() == 0.0
    ensures CachedNet(RowsFor(accounts, c), a) == c.Lookup(a).Net()
  {
    if accounts != [] {
      var first, rest := accounts[0], accounts[1..];
      var row := Row(first, c.Lookup(first).credit, c.Lookup(first).debit);
      assert RowsFor(accounts, c) == [row] + RowsFor(rest, c);
      CachedCons(row, RowsFor(rest, c), a);
      if first != a {
        InRest(accounts, a);
        CachedRow(rest, c, a);
      }
    }
  }

  lemma InRest(accounts: seq<Account>, a: Account)
    requires accounts != [] && accounts[0] != a
    ensures a in accounts ==> a in accounts[1..]
  {
  }

  lemma CachedCons(row: Row, rest: seq<Row>, a: Account)
    ensures CachedNet([row] + rest, a) == if row.account == a then row.credit - row.debit else CachedNet(rest, a)
  {
    assert ([row] + rest)[1..] == rest;
  }

  lemma SortMember(order: seq<Account>, a: Account)
    ensures a in order ==> a in Sort(StringLeq, order)
  {
    StringOrder();
    SortProperties(StringLeq, order);
    if a in order {
      assert a in multiset(order);
      assert a in multiset(Sort(StringLeq, order));
    }
  }

  lemma TableRow(c: Credits, a: Account)
    requires c.WellFormed()
    ensures CachedNet(c.ToList(), a) == c.Lookup(a).Net()
  {
    assert a in c.order <==> a in Elements(c.order);
    SortMember(c.order, a);
    CachedRow(Sort(StringLeq, c.order), c, a);
  }

  lemma NetOfColumns(b: Balance, txs: seq<Transaction>, a: Account)
    requires b == Balance(TotalCredit(txs, a), TotalDebit(txs, a))
    ensures b.Net() == NetOf(txs, a)
  {
  }

  lemma DescribedRows(c: Credits, txs: seq<Transaction>)
    requires Describes(c, txs)
    ensures forall a :: CachedNet(c.ToList(), a) == NetOf(txs, a)
  {
    forall a ensures CachedNet(c.ToList(), a) == NetOf(txs, a) {
      NetOfColumns(c.Lookup(a), txs, a);
      TableRow(c, a);
    }
  }

  /** The cached balance is what the final transactions credit the account less what they debit it. */
  lemma CachedIsNet(l: Ledger, a: Account)
    requires CacheCurrent(l)
    ensures CachedNet(l.balances, a) == NetOf(FinalizedTxs(l.blocks), a)
  {
    var r := ReplayAll(FinalizedTxs(l.blocks));
    ReplayDescribes(FinalizedTxs(l.blocks), r.value);
    DescribedRows(r.value, FinalizedTxs(l.blocks));
  }

  lemma NetAppend(txs: seq<Transaction>, tx: Transaction, a: Account)
    ensures NetOf(txs + [tx], a) == NetOf(txs, a) + CreditTo(tx.body, a) - DebitTo(tx.body, a)
  {
    SumAppend(CreditTerm(a), txs, tx);
    SumAppend(DebitTerm(a), txs, tx);
  }

  // ---------------------------------------------------------------------------------------------
  // A chain with nothing waiting
  // ---------------------------------------------------------------------------------------------

  /** Everything is final, and the chain's own keys make a quorum. */
  ghost predicate Idle(cfg: Config, l: Ledger) {
    && Safe(cfg, l) && l.blocks != [] && l.pending == [] && AllFinalized(l.blocks)
    && |cfg.OwnKeys()| >= cfg.Threshold() && cfg.relay != ""
  }

  lemma {:induction false} CosignNewApprovers(approvals: seq<Approval>, extras: seq<Key>, hash: Digest)
    ensures Approvers(CosignNew(approvals, extras, hash)) == Approvers(approvals) + Elements(extras)
  {
    if extras != [] {
      var n := |extras| - 1;
      CosignNewApprovers(approvals, extras[..n], hash);
      ApproversAppend(CosignNew(approvals, extras[..n], hash), Cosignature(extras[n], hash));
      assert extras == extras[..n] + [extras[n]];
      assert Elements(extras) == Elements(extras[..n]) + {extras[n]};
    }
  }

  lemma {:induction false} ApproversCount(approvals: seq<Approval>)
    ensures |Approvers(approvals)| <= |approvals|
  {
    if approvals != [] {
      var n := |approvals| - 1;
      ApproversCount(approvals[..n]);
      ApproversAppend(approvals[..n], approvals[n]);
      assert approvals == approvals[..n] + [approvals[n]];
    }
  }

  /** The chain's own cosigners finalize what it seals. */
  lemma OwnKeysFinalize(cfg: Config, tip: Block, now: string, txs: seq<Transaction>, state: Credits)
    requires |cfg.OwnKeys()| >= cfg.Threshold()
    ensures NextBlock(cfg, tip, now, txs, state).finalized
  {
    var p := Proposed(cfg, tip.height + 1, tip.hash, now, txs, state.StateRoot());
    assert p.approvals[0].validator == cfg.relay;
    assert Approvers(p.approvals) == {cfg.relay};
    CosignNewApprovers(p.approvals, cfg.extras, p.hash);
    ApproversCount(CosignNew(p.approvals, cfg.extras, p.hash));
  }

  /** A transaction an idle chain can apply. */
  ghost predicate Appliable(l: Ledger, tx: Transaction) {
    && ValidTransaction(tx, true) && tx.body.nonce > MaxNonce(Rows(l), tx.body.sender)
    && !IdTaken(Rows(l), tx.body.id) && WellFormedPayload(tx.body)
    && Covered(FinalizedTxs(l.blocks) + [tx], |FinalizedTxs(l.blocks)|)
  }

  lemma IdleRows(cfg: Config, l: Ledger)
    requires Idle(cfg, l)
    ensures Rows(l) == FinalizedTxs(l.blocks) && Admissible(FinalizedTxs(l.blocks))
    ensures AllFresh(FinalizedTxs(l.blocks))
  {
    AllFinalizedTxs(l.blocks);
    assert TxsOf(l.blocks) + [] == TxsOf(l.blocks);
    ReplayCharacterised(FinalizedTxs(l.blocks));
  }

  lemma IdleReplays(cfg: Config, l: Ledger, tx: Transaction)
    requires Idle(cfg, l) && Appliable(l, tx)
    ensures ReplayAll(FinalizedTxs(l.blocks) + [tx]).Ok?
  {
    IdleRows(cfg, l);
    var done := FinalizedTxs(l.blocks);
    AllFreshAppend(done, tx);
    assert AppliesAt(done, [tx], 0);
    PendingAdmissible(done, [tx]);
    ReplayCharacterised(done + [tx]);
  }

  lemma IdleSeals(cfg: Config, l: Ledger, tx: Transaction, now: string) returns (after: Sealing)
    requires Idle(cfg, l) && Appliable(l, tx)
    ensures Seal(cfg, l.(pending := [tx]), now) == Ok(after)
    ensures after.block.Some? && after.block.value.finalized && after.block.value.transactions == [tx]
    ensures after.ledger.blocks == l.blocks + [after.block.value] && after.ledger.pending == []
  {
    var added := l.(pending := [tx]);
    IdleReplays(cfg, l, tx);
    assert ValidTransactions([tx]);
    SealOutcome(cfg, added, now);
    after := Seal(cfg, added, now).value;
    var state := ReplayAll(FinalizedTxs(l.blocks) + [tx]).value;
    OwnKeysFinalize(cfg, l.blocks[|l.blocks| - 1], now, [tx], state);
  }

  /** An idle chain seals and finalizes an appliable transaction at once, and is idle again. */
  lemma IdleSubmit(cfg: Config, l: Ledger, tx: Transaction, now: string) returns (after: Sealing)
    requires Idle(cfg, l) && Appliable(l, tx)
    ensures Submit(cfg, l, tx, true, true, now) == Ok(after)
    ensures after.block.Some? && after.block.value.finalized && Idle(cfg, after.ledger)
    ensures FinalizedTxs(after.ledger.blocks) == FinalizedTxs(l.blocks) + [tx]
  {
    assert l.pending + [tx] == [tx];
    after := IdleSeals(cfg, l, tx, now);
    assert Submit(cfg, l, tx, true, true, now) == Ok(after);
    SubmitKeeps(cfg, l, tx, true, true, now, after);
    TxsAppend(l.blocks, after.block.value);
  }

  /** There are at least as many genesis approvals as own keys. */
  lemma OwnKeysCount(cfg: Config)
    ensures |cfg.OwnKeys()| <= 1 + |cfg.extras|
  {
    ElementsCount(cfg.extras);
    assert cfg.OwnKeys() == {cfg.relay} + Elements(cfg.extras);
  }

  /** A chain with enough own keys, none of them repeated, starts and is idle. */
  lemma StartedIsIdle(cfg: Config, e: Entropy) returns (l: Ledger)
    requires e.id != "" && cfg.relay != "" && |cfg.OwnKeys()| >= cfg.Threshold()
    requires Distinct([cfg.relay] + cfg.extras)
    ensures Initialize(cfg, EMPTY_LEDGER, e) == Ok(l) && Idle(cfg, l)
    ensures FinalizedTxs(l.blocks) == [GenesisTx(cfg, e)] && Rows(l) == [GenesisTx(cfg, e)]
  {
    GenesisStarts(cfg, e);
    l := Initialize(cfg, EMPTY_LEDGER, e).value;
    EmptySafe(cfg);
    InitializeKeeps(cfg, EMPTY_LEDGER, e, l);
    OwnKeysCount(cfg);
    GenesisApprovals(cfg, e);
    InitializeAppends(cfg, EMPTY_LEDGER, e, l);
    InitializeGrows(cfg, EMPTY_LEDGER, e, l);
    assert l.blocks == [GenesisBlock(cfg, e)];
    AllFinalizedTxs(l.blocks);
  }

  // ---------------------------------------------------------------------------------------------
  // The transfer
  // ---------------------------------------------------------------------------------------------

  ghost predicate FreshIds(s: Ledger, d: Ledger, o: Order) {
    && o.burnId != "" && !IdTaken(Rows(s), o.burnId)
    && o.mintId != "" && !IdTaken(Rows(d), o.mintId)
  }

  lemma NextNonceFits(l: Ledger, key: Key)
    ensures NextNonce(l, key) >= 0 && NextNonce(l, key) > MaxNonce(Rows(l), key)
  {
    MaxNonceMeaning(Rows(l), key, NextNonce(l, key));
  }

  lemma BurnApplies(cs: Config, s: Ledger, cd: Config, o: Order)
    requires Idle(cs, s) && o.account != "" && o.amount > 0.0 && o.burnId != "" && !IdTaken(Rows(s), o.burnId)
    requires CachedNet(s.balances, o.account) >= o.amount
    ensures Appliable(s, BurnTx(cs, s, cd, o))
  {
    var done := FinalizedTxs(s.blocks);
    var burn := BurnTx(cs, s, cd, o);
    NextNonceFits(s, cs.relay);
    CachedIsNet(s, o.account);
    assert (done + [burn])[..|done|] == done;
  }

  lemma MintApplies(cs: Config, cd: Config, d: Ledger, o: Order, burn: Transaction, block: Block,
                    proof: Proof)
    requires Idle(cd, d) && o.account != "" && o.amount > 0.0 && o.mintId != "" && !IdTaken(Rows(d), o.mintId)
    ensures Appliable(d, MintTx(cs, cd, d, o, burn, block, proof))
  {
    NextNonceFits(d, cd.relay);
  }

  /** Every account holds what it held, and one of them so much more. */
  ghost predicate Shifted(before: Ledger, after: Ledger, account: Account, amount: real) {
    forall a :: CachedNet(after.balances, a)
             == CachedNet(before.balances, a) + if a == account then amount else 0.0
  }

  lemma ShiftedBy(before: Ledger, after: Ledger, tx: Transaction, account: Account, amount: real)
    requires CacheCurrent(before) && CacheCurrent(after)
    requires FinalizedTxs(after.blocks) == FinalizedTxs(before.blocks) + [tx]
    requires Shifts(tx.body, account, amount)
    ensures Shifted(before, after, account, amount)
  {
    forall a ensures CachedNet(after.balances, a)
                  == CachedNet(before.balances, a) + if a == account then amount else 0.0
    {
      CachedIsNet(before, a);
      CachedIsNet(after, a);
      NetAppend(FinalizedTxs(before.blocks), tx, a);
      assert CreditTo(tx.body, a) - DebitTo(tx.body, a) == if a == account then amount else 0.0;
    }
  }

  ghost predicate Shifts(body: TxBody, account: Account, amount: real) {
    forall a :: CreditTo(body, a) - DebitTo(body, a) == if a == account then amount else 0.0
  }

  lemma BurnShifts(cs: Config, s: Ledger, cd: Config, o: Order)
    ensures Shifts(BurnTx(cs, s, cd, o).body, o.account, -o.amount)
  {
  }

  lemma MintShifts(cs: Config, cd: Config, d: Ledger, o: Order, burn: Transaction, block: Block, proof: Proof)
    ensures Shifts(MintTx(cs, cd, d, o, burn, block, proof).body, o.account, o.amount)
  {
  }

  /** On chains that have their genesis blocks only the balance check stands before the burn. */
  lemma TransferIsBurned(cs: Config, s: Ledger, cd: Config, d: Ledger, o: Order, burned: Sealing)
    requires s.blocks != [] && d.blocks != [] && cs.chainId != cd.chainId && o.amount > 0.0
    ensures CachedNet(s.balances, o.account) < o.amount ==>
              Transfer(cs, s, cd, d, o, true) == Outcome(s, d, Err(InsufficientSourceBalance))
    ensures CachedNet(s.balances, o.account) >= o.amount
            && Submit(cs, s, BurnTx(cs, s, cd, o), true, true, o.now) == Ok(burned) ==>
              Transfer(cs, s, cd, d, o, true)
              == Burned(cs, s, cd, d, o, true, BurnTx(cs, s, cd, o), burned)
  {
    assert Transfer(cs, s, cd, d, o, true) == BurnFor(cs, s, cd, d, o, true);
  }

  /** Between two idle chains a transfer goes through exactly when the cached balance covers it.  Then
      the account has that much less on the source and that much more on the destination, nobody else
      is touched, and both chains are idle again; otherwise nothing changes. */
  lemma TransferMoves(cs: Config, s: Ledger, cd: Config, d: Ledger, o: Order, out: Outcome)
    requires PairSafe(cs, s, cd, d) && Idle(cs, s) && Idle(cd, d) && FreshIds(s, d, o)
    requires cs.chainId != cd.chainId && o.account != "" && o.amount > 0.0
    requires out == Transfer(cs, s, cd, d, o, true)
    ensures out.result.Ok? <==> CachedNet(s.balances, o.account) >= o.amount
    ensures out.result.Ok? ==>
              Idle(cs, out.source) && Idle(cd, out.dest)
              && Shifted(s, out.source, o.account, -o.amount)
              && Shifted(d, out.dest, o.account, o.amount)
    ensures out.result.Err? ==> out.source == s && out.dest == d
  {
    if CachedNet(s.balances, o.account) >= o.amount {
      BurnApplies(cs, s, cd, o);
      var burned := IdleSubmit(cs, s, BurnTx(cs, s, cd, o), o.now);
      TransferIsBurned(cs, s, cd, d, o, burned);
      BurnShifts(cs, s, cd, o);
      ShiftedBy(s, burned.ledger, BurnTx(cs, s, cd, o), o.account, -o.amount);
      BurnedMints(cs, s, cd, d, o, BurnTx(cs, s, cd, o), burned);
    } else {
      TransferIsBurned(cs, s, cd, d, o, Sealing(s, None));
    }
  }

  /** What is left after a final burn on chains that are otherwise idle: the mint goes through. */
  lemma BurnedMints(cs: Config, s: Ledger, cd: Config, d: Ledger, o: Order, burn: Transaction,
                    burned: Sealing)
    requires PairSafe(cs, s, cd, d) && s.blocks != [] && Idle(cd, d)
    requires o.account != "" && o.amount > 0.0 && o.mintId != "" && !IdTaken(Rows(d), o.mintId)
    requires burn == BurnTx(cs, s, cd, o) && Submit(cs, s, burn, true, true, o.now) == Ok(burned)
    requires burned.block.Some? && burned.block.value.finalized
    ensures var out := Burned(cs, s, cd, d, o, true, burn, burned);
            && out.result.Ok? && out.source == burned.ledger && Idle(cd, out.dest)
            && Shifted(d, out.dest, o.account, o.amount)
  {
    BurnReady(cs, s, cd, d, o, burn, burned);
    FinalBurned(cs, s, cd, d, o, burn, burned);
    MintGoesThrough(cs, burned.ledger, cd, d, o, burn, burned.block.value);
  }

  lemma BurnReady(cs: Config, s: Ledger, cd: Config, d: Ledger, o: Order, burn: Transaction, burned: Sealing)
    requires PairSafe(cs, s, cd, d) && s.blocks != []
    requires burn == BurnTx(cs, s, cd, o) && Submit(cs, s, burn, true, true, o.now) == Ok(burned)
    requires burned.block.Some? && burned.block.value.finalized
    ensures Safe(cs, burned.ledger) && BurnDone(cs, burned.ledger, o, burn, burned.block.value)
    ensures !MintedIn(Rows(d), ReceiptId(cs, burn.body, o.account, o.amount))
  {
    BurnKeeps(cs, s, cd, d, true, burn, o.now, burned);
    FreshBurnUnminted(cs, s, d, burn.body, o.account, o.amount);
  }

  lemma FinalBurned(cs: Config, s: Ledger, cd: Config, d: Ledger, o: Order, burn: Transaction, burned: Sealing)
    requires burned.block.Some? && burned.block.value.finalized
    ensures Burned(cs, s, cd, d, o, true, burn, burned)
         == MintFor(cs, burned.ledger, cd, d, o, true, burn, burned.block.value)
  {
  }

  lemma MintGoesThrough(cs: Config, s: Ledger, cd: Config, d: Ledger, o: Order, burn: Transaction, block: Block)
    requires Safe(cs, s) && Idle(cd, d) && BurnDone(cs, s, o, burn, block)
    requires o.account != "" && o.amount > 0.0 && o.mintId != "" && !IdTaken(Rows(d), o.mintId)
    requires !MintedIn(Rows(d), ReceiptId(cs, burn.body, o.account, o.amount))
    ensures var out := MintFor(cs, s, cd, d, o, true, burn, block);
            && out.result.Ok? && out.source == s && Idle(cd, out.dest)
            && Shifted(d, out.dest, o.account, o.amount)
  {
    MintForIsSubmit(cs, s, cd, d, o, true, burn, block);
    var proof := InclusionProof(s, block.hash, Hash(burn)).value;
    MintApplies(cs, cd, d, o, burn, block, proof);
    MintShifts(cs, cd, d, o, burn, block, proof);
    var mint := MintTx(cs, cd, d, o, burn, block, proof);
    var minted := IdleSubmit(cd, d, mint, o.now);
    ShiftedBy(d, minted.ledger, mint, o.account, o.amount);
  }
}
