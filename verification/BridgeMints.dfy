/** What happens when a mint is submitted past the bridge and nothing backs it. */
module BridgeMints {
  import opened Hashing
  import opened Sequences
  import opened Replay
  import opened ReplayMeaning
  import opened Blocks
  import opened Ledgers
  import opened LedgerSafety
  import opened Bridge
  import opened BridgeSafety
  import opened BridgeRuns
  import opened BridgeConservation
  import opened BridgeTransfers

  /** A mint that names no burn of any chain, signed by a stranger to the chain. */
  function StrayMint(cfg: Config, e: Entropy): Transaction {
    SignedBy(cfg.relay + "'",
             TxBody(e.id + "'", cfg.relay + "'", 0, e.now,
                    BridgeMint("account", Amount(5.0), Some(ZeroHash), "", ZeroHash, ZeroHash, 0,
                               Proof(ZeroHash, 0, ZeroHash, []))))
  }

  lemma StrayMintApplies(cfg: Config, e: Entropy, l: Ledger)
    requires Rows(l) == [GenesisTx(cfg, e)]
    ensures Appliable(l, StrayMint(cfg, e))
  {
    var mint := StrayMint(cfg, e);
    assert [GenesisTx(cfg, e)][..0] == [];
    assert MaxNonce([], mint.body.sender) == -1;
    assert |cfg.relay + "'"| != |cfg.relay| && |e.id + "'"| != |e.id|;
  }

  /** The events of the failing run: the second chain starts, and a stray mint is submitted to it. */
  function StrayRun(cfg: Config, e: Entropy): seq<Event> {
    [OnB(CallStart, e), OnB(CallSubmit(StrayMint(cfg, e), true, true), e)]
  }

  lemma TwoTerms(f: Transaction -> real, x: Transaction, y: Transaction)
    ensures Sum(f, [x] + [y]) == f(x) + f(y)
  {
    SumFirst(f, x, [y]);
    SumFirst(f, y, []);
    assert [y] + [] == [y];
  }

  lemma StrayHoldings(cfg: Config, e: Entropy, l: Ledger)
    requires CacheCurrent(l) && FinalizedTxs(l.blocks) == [GenesisTx(cfg, e)] + [StrayMint(cfg, e)]
    ensures Holdings(l) == 5.0 && Earned(FinalizedTxs(l.blocks)) == 0.0
  {
    HoldingsSplit(l);
    TwoTerms(EarnedTerm(), GenesisTx(cfg, e), StrayMint(cfg, e));
    TwoTerms(MintedTerm(), GenesisTx(cfg, e), StrayMint(cfg, e));
    TwoTerms(BurnedTerm(), GenesisTx(cfg, e), StrayMint(cfg, e));
  }

  lemma EmptyHoldings(cfg: Config)
    ensures Holdings(EMPTY_LEDGER) == 0.0 && FinalizedTxs(EMPTY_LEDGER.blocks) == []
    ensures Earned([]) == 0.0
  {
  }

  lemma StartHappens(ca: Config, cb: Config, e: Entropy, started: Ledger)
    requires Initialize(cb, EMPTY_LEDGER, e) == Ok(started)
    ensures Happens(ca, cb, World(EMPTY_LEDGER, EMPTY_LEDGER), OnB(CallStart, e)) == World(EMPTY_LEDGER, started)
  {
  }

  lemma SubmitHappens(ca: Config, cb: Config, started: Ledger, mint: Transaction, e: Entropy, after: Sealing)
    requires started.blocks != [] && Submit(cb, started, mint, true, true, e.now) == Ok(after)
    ensures Accepted(cb, started, CallSubmit(mint, true, true), e)
    ensures Happens(ca, cb, World(EMPTY_LEDGER, started), OnB(CallSubmit(mint, true, true), e))
         == World(EMPTY_LEDGER, after.ledger)
  {
    AcceptedCall(cb, started, CallSubmit(mint, true, true), e, started, after);
  }

  lemma NotBacked(ca: Config, mint: TxBody)
    ensures !BackedMint(ca, EMPTY_LEDGER, mint)
  {
    EmptyHoldings(ca);
  }

  lemma NotFine(ca: Config, cb: Config, started: Ledger, mint: Transaction, e: Entropy, after: Sealing)
    requires Safe(cb, started) && started.blocks != [] && Backed(ca, EMPTY_LEDGER, started)
    requires mint.body.payload.BridgeMint? && Submit(cb, started, mint, true, true, e.now) == Ok(after)
    ensures !EventFine(ca, cb, World(EMPTY_LEDGER, started), OnB(CallSubmit(mint, true, true), e))
    ensures !WorldSafe(ca, cb, World(EMPTY_LEDGER, after.ledger))
  {
    SubmitHappens(ca, cb, started, mint, e, after);
    NotBacked(ca, mint.body);
    SubmitGrows(cb, started, mint, true, true, e.now, after);
    AllowedIffBacked(ca, EMPTY_LEDGER, started, after.ledger, mint);
  }

  lemma StartBacked(ca: Config, cb: Config, e: Entropy, started: Ledger)
    requires Rows(started) == [GenesisTx(cb, e)]
    ensures Backed(ca, EMPTY_LEDGER, started)
  {
  }

  lemma TwoEvents(ca: Config, cb: Config, worlds: seq<World>, events: seq<Event>)
    requires |worlds| == 3 && |events| == 2 && worlds[0] == World(EMPTY_LEDGER, EMPTY_LEDGER)
    requires worlds[1] == Happens(ca, cb, worlds[0], events[0])
    requires worlds[2] == Happens(ca, cb, worlds[1], events[1])
    ensures IsHistory(ca, cb, worlds, events)
  {
    OneEvent(ca, cb, worlds, events, 0);
    OneEvent(ca, cb, worlds, events, 1);
  }

  lemma OneEvent(ca: Config, cb: Config, worlds: seq<World>, events: seq<Event>, k: nat)
    requires k < |events| && k + 1 < |worlds| && worlds[k + 1] == Happens(ca, cb, worlds[k], events[k])
    ensures HappensAt(ca, cb, worlds, events, k)
  {
  }

  /** The run, and its three worlds. */
  lemma StrayWorlds(ca: Config, cb: Config, e: Entropy) returns (started: Ledger, after: Sealing)
    requires e.id != "" && cb.relay != "" && |cb.OwnKeys()| >= cb.Threshold()
    requires Distinct([cb.relay] + cb.extras)
    ensures Safe(cb, started) && started.blocks != [] && Backed(ca, EMPTY_LEDGER, started)
    ensures Submit(cb, started, StrayMint(cb, e), true, true, e.now) == Ok(after)
    ensures CacheCurrent(after.ledger)
    ensures FinalizedTxs(after.ledger.blocks) == [GenesisTx(cb, e)] + [StrayMint(cb, e)]
    ensures IsHistory(ca, cb, [World(EMPTY_LEDGER, EMPTY_LEDGER), World(EMPTY_LEDGER, started),
                               World(EMPTY_LEDGER, after.ledger)], StrayRun(cb, e))
  {
    started := StartedIsIdle(cb, e);
    StrayMintApplies(cb, e, started);
    after := IdleSubmit(cb, started, StrayMint(cb, e), e.now);
    StartBacked(ca, cb, e, started);
    StartHappens(ca, cb, e, started);
    SubmitHappens(ca, cb, started, StrayMint(cb, e), e, after);
    TwoEvents(ca, cb, [World(EMPTY_LEDGER, EMPTY_LEDGER), World(EMPTY_LEDGER, started),
                       World(EMPTY_LEDGER, after.ledger)], StrayRun(cb, e));
  }

  /** Whatever the first chain, and whatever chain with enough keys of its own is the second: a stray mint
      is accepted, sealed and final there, and the two balance tables hold five seconds that no job brought
      in.  The condition of HistorySafeIff is what this run breaks. */
  lemma StrayMintInflates(ca: Config, cb: Config, e: Entropy) returns (worlds: seq<World>)
    requires e.id != "" && cb.relay != "" && |cb.OwnKeys()| >= cb.Threshold()
    requires Distinct([cb.relay] + cb.extras)
    ensures IsHistory(ca, cb, worlds, StrayRun(cb, e)) && !MintsFine(ca, cb, worlds, StrayRun(cb, e))
    ensures !WorldSafe(ca, cb, worlds[2])
    ensures Holdings(worlds[2].a) + Holdings(worlds[2].b)
          > Earned(FinalizedTxs(worlds[2].a.blocks)) + Earned(FinalizedTxs(worlds[2].b.blocks))
  {
    var started, after := StrayWorlds(ca, cb, e);
    worlds := [World(EMPTY_LEDGER, EMPTY_LEDGER), World(EMPTY_LEDGER, started), World(EMPTY_LEDGER, after.ledger)];
    NotFine(ca, cb, started, StrayMint(cb, e), e, after);
    assert !EventFineAt(ca, cb, worlds, StrayRun(cb, e), 1);
    StrayHoldings(cb, e, after.ledger);
    EmptyHoldings(ca);
  }
}
