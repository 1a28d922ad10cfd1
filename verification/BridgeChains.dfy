/** What each of two bridged chains keeps by itself, whatever is minted on it. */
module BridgeChains {
  import opened Hashing
  import opened Sequences
  import opened Blocks
  import opened Ledgers
  import opened LedgerSafety
  import opened Bridge
  import opened BridgeSafety
  import opened BridgeRuns

  // ---------------------------------------------------------------------------------------------
  // One transfer
  // ---------------------------------------------------------------------------------------------

  /** The chain is safe and has gained bridge transactions only. */
  ghost predicate Kept(cfg: Config, l: Ledger, after: Ledger) {
    Safe(cfg, after) && BridgeRows(l, after)
  }

  ghost predicate BothKept(cs: Config, s: Ledger, cd: Config, d: Ledger, out: Outcome) {
    Kept(cs, s, out.source) && Kept(cd, d, out.dest)
  }

  lemma KeptRefl(cfg: Config, l: Ledger)
    requires Safe(cfg, l)
    ensures Kept(cfg, l, l)
  {
    BridgeRowsRefl(l);
  }

  lemma KeptTransitive(cfg: Config, l: Ledger, m: Ledger, n: Ledger)
    requires Kept(cfg, l, m) && Kept(cfg, m, n)
    ensures Kept(cfg, l, n)
  {
    BridgeRowsTransitive(l, m, n);
  }

  lemma StartKept(cfg: Config, l: Ledger, e: Entropy, after: Ledger)
    requires Safe(cfg, l) && Initialize(cfg, l, e) == Ok(after)
    ensures Kept(cfg, l, after) && after.blocks != []
  {
    InitializeKeeps(cfg, l, e, after);
    InitializeGrows(cfg, l, e, after);
    GenesisRegisters(cfg, e);
  }

  lemma SubmitKept(cfg: Config, l: Ledger, tx: Transaction, autoSeal: bool, now: string, after: Sealing)
    requires Safe(cfg, l) && l.blocks != [] && BridgeOnly([tx])
    requires Submit(cfg, l, tx, true, autoSeal, now) == Ok(after)
    ensures Kept(cfg, l, after.ledger)
  {
    SubmitKeeps(cfg, l, tx, true, autoSeal, now, after);
    SubmitGrows(cfg, l, tx, true, autoSeal, now, after);
  }

  /** The transfer's last step leaves the destination alone or has it accept one mint. */
  ghost predicate AtMostMints(s: Ledger, cd: Config, d: Ledger, autoSeal: bool, now: string, out: Outcome) {
    out.source == s && (out.dest == d || SomeMint(cd, d, autoSeal, now, out.dest))
  }

  ghost predicate SomeMint(cd: Config, d: Ledger, autoSeal: bool, now: string, after: Ledger) {
    exists mint: Transaction ::
      var r := Submit(cd, d, mint, true, autoSeal, now);
      BridgeOnly([mint]) && r.Ok? && r.value.ledger == after
  }

  lemma MintForMints(cs: Config, s: Ledger, cd: Config, d: Ledger, o: Order, autoSeal: bool,
                     burn: Transaction, block: Block)
    ensures AtMostMints(s, cd, d, autoSeal, o.now, MintFor(cs, s, cd, d, o, autoSeal, burn, block))
  {
    var proof := InclusionProof(s, block.hash, Hash(burn));
    if proof.Ok? {
      assert BridgeOnly([MintTx(cs, cd, d, o, burn, block, proof.value)]);
    }
  }

  lemma MintKept(cs: Config, s: Ledger, cd: Config, d: Ledger, autoSeal: bool, now: string, out: Outcome)
    requires Safe(cs, s) && Safe(cd, d) && d.blocks != [] && AtMostMints(s, cd, d, autoSeal, now, out)
    ensures BothKept(cs, s, cd, d, out)
  {
    KeptRefl(cs, s);
    KeptRefl(cd, d);
    if out.dest != d {
      var mint: Transaction :|
        var r := Submit(cd, d, mint, true, autoSeal, now);
        BridgeOnly([mint]) && r.Ok? && r.value.ledger == out.dest;
      SubmitKept(cd, d, mint, autoSeal, now, Submit(cd, d, mint, true, autoSeal, now).value);
    }
  }

  lemma MintForKept(cs: Config, s: Ledger, cd: Config, d: Ledger, o: Order, autoSeal: bool,
                    burn: Transaction, block: Block, out: Outcome)
    requires Safe(cs, s) && Safe(cd, d) && d.blocks != []
    requires out == MintFor(cs, s, cd, d, o, autoSeal, burn, block)
    ensures BothKept(cs, s, cd, d, out)
  {
    MintForMints(cs, s, cd, d, o, autoSeal, burn, block);
    MintKept(cs, s, cd, d, autoSeal, o.now, out);
  }

  lemma BurnedKept(cs: Config, s: Ledger, cd: Config, d: Ledger, o: Order, autoSeal: bool,
                   burn: Transaction, sealing: Sealing)
    requires Safe(cs, s) && Safe(cd, d) && d.blocks != [] && Kept(cs, s, sealing.ledger)
    ensures BothKept(cs, s, cd, d, Burned(cs, s, cd, d, o, autoSeal, burn, sealing))
  {
    KeptRefl(cs, s);
    KeptRefl(cd, d);
    if sealing.block.Some? && sealing.block.value.finalized {
      var out := MintFor(cs, sealing.ledger, cd, d, o, autoSeal, burn, sealing.block.value);
      MintForKept(cs, sealing.ledger, cd, d, o, autoSeal, burn, sealing.block.value, out);
      KeptTransitive(cs, s, sealing.ledger, out.source);
    }
  }

  lemma BurnForKept(cs: Config, s: Ledger, cd: Config, d: Ledger, o: Order, autoSeal: bool)
    requires Safe(cs, s) && Safe(cd, d) && s.blocks != [] && d.blocks != []
    ensures BothKept(cs, s, cd, d, BurnFor(cs, s, cd, d, o, autoSeal))
  {
    KeptRefl(cs, s);
    KeptRefl(cd, d);
    var burn := BurnTx(cs, s, cd, o);
    var r := Submit(cs, s, burn, true, autoSeal, o.now);
    if r.Ok? {
      SubmitKept(cs, s, burn, autoSeal, o.now, r.value);
      BurnedKept(cs, s, cd, d, o, autoSeal, burn, r.value);
    }
  }

  lemma StartedKept(cs: Config, s: Ledger, s1: Ledger, cd: Config, d: Ledger, d1: Ledger, o: Order, autoSeal: bool)
    requires Kept(cs, s, s1) && Kept(cd, d, d1) && s1.blocks != [] && d1.blocks != []
    ensures BothKept(cs, s, cd, d, BurnFor(cs, s1, cd, d1, o, autoSeal))
  {
    var out := BurnFor(cs, s1, cd, d1, o, autoSeal);
    BurnForKept(cs, s1, cd, d1, o, autoSeal);
    KeptTransitive(cs, s, s1, out.source);
    KeptTransitive(cd, d, d1, out.dest);
  }

  /** A transfer keeps two safe chains safe and adds bridge transactions only, backed mints or not. */
  lemma TransferKept(cs: Config, s: Ledger, cd: Config, d: Ledger, o: Order, autoSeal: bool)
    requires Safe(cs, s) && Safe(cd, d)
    ensures BothKept(cs, s, cd, d, Transfer(cs, s, cd, d, o, autoSeal))
  {
    KeptRefl(cs, s);
    KeptRefl(cd, d);
    var s1, d1 := Initialize(cs, s, o.sourceGenesis), Initialize(cd, d, o.destGenesis);
    if o.amount > 0.0 && cs.chainId != cd.chainId && s1.Ok? {
      StartKept(cs, s, o.sourceGenesis, s1.value);
      if d1.Ok? {
        StartKept(cd, d, o.destGenesis, d1.value);
        StartedKept(cs, s, s1.value, cd, d, d1.value, o, autoSeal);
        assert Transfer(cs, s, cd, d, o, autoSeal) == BurnFor(cs, s1.value, cd, d1.value, o, autoSeal);
      } else {
        assert Transfer(cs, s, cd, d, o, autoSeal) == Outcome(s1.value, d, Err(d1.error));
      }
    }
  }

  // ---------------------------------------------------------------------------------------------
  // Runs
  // ---------------------------------------------------------------------------------------------

  ghost predicate ChainsSafe(ca: Config, cb: Config, w: World) {
    Safe(ca, w.a) && Safe(cb, w.b)
  }

  lemma HappensKeepsChains(ca: Config, cb: Config, w: World, event: Event)
    requires ChainsSafe(ca, cb, w)
    ensures ChainsSafe(ca, cb, Happens(ca, cb, w, event))
  {
    match event
    case Forth(o, autoSeal) => TransferKept(ca, w.a, cb, w.b, o, autoSeal);
    case Back(o, autoSeal) => TransferKept(cb, w.b, ca, w.a, o, autoSeal);
    case OnA(call, e) => AfterKeeps(ca, w.a, call, e);
    case OnB(call, e) => AfterKeeps(cb, w.b, call, e);
  }

  /** Over any run of two bridged chains, mints of any kind included, each chain is safe by itself. */
  lemma {:induction false} ChainsStaySafe(ca: Config, cb: Config, worlds: seq<World>, events: seq<Event>, k: nat)
    requires IsHistory(ca, cb, worlds, events) && k <= |events|
    ensures ChainsSafe(ca, cb, worlds[k])
  {
    if k == 0 {
      EmptyPairSafe(ca, cb);
    } else {
      ChainsStaySafe(ca, cb, worlds, events, k - 1);
      ChainsSafeNext(ca, cb, worlds, events, k);
    }
  }

  lemma ChainsSafeNext(ca: Config, cb: Config, worlds: seq<World>, events: seq<Event>, k: nat)
    requires IsHistory(ca, cb, worlds, events) && 0 < k <= |events| && ChainsSafe(ca, cb, worlds[k - 1])
    ensures ChainsSafe(ca, cb, worlds[k])
  {
    HappensKeepsChains(ca, cb, worlds[k - 1], events[k - 1]);
    assert HappensAt(ca, cb, worlds, events, k - 1);
  }
}
