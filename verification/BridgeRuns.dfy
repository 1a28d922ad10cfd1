/** Runs of two bridged chains. */
module BridgeRuns {
  import opened Hashing
  import opened Sequences
  import opened Blocks
  import opened Ledgers
  import opened LedgerSafety
  import opened LedgerTheorems
  import opened Bridge
  import opened BridgeSafety

  datatype World = World(a: Ledger, b: Ledger)

  /** A transfer either way, or any call on one of the chains. */
  datatype Event =
    | Forth(order: Order, autoSeal: bool)
    | Back(order: Order, autoSeal: bool)
    | OnA(call: Call, e: Entropy)
    | OnB(call: Call, e: Entropy)

  function Happens(ca: Config, cb: Config, w: World, event: Event): World {
    match event
    case Forth(o, autoSeal) =>
      var out := Transfer(ca, w.a, cb, w.b, o, autoSeal);
      World(out.source, out.dest)
    case Back(o, autoSeal) =>
      var out := Transfer(cb, w.b, ca, w.a, o, autoSeal);
      World(out.dest, out.source)
    case OnA(call, e) => World(After(ca, w.a, call, e), w.b)
    case OnB(call, e) => World(w.a, After(cb, w.b, call, e))
  }

  /** Event k makes world k + 1 of world k. */
  ghost predicate HappensAt(ca: Config, cb: Config, worlds: seq<World>, events: seq<Event>, k: nat)
    requires k < |events| && k + 1 < |worlds|
  {
    worlds[k + 1] == Happens(ca, cb, worlds[k], events[k])
  }

  /** The worlds of a run from two empty chains. */
  ghost predicate IsHistory(ca: Config, cb: Config, worlds: seq<World>, events: seq<Event>) {
    && |worlds| == |events| + 1 && worlds[0] == World(EMPTY_LEDGER, EMPTY_LEDGER)
    && forall k {:trigger HappensAt(ca, cb, worlds, events, k)} ::
         0 <= k < |events| ==> HappensAt(ca, cb, worlds, events, k)
  }

  /** Any events can happen one after the other. */
  lemma {:induction false} HistoryExists(ca: Config, cb: Config, events: seq<Event>) returns (worlds: seq<World>)
    ensures IsHistory(ca, cb, worlds, events)
  {
    if events == [] {
      worlds := [World(EMPTY_LEDGER, EMPTY_LEDGER)];
    } else {
      var n := |events| - 1;
      var before := HistoryExists(ca, cb, events[..n]);
      worlds := before + [Happens(ca, cb, before[n], events[n])];
      forall k | 0 <= k < |events| ensures HappensAt(ca, cb, worlds, events, k) {
        if k < n {
          assert HappensAt(ca, cb, before, events[..n], k);
        }
      }
    }
  }

  // ---------------------------------------------------------------------------------------------
  // Mints submitted past the bridge
  // ---------------------------------------------------------------------------------------------

  /** The submission gets past the checks of submit_transaction. */
  predicate Accepted(cfg: Config, l: Ledger, call: Call, e: Entropy)
    requires call.CallSubmit?
  {
    var started := Initialize(cfg, l, e);
    started.Ok? && Submit(cfg, started.value, call.tx, call.requireSignature, call.autoSeal, e.now).Ok?
  }

  /** If the call on chain d submits a mint that is accepted, a final burn of chain s backs it and its
      receipt is not minted yet. */
  ghost predicate MintFine(cs: Config, s: Ledger, cd: Config, d: Ledger, call: Call, e: Entropy) {
    call.CallSubmit? && call.tx.body.payload.BridgeMint? && Accepted(cd, d, call, e) ==>
      MintAllowed(cs, s, d, call.tx.body)
  }

  ghost predicate EventFine(ca: Config, cb: Config, w: World, event: Event) {
    match event
    case OnA(call, e) => MintFine(cb, w.b, ca, w.a, call, e)
    case OnB(call, e) => MintFine(ca, w.a, cb, w.b, call, e)
    case _ => true
  }

  ghost predicate EventFineAt(ca: Config, cb: Config, worlds: seq<World>, events: seq<Event>, k: nat)
    requires k < |events| && k < |worlds|
  {
    EventFine(ca, cb, worlds[k], events[k])
  }

  /** Every mint submitted past the bridge is backed and new when it is submitted. */
  ghost predicate MintsFine(ca: Config, cb: Config, worlds: seq<World>, events: seq<Event>)
    requires |events| <= |worlds|
  {
    forall k {:trigger EventFineAt(ca, cb, worlds, events, k)} ::
      0 <= k < |events| ==> EventFineAt(ca, cb, worlds, events, k)
  }

  lemma MintFreeCallKeeps(ca: Config, a: Ledger, cb: Config, b: Ledger, call: Call, e: Entropy)
    requires PairSafe(ca, a, cb, b) && (call.CallSubmit? ==> !call.tx.body.payload.BridgeMint?)
    ensures PairSafe(ca, After(ca, a, call, e), cb, b)
  {
    var after := After(ca, a, call, e);
    AfterKeeps(ca, a, call, e);
    var added := AfterGrows(ca, a, call, e);
    GrowthKeepsBacked(ca, a, after, cb, b, added);
  }

  lemma RefusedCall(cfg: Config, l: Ledger, call: Call, e: Entropy)
    requires call.CallSubmit? && !Accepted(cfg, l, call, e)
    ensures After(cfg, l, call, e) == Keep(Initialize(cfg, l, e), l)
  {
  }

  lemma AcceptedCall(cfg: Config, l: Ledger, call: Call, e: Entropy, started: Ledger, after: Sealing)
    requires call.CallSubmit? && Initialize(cfg, l, e) == Ok(started)
    requires Submit(cfg, started, call.tx, call.requireSignature, call.autoSeal, e.now) == Ok(after)
    ensures After(cfg, l, call, e) == after.ledger
  {
  }

  lemma GenesisMintsNothing(cfg: Config, l: Ledger, e: Entropy, started: Ledger, receipt: Digest)
    requires Initialize(cfg, l, e) == Ok(started) && (l.blocks == [] ==> l.pending == [])
    ensures MintedIn(Rows(started), receipt) <==> MintedIn(Rows(l), receipt)
  {
    InitializeGrows(cfg, l, e, started);
    GenesisRegisters(cfg, e);
    if MintedIn(Rows(l), receipt) {
      var k :| 0 <= k < |Rows(l)| && Rows(l)[k].body.payload.BridgeMint?
               && Rows(l)[k].body.payload.receipt == Some(receipt);
      assert Rows(started)[k] == Rows(l)[k];
    }
  }

  lemma MintCallIff(ca: Config, a: Ledger, cb: Config, b: Ledger, call: Call, e: Entropy)
    requires PairSafe(ca, a, cb, b) && call.CallSubmit? && call.tx.body.payload.BridgeMint?
    ensures PairSafe(ca, After(ca, a, call, e), cb, b) <==> MintFine(cb, b, ca, a, call, e)
  {
    var started := Initialize(ca, a, e);
    if started.Ok? {
      StartKeeps(ca, a, cb, b, e, started.value);
    }
    if Accepted(ca, a, call, e) {
      var after := Submit(ca, started.value, call.tx, call.requireSignature, call.autoSeal, e.now).value;
      AcceptedCall(ca, a, call, e, started.value, after);
      MintSubmitIff(cb, b, ca, started.value, call.tx, call.requireSignature, call.autoSeal, e.now, after);
      if BackedMint(cb, b, call.tx.body) {
        GenesisMintsNothing(ca, a, e, started.value, call.tx.body.payload.receipt.value);
      }
    } else {
      RefusedCall(ca, a, call, e);
    }
  }

  /** A call on one chain keeps the pair safe exactly when it does not get an unbacked or repeated mint
      accepted. */
  lemma CallKeepsIff(ca: Config, a: Ledger, cb: Config, b: Ledger, call: Call, e: Entropy)
    requires PairSafe(ca, a, cb, b)
    ensures PairSafe(ca, After(ca, a, call, e), cb, b) <==> MintFine(cb, b, ca, a, call, e)
  {
    if call.CallSubmit? && call.tx.body.payload.BridgeMint? {
      MintCallIff(ca, a, cb, b, call, e);
    } else {
      MintFreeCallKeeps(ca, a, cb, b, call, e);
    }
  }

  ghost predicate WorldSafe(ca: Config, cb: Config, w: World) {
    PairSafe(ca, w.a, cb, w.b)
  }

  lemma HappensKeepsIff(ca: Config, cb: Config, w: World, event: Event)
    requires WorldSafe(ca, cb, w)
    ensures WorldSafe(ca, cb, Happens(ca, cb, w, event)) <==> EventFine(ca, cb, w, event)
  {
    match event
    case Forth(o, autoSeal) =>
      TransferKeeps(ca, w.a, cb, w.b, o, autoSeal, Transfer(ca, w.a, cb, w.b, o, autoSeal));
    case Back(o, autoSeal) =>
      TransferKeeps(cb, w.b, ca, w.a, o, autoSeal, Transfer(cb, w.b, ca, w.a, o, autoSeal));
    case OnA(call, e) => CallKeepsIff(ca, w.a, cb, w.b, call, e);
    case OnB(call, e) => CallKeepsIff(cb, w.b, ca, w.a, call, e);
  }

  lemma EmptyPairSafe(ca: Config, cb: Config)
    ensures PairSafe(ca, EMPTY_LEDGER, cb, EMPTY_LEDGER)
  {
    EmptySafe(ca);
    EmptySafe(cb);
    assert Rows(EMPTY_LEDGER) == [];
  }

  lemma HappensKeepsAt(ca: Config, cb: Config, worlds: seq<World>, events: seq<Event>, k: nat)
    requires IsHistory(ca, cb, worlds, events) && k < |events| && WorldSafe(ca, cb, worlds[k])
    ensures WorldSafe(ca, cb, worlds[k + 1]) <==> EventFineAt(ca, cb, worlds, events, k)
  {
    HappensKeepsIff(ca, cb, worlds[k], events[k]);
    assert HappensAt(ca, cb, worlds, events, k);
  }

  /** Over any run of two bridged chains both stay safe and back each other's mints, as long as mints
      submitted past the bridge are backed and new. */
  lemma {:induction false} HistoryIsSafe(ca: Config, cb: Config, worlds: seq<World>, events: seq<Event>, k: nat)
    requires IsHistory(ca, cb, worlds, events) && MintsFine(ca, cb, worlds, events) && k <= |events|
    ensures WorldSafe(ca, cb, worlds[k])
  {
    if k == 0 {
      EmptyPairSafe(ca, cb);
    } else {
      HistoryIsSafe(ca, cb, worlds, events, k - 1);
      FineKeeps(ca, cb, worlds, events, k);
    }
  }

  lemma FineKeeps(ca: Config, cb: Config, worlds: seq<World>, events: seq<Event>, k: nat)
    requires IsHistory(ca, cb, worlds, events) && MintsFine(ca, cb, worlds, events)
    requires 0 < k <= |events| && WorldSafe(ca, cb, worlds[k - 1])
    ensures WorldSafe(ca, cb, worlds[k])
  {
    HappensKeepsAt(ca, cb, worlds, events, k - 1);
    assert EventFineAt(ca, cb, worlds, events, k - 1);
  }

  /** The two chains are safe and back each other's mints all through a run exactly when every mint
      submitted past the bridge is backed and new when it is accepted. */
  lemma HistorySafeIff(ca: Config, cb: Config, worlds: seq<World>, events: seq<Event>)
    requires IsHistory(ca, cb, worlds, events)
    ensures (forall k :: 0 <= k <= |events| ==> WorldSafe(ca, cb, worlds[k])) <==>
            MintsFine(ca, cb, worlds, events)
  {
    if MintsFine(ca, cb, worlds, events) {
      forall k | 0 <= k <= |events| ensures WorldSafe(ca, cb, worlds[k]) {
        HistoryIsSafe(ca, cb, worlds, events, k);
      }
    } else {
      var k :| 0 <= k < |events| && !EventFineAt(ca, cb, worlds, events, k);
      if WorldSafe(ca, cb, worlds[k]) {
        HappensKeepsAt(ca, cb, worlds, events, k);
      }
    }
  }
}
