/** What a pair of bridged chains holds: the cached balances of both, the burns still in flight and the
    job seconds still waiting always add up to the seconds that jobs brought in. */
module BridgeConservation {
  import opened Hashing
  import opened Sequences
  import opened Replay
  import opened ReplayMeaning
  import opened Blocks
  import opened Ledgers
  import opened LedgerSafety
  import opened LedgerTheorems
  import opened Bridge
  import opened BridgeSafety
  import opened BridgeRuns
  import opened BridgeChains

  // ---------------------------------------------------------------------------------------------
  // Terms
  // ---------------------------------------------------------------------------------------------

  ghost function BurnedTerm(): Transaction -> real {
    (t: Transaction) => if t.body.payload.BridgeBurn? then SecondsOf(t.body.payload.burned) else 0.0
  }

  ghost function MintedTerm(): Transaction -> real {
    (t: Transaction) => if t.body.payload.BridgeMint? then SecondsOf(t.body.payload.minted) else 0.0
  }

  /** Job seconds nobody is debited for. */
  function EarnedBy(t: Transaction): real {
    if t.body.payload.JobCompleted? && t.body.payload.consumer == ""
    then SecondsOf(t.body.payload.gpuSeconds) else 0.0
  }

  ghost function EarnedTerm(): Transaction -> real {
    (t: Transaction) => EarnedBy(t)
  }

  ghost function Earned(txs: seq<Transaction>): real { Sum(EarnedTerm(), txs) }

  function BurnReceipt(cs: Config): Transaction -> Digest {
    (t: Transaction) =>
      if t.body.payload.BridgeBurn?
      then ReceiptId(cs, t.body, t.body.payload.burnAccount, SecondsOf(t.body.payload.burned))
      else ZeroHash
  }

  /** A burn that some mint of the other chain pays out. */
  predicate PaidBy(cs: Config, mints: seq<Transaction>, t: Transaction) {
    t.body.payload.BridgeBurn? && MintedIn(mints, BurnReceipt(cs)(t))
  }

  function PaidSeconds(cs: Config, mints: seq<Transaction>, t: Transaction): real {
    if PaidBy(cs, mints, t) then SecondsOf(t.body.payload.burned) else 0.0
  }

  function UnpaidSeconds(cs: Config, mints: seq<Transaction>, t: Transaction): real {
    if t.body.payload.BridgeBurn? && !PaidBy(cs, mints, t)
    then SecondsOf(t.body.payload.burned) else 0.0
  }

  ghost function IsPaidBurn(cs: Config, mints: seq<Transaction>): Transaction -> bool {
    (t: Transaction) => PaidBy(cs, mints, t)
  }

  ghost function PaidTerm(cs: Config, mints: seq<Transaction>): Transaction -> real {
    (t: Transaction) => PaidSeconds(cs, mints, t)
  }

  ghost function UnpaidTerm(cs: Config, mints: seq<Transaction>): Transaction -> real {
    (t: Transaction) => UnpaidSeconds(cs, mints, t)
  }

  ghost function RowNet(): Row -> real {
    (r: Row) => r.credit - r.debit
  }

  ghost function ReceiptAmount(): Digest -> real {
    (d: Digest) => if d.ReceiptHash? then d.amount else 0.0
  }

  // ---------------------------------------------------------------------------------------------
  // What a pair of chains holds
  // ---------------------------------------------------------------------------------------------

  /** Net credit in the cached balance table. */
  ghost function Holdings(l: Ledger): real { Sum(RowNet(), l.balances) }

  /** Seconds of final burns that no final mint of the other chain pays out yet. */
  ghost function InFlight(cs: Config, s: Ledger, d: Ledger): real {
    Sum(UnpaidTerm(cs, FinalizedTxs(d.blocks)), FinalizedTxs(s.blocks))
  }

  /** Seconds of the final mints beyond those of the final burns they pay out. */
  ghost function Unbacked(cs: Config, s: Ledger, d: Ledger): real {
    var burns, mints := FinalizedTxs(s.blocks), FinalizedTxs(d.blocks);
    Sum(MintedTerm(), mints) - Sum(PaidTerm(cs, mints), burns)
  }

  ghost function UnbackedBoth(ca: Config, cb: Config, w: World): real {
    Unbacked(ca, w.a, w.b) + Unbacked(cb, w.b, w.a)
  }

  /** Job seconds in transactions that are not final yet: those after the final ones. */
  ghost function Waiting(l: Ledger): real {
    var n := |FinalizedTxs(l.blocks)|;
    if n <= |Rows(l)| then Earned(Rows(l)[n..]) else 0.0
  }

  ghost function Worth(ca: Config, cb: Config, w: World): real {
    Holdings(w.a) + Holdings(w.b) + InFlight(ca, w.a, w.b) + InFlight(cb, w.b, w.a)
    + Waiting(w.a) + Waiting(w.b)
  }

  // ---------------------------------------------------------------------------------------------
  // The cached table sums to what was issued
  // ---------------------------------------------------------------------------------------------

  lemma SumFirst<T(!new)>(f: T -> real, x: T, rest: seq<T>)
    ensures Sum(f, [x] + rest) == f(x) + Sum(f, rest)
  {
    SumConcat(f, [x], rest);
    SumAppend(f, [], x);
    assert [] + [x] == [x];
  }

  lemma {:induction false} RowsSum(accounts: seq<Account>, c: Credits)
    ensures Sum(RowNet(), RowsFor(accounts, c)) == Sum(NetTerm(c), accounts)
  {
    if accounts != [] {
      var a, rest := accounts[0], accounts[1..];
      RowsSum(rest, c);
      SumFirst(RowNet(), Row(a, c.Lookup(a).credit, c.Lookup(a).debit), RowsFor(rest, c));
      SumFirst(NetTerm(c), a, rest);
      assert accounts == [a] + rest;
    }
  }

  lemma TableSum(c: Credits)
    ensures Sum(RowNet(), c.ToList()) == TotalNet(c)
  {
    StringOrder();
    SortProperties(StringLeq, c.order);
    RowsSum(Sort(StringLeq, c.order), c);
    SumPermutation(NetTerm(c), Sort(StringLeq, c.order), c.order);
  }

  lemma {:induction false} IssuedSplits(txs: seq<Transaction>)
    ensures TotalIssued(txs) == Earned(txs) + Sum(MintedTerm(), txs) - Sum(BurnedTerm(), txs)
  {
    if txs != [] {
      IssuedSplits(txs[..|txs| - 1]);
    }
  }

  /** The cached table holds the final job seconds, plus the mints, minus the burns. */
  lemma HoldingsSplit(l: Ledger)
    requires CacheCurrent(l)
    ensures var txs := FinalizedTxs(l.blocks);
            Holdings(l) == Earned(txs) + Sum(MintedTerm(), txs) - Sum(BurnedTerm(), txs)
  {
    var txs := FinalizedTxs(l.blocks);
    TableSum(ReplayAll(txs).value);
    Conservation(txs);
    IssuedSplits(txs);
  }

  // ---------------------------------------------------------------------------------------------
  // Burns in flight
  // ---------------------------------------------------------------------------------------------

  lemma {:induction false} BurnsSplit(cs: Config, burns: seq<Transaction>, mints: seq<Transaction>)
    ensures Sum(BurnedTerm(), burns) == Sum(PaidTerm(cs, mints), burns) + Sum(UnpaidTerm(cs, mints), burns)
  {
    if burns != [] {
      var t := burns[|burns| - 1];
      BurnsSplit(cs, burns[..|burns| - 1], mints);
      assert BurnedTerm()(t) == PaidSeconds(cs, mints, t) + UnpaidSeconds(cs, mints, t);
    }
  }

  /** What InFlight needs to know of the final transactions of two chains. */
  ghost predicate Matched(cs: Config, burns: seq<Transaction>, mints: seq<Transaction>) {
    && (forall i, k :: 0 <= i < k < |burns| ==> burns[i].body != burns[k].body)
    && DistinctKeys(IsMint(), MintReceipt(), mints)
    && (forall k :: 0 <= k < |mints| && mints[k].body.payload.BridgeMint? ==>
          exists burn :: burn in burns && PaysOut(cs, burn.body, mints[k].body))
  }

  lemma FinalMatched(cs: Config, s: Ledger, d: Ledger)
    requires Backed(cs, s, d) && AllFresh(Rows(s)) && OnlyTipOpen(s.blocks) && OnlyTipOpen(d.blocks)
    ensures Matched(cs, FinalizedTxs(s.blocks), FinalizedTxs(d.blocks))
  {
    var burns, mints := FinalizedTxs(s.blocks), FinalizedTxs(d.blocks);
    FinalizedPrefix(s.blocks);
    FinalizedPrefix(d.blocks);
    forall i, k | 0 <= i < k < |burns| ensures burns[i].body != burns[k].body {
      assert burns[i] == Rows(s)[i] && burns[k] == Rows(s)[k] && FreshNonce(Rows(s), k);
    }
    forall k | 0 <= k < |mints| && mints[k].body.payload.BridgeMint?
      ensures exists burn :: burn in burns && PaysOut(cs, burn.body, mints[k].body)
    {
      assert mints[k] == Rows(d)[k];
      assert BackedMint(cs, s, Rows(d)[k].body);
    }
    forall i, k | 0 <= i < k < |mints| && IsMint()(mints[i]) && IsMint()(mints[k])
      ensures MintReceipt()(mints[i]) != MintReceipt()(mints[k])
    {
      assert mints[i] == Rows(d)[i] && mints[k] == Rows(d)[k];
    }
  }

  lemma PaidKeys(cs: Config, burns: seq<Transaction>, mints: seq<Transaction>)
    requires Matched(cs, burns, mints)
    ensures Distinct(Keys(IsPaidBurn(cs, mints), BurnReceipt(cs), burns))
    ensures Sum(PaidTerm(cs, mints), burns)
         == Sum(ReceiptAmount(), Keys(IsPaidBurn(cs, mints), BurnReceipt(cs), burns))
  {
    var p, key := IsPaidBurn(cs, mints), BurnReceipt(cs);
    forall i, k | 0 <= i < k < |burns| && p(burns[i]) && p(burns[k])
      ensures key(burns[i]) != key(burns[k])
    {
      assert burns[i].body != burns[k].body;
    }
    KeysDistinct(p, key, burns);
    SumOverKeys(PaidTerm(cs, mints), p, key, ReceiptAmount(), burns);
  }

  lemma MintKeys(cs: Config, burns: seq<Transaction>, mints: seq<Transaction>)
    requires Matched(cs, burns, mints)
    ensures Distinct(Keys(IsMint(), MintReceipt(), mints))
    ensures Sum(MintedTerm(), mints) == Sum(ReceiptAmount(), Keys(IsMint(), MintReceipt(), mints))
  {
    KeysDistinct(IsMint(), MintReceipt(), mints);
    forall k | 0 <= k < |mints|
      ensures MintedTerm()(mints[k])
           == if IsMint()(mints[k]) then ReceiptAmount()(MintReceipt()(mints[k])) else 0.0
    {
      if mints[k].body.payload.BridgeMint? {
        var burn :| burn in burns && PaysOut(cs, burn.body, mints[k].body);
      }
    }
    SumOverKeys(MintedTerm(), IsMint(), MintReceipt(), ReceiptAmount(), mints);
  }

  lemma BurnOfMint(cs: Config, burns: seq<Transaction>, mints: seq<Transaction>, k: nat) returns (i: nat)
    requires Matched(cs, burns, mints) && k < |mints| && IsMint()(mints[k])
    ensures i < |burns| && IsPaidBurn(cs, mints)(burns[i])
    ensures BurnReceipt(cs)(burns[i]) == MintReceipt()(mints[k])
  {
    var burn :| burn in burns && PaysOut(cs, burn.body, mints[k].body);
    i :| 0 <= i < |burns| && burns[i] == burn;
    assert MintedIn(mints, BurnReceipt(cs)(burns[i]));
  }

  /** The receipts of the mints are the receipts of the burns that were paid out. */
  lemma SameReceipts(cs: Config, burns: seq<Transaction>, mints: seq<Transaction>, r: Digest)
    requires Matched(cs, burns, mints)
    ensures r in Keys(IsMint(), MintReceipt(), mints)
       <==> r in Keys(IsPaidBurn(cs, mints), BurnReceipt(cs), burns)
  {
    KeysElements(IsMint(), MintReceipt(), mints, r);
    KeysElements(IsPaidBurn(cs, mints), BurnReceipt(cs), burns, r);
    if k :| 0 <= k < |mints| && IsMint()(mints[k]) && MintReceipt()(mints[k]) == r {
      var i := BurnOfMint(cs, burns, mints, k);
    }
    if r in Keys(IsPaidBurn(cs, mints), BurnReceipt(cs), burns) {
      var i :| 0 <= i < |burns| && IsPaidBurn(cs, mints)(burns[i]) && BurnReceipt(cs)(burns[i]) == r;
      var k :| 0 <= k < |mints| && mints[k].body.payload.BridgeMint?
               && mints[k].body.payload.receipt == Some(r);
      assert IsMint()(mints[k]) && MintReceipt()(mints[k]) == r;
    }
  }

  lemma MintsArePaidBurns(cs: Config, burns: seq<Transaction>, mints: seq<Transaction>)
    requires Matched(cs, burns, mints)
    ensures Sum(MintedTerm(), mints) == Sum(PaidTerm(cs, mints), burns)
  {
    PaidKeys(cs, burns, mints);
    MintKeys(cs, burns, mints);
    var paid := Keys(IsPaidBurn(cs, mints), BurnReceipt(cs), burns);
    var minted := Keys(IsMint(), MintReceipt(), mints);
    forall r ensures r in minted <==> r in paid {
      SameReceipts(cs, burns, mints, r);
    }
    DistinctSame(minted, paid);
    SumPermutation(ReceiptAmount(), minted, paid);
  }

  /** The seconds in flight one way are the final burns less the final mints, and never negative. */
  lemma InFlightIsBurnsLessMints(cs: Config, s: Ledger, d: Ledger)
    requires Safe(cs, s) && OnlyTipOpen(d.blocks) && Backed(cs, s, d)
    ensures InFlight(cs, s, d)
         == Sum(BurnedTerm(), FinalizedTxs(s.blocks)) - Sum(MintedTerm(), FinalizedTxs(d.blocks))
    ensures InFlight(cs, s, d) >= 0.0
  {
    var burns, mints := FinalizedTxs(s.blocks), FinalizedTxs(d.blocks);
    FinalMatched(cs, s, d);
    MintsArePaidBurns(cs, burns, mints);
    BurnsSplit(cs, burns, mints);
    ReplayCharacterised(burns);
    assert forall i :: 0 <= i < |burns| ==> WellFormedPayload(burns[i].body);
    UnpaidNotNegative(cs, burns, mints);
  }

  lemma {:induction false} UnpaidNotNegative(cs: Config, burns: seq<Transaction>, mints: seq<Transaction>)
    requires forall i :: 0 <= i < |burns| ==> WellFormedPayload(burns[i].body)
    ensures Sum(UnpaidTerm(cs, mints), burns) >= 0.0
  {
    if burns != [] {
      var n := |burns| - 1;
      UnpaidNotNegative(cs, burns[..n], mints);
      assert UnpaidSeconds(cs, mints, burns[n]) >= 0.0;
    }
  }

  // ---------------------------------------------------------------------------------------------
  // Conservation
  // ---------------------------------------------------------------------------------------------

  lemma EarnedSplits(l: Ledger)
    requires OnlyTipOpen(l.blocks)
    ensures Earned(Rows(l)) == Earned(FinalizedTxs(l.blocks)) + Waiting(l)
  {
    FinalizedPrefix(l.blocks);
    var n := |FinalizedTxs(l.blocks)|;
    assert Rows(l)[..n] == FinalizedTxs(l.blocks);
    SumSplit(EarnedTerm(), Rows(l), n);
  }

  /** The seconds in flight one way are the final burns less the final mints, but for the unbacked ones. */
  lemma InFlightSplit(cs: Config, s: Ledger, d: Ledger)
    ensures InFlight(cs, s, d)
         == Sum(BurnedTerm(), FinalizedTxs(s.blocks)) - Sum(MintedTerm(), FinalizedTxs(d.blocks))
            + Unbacked(cs, s, d)
  {
    BurnsSplit(cs, FinalizedTxs(s.blocks), FinalizedTxs(d.blocks));
  }

  /** Balances, burns in flight and waiting seconds are all job seconds, and the unbacked mints. */
  lemma WorthSplits(ca: Config, cb: Config, w: World)
    requires ChainsSafe(ca, cb, w)
    ensures Worth(ca, cb, w) == Earned(Rows(w.a)) + Earned(Rows(w.b)) + UnbackedBoth(ca, cb, w)
    ensures Holdings(w.a) + Holdings(w.b) + InFlight(ca, w.a, w.b) + InFlight(cb, w.b, w.a)
         == Earned(FinalizedTxs(w.a.blocks)) + Earned(FinalizedTxs(w.b.blocks)) + UnbackedBoth(ca, cb, w)
  {
    HoldingsSplit(w.a);
    HoldingsSplit(w.b);
    InFlightSplit(ca, w.a, w.b);
    InFlightSplit(cb, w.b, w.a);
    EarnedSplits(w.a);
    EarnedSplits(w.b);
  }

  /** Chains that back each other's mints have no unbacked seconds. */
  lemma BackedBoth(ca: Config, cb: Config, w: World)
    requires WorldSafe(ca, cb, w)
    ensures Unbacked(ca, w.a, w.b) == 0.0 && Unbacked(cb, w.b, w.a) == 0.0
  {
    FinalMatched(ca, w.a, w.b);
    MintsArePaidBurns(ca, FinalizedTxs(w.a.blocks), FinalizedTxs(w.b.blocks));
    FinalMatched(cb, w.b, w.a);
    MintsArePaidBurns(cb, FinalizedTxs(w.b.blocks), FinalizedTxs(w.a.blocks));
  }

  /** Balances and burns in flight are the final job seconds; with the waiting ones, all of them. */
  lemma WorthIsEarned(ca: Config, cb: Config, w: World)
    requires WorldSafe(ca, cb, w)
    ensures Holdings(w.a) + Holdings(w.b) + InFlight(ca, w.a, w.b) + InFlight(cb, w.b, w.a)
         == Earned(FinalizedTxs(w.a.blocks)) + Earned(FinalizedTxs(w.b.blocks))
    ensures Worth(ca, cb, w) == Earned(Rows(w.a)) + Earned(Rows(w.b))
  {
    WorthSplits(ca, cb, w);
    BackedBoth(ca, cb, w);
  }

  lemma {:induction false} NothingEarned(txs: seq<Transaction>)
    requires forall k :: 0 <= k < |txs| ==> EarnedBy(txs[k]) == 0.0
    ensures Earned(txs) == 0.0
  {
    if txs != [] {
      NothingEarned(txs[..|txs| - 1]);
    }
  }

  lemma EarnedSame(l: Ledger, after: Ledger, added: seq<Transaction>)
    requires Rows(after) == Rows(l) + added
    requires forall k :: 0 <= k < |added| ==> EarnedBy(added[k]) == 0.0
    ensures Earned(Rows(after)) == Earned(Rows(l))
  {
    SumConcat(EarnedTerm(), Rows(l), added);
    NothingEarned(added);
  }

  lemma BridgeEarnsNothing(l: Ledger, after: Ledger)
    requires BridgeRows(l, after)
    ensures Earned(Rows(after)) == Earned(Rows(l))
  {
    var added :| Rows(after) == Rows(l) + added && BridgeOnly(added);
    EarnedSame(l, after, added);
  }

  /** A transfer, whatever its outcome, creates no second and loses none. */
  lemma TransferConserves(ca: Config, cb: Config, w: World, o: Order, autoSeal: bool)
    requires PairSafe(ca, w.a, cb, w.b)
    ensures var out := Transfer(ca, w.a, cb, w.b, o, autoSeal);
            && PairSafe(ca, out.source, cb, out.dest)
            && Worth(ca, cb, World(out.source, out.dest)) == Worth(ca, cb, w)
  {
    var out := Transfer(ca, w.a, cb, w.b, o, autoSeal);
    TransferKeeps(ca, w.a, cb, w.b, o, autoSeal, out);
    BridgeEarnsNothing(w.a, out.source);
    BridgeEarnsNothing(w.b, out.dest);
    WorthIsEarned(ca, cb, w);
    WorthIsEarned(ca, cb, World(out.source, out.dest));
  }

  lemma CallEarns(cfg: Config, l: Ledger, call: Call, e: Entropy)
    requires l.blocks == [] ==> l.pending == []
    requires call.CallSubmit? ==> EarnedBy(call.tx) == 0.0
    ensures Earned(Rows(After(cfg, l, call, e))) == Earned(Rows(l))
  {
    var added := AfterGrows(cfg, l, call, e);
    EarnedSame(l, After(cfg, l, call, e), added);
  }

  /** The event submits no job without a consumer, the only source of new seconds. */
  predicate EarnsNothing(event: Event) {
    event.OnA? || event.OnB? ==> event.call.CallSubmit? ==> EarnedBy(event.call.tx) == 0.0
  }

  ghost function AllEarned(w: World): real {
    Earned(Rows(w.a)) + Earned(Rows(w.b))
  }

  lemma TransferEarns(cs: Config, s: Ledger, cd: Config, d: Ledger, o: Order, autoSeal: bool)
    requires Safe(cs, s) && Safe(cd, d)
    ensures var out := Transfer(cs, s, cd, d, o, autoSeal);
            Earned(Rows(out.source)) == Earned(Rows(s)) && Earned(Rows(out.dest)) == Earned(Rows(d))
  {
    var out := Transfer(cs, s, cd, d, o, autoSeal);
    TransferKept(cs, s, cd, d, o, autoSeal);
    BridgeEarnsNothing(s, out.source);
    BridgeEarnsNothing(d, out.dest);
  }

  lemma EventEarns(ca: Config, cb: Config, w: World, event: Event)
    requires ChainsSafe(ca, cb, w) && EarnsNothing(event)
    ensures AllEarned(Happens(ca, cb, w, event)) == AllEarned(w)
  {
    match event
    case Forth(o, autoSeal) => TransferEarns(ca, w.a, cb, w.b, o, autoSeal);
    case Back(o, autoSeal) => TransferEarns(cb, w.b, ca, w.a, o, autoSeal);
    case OnA(call, e) => CallEarns(ca, w.a, call, e);
    case OnB(call, e) => CallEarns(cb, w.b, call, e);
  }

  lemma {:induction false} HistoryEarns(ca: Config, cb: Config, worlds: seq<World>, events: seq<Event>,
                                        i: nat, k: nat)
    requires IsHistory(ca, cb, worlds, events) && i <= k <= |events|
    requires forall j :: i <= j < k ==> EarnsNothing(events[j])
    ensures AllEarned(worlds[k]) == AllEarned(worlds[i])
  {
    if i < k {
      HistoryEarns(ca, cb, worlds, events, i, k - 1);
      ChainsStaySafe(ca, cb, worlds, events, k - 1);
      EventEarns(ca, cb, worlds[k - 1], events[k - 1]);
      assert HappensAt(ca, cb, worlds, events, k - 1);
    }
  }

  /** Over any stretch of a run in which nobody submits a job without a consumer, the worth of the pair
      stays what it was exactly when the seconds of unbacked final mints do, as they do when every mint
      submitted past the bridge is backed and new. */
  lemma HistoryConserves(ca: Config, cb: Config, worlds: seq<World>, events: seq<Event>, i: nat, k: nat)
    requires IsHistory(ca, cb, worlds, events) && i <= k <= |events|
    requires forall j :: i <= j < k ==> EarnsNothing(events[j])
    ensures Worth(ca, cb, worlds[k]) == Worth(ca, cb, worlds[i]) <==>
            UnbackedBoth(ca, cb, worlds[k]) == UnbackedBoth(ca, cb, worlds[i])
    ensures MintsFine(ca, cb, worlds, events) ==> Worth(ca, cb, worlds[k]) == Worth(ca, cb, worlds[i])
  {
    ChainsStaySafe(ca, cb, worlds, events, i);
    ChainsStaySafe(ca, cb, worlds, events, k);
    WorthSplits(ca, cb, worlds[i]);
    WorthSplits(ca, cb, worlds[k]);
    HistoryEarns(ca, cb, worlds, events, i, k);
    if MintsFine(ca, cb, worlds, events) {
      HistoryIsSafe(ca, cb, worlds, events, i);
      HistoryIsSafe(ca, cb, worlds, events, k);
      BackedBoth(ca, cb, worlds[i]);
      BackedBoth(ca, cb, worlds[k]);
    }
  }

  ghost function FinalMinted(w: World): real {
    Sum(MintedTerm(), FinalizedTxs(w.a.blocks)) + Sum(MintedTerm(), FinalizedTxs(w.b.blocks))
  }

  ghost function FinalBurned(w: World): real {
    Sum(BurnedTerm(), FinalizedTxs(w.a.blocks)) + Sum(BurnedTerm(), FinalizedTxs(w.b.blocks))
  }

  /** At any point of any run the two balance tables together hold no more than the final job seconds
      exactly when the final mints sum to no more than the final burns, as they do when every mint submitted
      past the bridge is backed and new. */
  lemma NoInflation(ca: Config, cb: Config, worlds: seq<World>, events: seq<Event>, k: nat)
    requires IsHistory(ca, cb, worlds, events) && k <= |events|
    ensures var w := worlds[k];
            Holdings(w.a) + Holdings(w.b) <= Earned(FinalizedTxs(w.a.blocks)) + Earned(FinalizedTxs(w.b.blocks))
            <==> FinalMinted(w) <= FinalBurned(w)
    ensures MintsFine(ca, cb, worlds, events) ==> FinalMinted(worlds[k]) <= FinalBurned(worlds[k])
  {
    var w := worlds[k];
    ChainsStaySafe(ca, cb, worlds, events, k);
    HoldingsSplit(w.a);
    HoldingsSplit(w.b);
    if MintsFine(ca, cb, worlds, events) {
      HistoryIsSafe(ca, cb, worlds, events, k);
      InFlightIsBurnsLessMints(ca, w.a, w.b);
      InFlightIsBurnsLessMints(cb, w.b, w.a);
    }
  }

  // ---------------------------------------------------------------------------------------------
  // Mints and burns match one to one
  // ---------------------------------------------------------------------------------------------

  /** In any run every mint on either chain pays out exactly one final burn of the other, with the
      same account and amount, and different mints pay out different burns. */
  lemma MintsMatchBurns(ca: Config, cb: Config, worlds: seq<World>, events: seq<Event>, k: nat)
    requires IsHistory(ca, cb, worlds, events) && MintsFine(ca, cb, worlds, events) && k <= |events|
    ensures OneBurnEach(ca, worlds[k].a, worlds[k].b) && OneBurnEach(cb, worlds[k].b, worlds[k].a)
  {
    HistoryIsSafe(ca, cb, worlds, events, k);
    BackedIsOneBurnEach(ca, worlds[k].a, worlds[k].b);
    BackedIsOneBurnEach(cb, worlds[k].b, worlds[k].a);
  }

  ghost predicate OneBurnEach(cs: Config, s: Ledger, d: Ledger) {
    var burns, rows := FinalizedTxs(s.blocks), Rows(d);
    && (forall k :: 0 <= k < |rows| && rows[k].body.payload.BridgeMint? ==>
          exists i :: 0 <= i < |burns| && PaysOut(cs, burns[i].body, rows[k].body))
    && (forall k, i, j :: 0 <= k < |rows| && 0 <= i < |burns| && 0 <= j < |burns| ==>
          PaysOut(cs, burns[i].body, rows[k].body) && PaysOut(cs, burns[j].body, rows[k].body) ==>
          i == j)
    && (forall i, k, m :: 0 <= i < |burns| && 0 <= k < |rows| && 0 <= m < |rows| ==>
          PaysOut(cs, burns[i].body, rows[k].body) && PaysOut(cs, burns[i].body, rows[m].body) ==>
          k == m)
  }

  lemma BackedIsOneBurnEach(cs: Config, s: Ledger, d: Ledger)
    requires Backed(cs, s, d) && AllFresh(Rows(s)) && OnlyTipOpen(s.blocks)
    ensures OneBurnEach(cs, s, d)
  {
    var burns, rows := FinalizedTxs(s.blocks), Rows(d);
    FinalizedPrefix(s.blocks);
    forall k | 0 <= k < |rows| && rows[k].body.payload.BridgeMint?
      ensures exists i :: 0 <= i < |burns| && PaysOut(cs, burns[i].body, rows[k].body)
    {
      assert BackedMint(cs, s, rows[k].body);
    }
    forall k, i, j | 0 <= k < |rows| && 0 <= i < |burns| && 0 <= j < |burns|
      && PaysOut(cs, burns[i].body, rows[k].body) && PaysOut(cs, burns[j].body, rows[k].body)
      ensures i == j
    {
      assert burns[i] == Rows(s)[i] && burns[j] == Rows(s)[j];
      assert FreshNonce(Rows(s), i) && FreshNonce(Rows(s), j);
    }
    forall i, k, m | 0 <= i < |burns| && 0 <= k < |rows| && 0 <= m < |rows|
      && PaysOut(cs, burns[i].body, rows[k].body) && PaysOut(cs, burns[i].body, rows[m].body)
      ensures k == m
    {
      assert MintReceipt()(rows[k]) == MintReceipt()(rows[m]);
      assert IsMint()(rows[k]) && IsMint()(rows[m]);
    }
  }
}
