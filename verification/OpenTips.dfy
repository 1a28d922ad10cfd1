/** Blocks that wait for their quorum: which can still be finalized, and what a repeated key does. */
module OpenTips {
  import opened Hashing
  import opened Sequences
  import opened Merkle
  import opened Replay
  import opened Blocks
  import opened Ledgers
  import opened LedgerSafety
  import opened LedgerTheorems

  // ---------------------------------------------------------------------------------------------
  // Only the genesis block can repeat an approval
  // ---------------------------------------------------------------------------------------------

  ghost predicate NoKeyRepeats(cfg: Config) {
    Distinct([cfg.relay] + cfg.extras)
  }

  /** Genesis repeats an approval exactly when the configuration repeats a key; no other block does. */
  ghost predicate RepeatsOnlyInGenesis(cfg: Config, blocks: seq<Block>) {
    forall k :: 0 <= k < |blocks| ==>
      (DistinctApprovals(blocks[k].approvals) <==> k > 0 || NoKeyRepeats(cfg))
  }

  lemma OneMoreDistinct(approvals: seq<Approval>, a: Approval)
    requires a.validator !in Approvers(approvals)
    ensures DistinctApprovals(approvals + [a]) <==> DistinctApprovals(approvals)
  {
    ApproversAppend(approvals, a);
    var all := approvals + [a];
    if DistinctApprovals(all) {
      forall i, k | 0 <= i < k < |approvals| ensures approvals[i].validator != approvals[k].validator {
        assert all[i].validator != all[k].validator;
      }
    }
  }

  lemma NextBlockDistinct(cfg: Config, tip: Block, now: string, txs: seq<Transaction>, state: Credits)
    ensures DistinctApprovals(NextBlock(cfg, tip, now, txs, state).approvals)
  {
    var p := Proposed(cfg, tip.height + 1, tip.hash, now, txs, state.StateRoot());
    ProposedGood(cfg, tip.height + 1, tip.hash, now, txs, state.StateRoot(), cfg.OwnKeys());
    CosignNewGood(p.approvals, cfg.extras, p.hash, cfg.OwnKeys());
  }

  lemma RepeatsAppend(cfg: Config, blocks: seq<Block>, b: Block)
    requires RepeatsOnlyInGenesis(cfg, blocks)
    requires DistinctApprovals(b.approvals) <==> blocks != [] || NoKeyRepeats(cfg)
    ensures RepeatsOnlyInGenesis(cfg, blocks + [b])
  {
  }

  /** An accepted approval is the only change to its block's approvals, and its validator is new. */
  lemma ApproveAppends(cfg: Config, l: Ledger, hash: Digest, key: Key, signature: Signature, after: Ledger)
    requires Safe(cfg, l) && Approve(cfg, l, hash, key, signature) == Ok(after)
    ensures var k := FindBlock(l.blocks, hash);
            && k < |l.blocks| && |after.blocks| == |l.blocks| && !l.blocks[k].finalized
            && key !in Approvers(l.blocks[k].approvals)
            && after.blocks[k].approvals == l.blocks[k].approvals + [Approval(key, signature)]
            && forall i :: 0 <= i < |l.blocks| && i != k ==> after.blocks[i] == l.blocks[i]
  {
    ApproveWrites(cfg, l, hash, key, signature, after);
    var k := FindBlock(l.blocks, hash);
    ApprovedStays(cfg, l, Approval(key, signature), k);
  }

  lemma ApprovedStays(cfg: Config, l: Ledger, a: Approval, k: nat)
    requires SoundBlocks(l.blocks, l.validators, cfg.Threshold()) && k < |l.blocks| && !l.blocks[k].finalized
    ensures var b := Closed(cfg, l.blocks[k], l.blocks[k].approvals + [a]);
            WithProposerApproval(b) == b
  {
    assert SoundBlock(l.blocks[k], l.validators, cfg.Threshold());
    ApproversAppend(l.blocks[k].approvals, a);
    ProposerAlreadyApproved(Closed(cfg, l.blocks[k], l.blocks[k].approvals + [a]));
  }

  lemma ApproveRepeats(cfg: Config, l: Ledger, hash: Digest, key: Key, signature: Signature, after: Ledger)
    requires Safe(cfg, l) && RepeatsOnlyInGenesis(cfg, l.blocks)
    requires Approve(cfg, l, hash, key, signature) == Ok(after)
    ensures RepeatsOnlyInGenesis(cfg, after.blocks)
  {
    ApproveAppends(cfg, l, hash, key, signature, after);
    var k := FindBlock(l.blocks, hash);
    OneMoreDistinct(l.blocks[k].approvals, Approval(key, signature));
  }

  lemma SealRepeats(cfg: Config, l: Ledger, now: string, after: Sealing)
    requires RepeatsOnlyInGenesis(cfg, l.blocks) && Seal(cfg, l, now) == Ok(after)
    ensures RepeatsOnlyInGenesis(cfg, after.ledger.blocks)
  {
    if after.block.Some? {
      var state := ReplayAll(FinalizedTxs(l.blocks) + l.pending).value;
      NextBlockDistinct(cfg, l.blocks[|l.blocks| - 1], now, l.pending, state);
      RepeatsAppend(cfg, l.blocks, after.block.value);
    }
  }

  lemma SubmitRepeats(cfg: Config, l: Ledger, tx: Transaction, requireSignature: bool, autoSeal: bool,
                      now: string, after: Sealing)
    requires RepeatsOnlyInGenesis(cfg, l.blocks)
    requires Submit(cfg, l, tx, requireSignature, autoSeal, now) == Ok(after)
    ensures RepeatsOnlyInGenesis(cfg, after.ledger.blocks)
  {
    if autoSeal {
      SealRepeats(cfg, l.(pending := l.pending + [tx]), now, after);
    }
  }

  lemma ActRepeats(cfg: Config, l: Ledger, call: Call, now: string)
    requires Safe(cfg, l) && RepeatsOnlyInGenesis(cfg, l.blocks)
    ensures RepeatsOnlyInGenesis(cfg, Act(cfg, l, call, now).blocks)
  {
    match call {
      case CallSubmit(tx, requireSignature, autoSeal) =>
        var r := Submit(cfg, l, tx, requireSignature, autoSeal, now);
        if r.Ok? {
          SubmitRepeats(cfg, l, tx, requireSignature, autoSeal, now, r.value);
        }
      case CallSeal =>
        var r := Seal(cfg, l, now);
        if r.Ok? {
          SealRepeats(cfg, l, now, r.value);
        }
      case CallApprove(hash, key, signature) =>
        var r := Approve(cfg, l, hash, key, signature);
        if r.Ok? {
          ApproveRepeats(cfg, l, hash, key, signature, r.value);
        }
      case _ =>
    }
  }

  lemma InitializeRepeats(cfg: Config, l: Ledger, e: Entropy, after: Ledger)
    requires RepeatsOnlyInGenesis(cfg, l.blocks) && Initialize(cfg, l, e) == Ok(after)
    ensures RepeatsOnlyInGenesis(cfg, after.blocks)
  {
    if l.blocks == [] {
      GenesisApprovals(cfg, e);
      RepeatsAppend(cfg, l.blocks, GenesisBlock(cfg, e));
    }
  }

  lemma AfterRepeats(cfg: Config, l: Ledger, call: Call, e: Entropy)
    requires Safe(cfg, l) && RepeatsOnlyInGenesis(cfg, l.blocks)
    ensures RepeatsOnlyInGenesis(cfg, After(cfg, l, call, e).blocks)
  {
    var started := Initialize(cfg, l, e);
    if call.CallRebuild? {
      ActRepeats(cfg, l, call, e.now);
    } else if started.Ok? {
      InitializeKeeps(cfg, l, e, started.value);
      InitializeRepeats(cfg, l, e, started.value);
      ActRepeats(cfg, started.value, call, e.now);
    }
  }

  lemma {:induction false} RunRepeats(cfg: Config, ledgers: seq<Ledger>, trace: Trace, k: nat)
    requires IsRun(cfg, ledgers, trace) && ledgers[0] == EMPTY_LEDGER && k <= |trace|
    ensures RepeatsOnlyInGenesis(cfg, ledgers[k].blocks)
  {
    if k > 0 {
      RunRepeats(cfg, ledgers, trace, k - 1);
      EmptySafe(cfg);
      RunKeeps(cfg, ledgers, trace, k - 1);
      CallRepeatsAt(cfg, ledgers, trace, k - 1);
    }
  }

  lemma CallRepeatsAt(cfg: Config, ledgers: seq<Ledger>, trace: Trace, k: nat)
    requires IsRun(cfg, ledgers, trace) && k < |trace|
    requires Safe(cfg, ledgers[k]) && RepeatsOnlyInGenesis(cfg, ledgers[k].blocks)
    ensures RepeatsOnlyInGenesis(cfg, ledgers[k + 1].blocks)
  {
    AfterRepeats(cfg, ledgers[k], trace[k].0, trace[k].1);
    assert CallAt(cfg, ledgers, trace, k);
  }

  /** On every reachable ledger genesis repeats an approval exactly when the configuration repeats a key,
      and no other block repeats one. */
  lemma ReachableRepeats(cfg: Config, l: Ledger)
    requires Reachable(cfg, l)
    ensures RepeatsOnlyInGenesis(cfg, l.blocks)
  {
    var ledgers: seq<Ledger>, trace: Trace :|
      IsRun(cfg, ledgers, trace) && ledgers[0] == EMPTY_LEDGER && l == ledgers[|trace|];
    RunRepeats(cfg, ledgers, trace, |trace|);
  }

  /** A chain whose configuration repeats a key never gets past its genesis: whatever calls follow, the
      genesis block stays alone and open, and no balance is ever cached. */
  lemma RepeatedKeysNeverFinal(cfg: Config, l: Ledger)
    requires Reachable(cfg, l) && l.blocks != [] && !NoKeyRepeats(cfg)
    ensures |l.blocks| == 1 && !l.blocks[0].finalized && l.balances == []
  {
    ReachableRepeats(cfg, l);
    ReachableIsSafe(cfg, l);
    assert SoundBlock(l.blocks[0], l.validators, cfg.Threshold());
    assert !l.blocks[0].finalized;
    assert l.blocks[..0] == [];
    assert FinalizedTxs(l.blocks) == [];
    NothingReplayed();
  }

  lemma NothingReplayed()
    ensures ReplayAll([]) == Ok(NO_CREDITS) && NO_CREDITS.ToList() == []
  {
  }

  // ---------------------------------------------------------------------------------------------
  // What finalizes an open tip
  // ---------------------------------------------------------------------------------------------

  ghost predicate TipOpen(l: Ledger) {
    l.blocks != [] && !l.blocks[|l.blocks| - 1].finalized
  }

  lemma OpenTipReplays(l: Ledger)
    requires TipOpen(l) && OnlyTipOpen(l.blocks) && RootsCommit(l.blocks)
    ensures ReplayAll(FinalizedTxs(l.blocks) + l.blocks[|l.blocks| - 1].transactions).Ok?
  {
    var n := |l.blocks| - 1;
    FinalizedPrefix(l.blocks);
    assert CommitsReplay(l.blocks, n);
    assert l.blocks[..n + 1] == l.blocks;
  }

  /** The block an approval would leave is valid exactly when no approval repeats. */
  lemma ClosedValid(cfg: Config, l: Ledger, a: Approval, k: nat)
    requires SoundBlocks(l.blocks, l.validators, cfg.Threshold()) && k < |l.blocks| && !l.blocks[k].finalized
    requires GoodApproval(a, l.blocks[k].hash, l.validators) && a.validator !in Approvers(l.blocks[k].approvals)
    requires |l.blocks[k].approvals| + 1 >= cfg.Threshold()
    ensures var b := Closed(cfg, l.blocks[k], l.blocks[k].approvals + [a]);
            ValidBlock(b, l.validators, None, None, cfg.Threshold(), true)
            <==> DistinctApprovals(l.blocks[k].approvals)
  {
    assert SoundBlock(l.blocks[k], l.validators, cfg.Threshold());
    OneMoreDistinct(l.blocks[k].approvals, a);
    ApproversAppend(l.blocks[k].approvals, a);
    ApprovedStays(cfg, l, a, k);
  }

  /** An approval of the open tip finalizes it exactly when it is a good approval of a new validator, it
      completes the quorum, and the approvals there repeat no validator. */
  lemma ApproveFinalizes(cfg: Config, l: Ledger, key: Key, signature: Signature)
    requires Safe(cfg, l) && TipOpen(l)
    ensures var n := |l.blocks| - 1;
            var tip := l.blocks[n];
            var r := Approve(cfg, l, tip.hash, key, signature);
            (r.Ok? && r.value.blocks[n].finalized) <==>
            && GoodApproval(Approval(key, signature), tip.hash, l.validators) && !ApprovedBy(tip, key)
            && |tip.approvals| + 1 >= cfg.Threshold() && DistinctApprovals(tip.approvals)
  {
    var n := |l.blocks| - 1;
    var tip, a := l.blocks[n], Approval(key, signature);
    TopBlockFound(cfg, l, n);
    OpenTipReplays(l);
    if GoodApproval(a, tip.hash, l.validators) && !ApprovedBy(tip, key) {
      ApprovedStays(cfg, l, a, n);
      if |tip.approvals| + 1 >= cfg.Threshold() {
        ClosedValid(cfg, l, a, n);
      }
    }
  }

  // ---------------------------------------------------------------------------------------------
  // Which open tips some run finalizes
  // ---------------------------------------------------------------------------------------------

  ghost predicate SomeRunFinalizes(cfg: Config, l: Ledger, n: nat) {
    exists ledgers: seq<Ledger>, trace: Trace :: RunFinalizes(cfg, l, n, ledgers, trace)
  }

  ghost predicate RunFinalizes(cfg: Config, l: Ledger, n: nat, ledgers: seq<Ledger>, trace: Trace) {
    && IsRun(cfg, ledgers, trace) && ledgers[0] == l
    && n < |ledgers[|trace|].blocks| && ledgers[|trace|].blocks[n].finalized
  }

  lemma SameCall(cfg: Config, ledgers: seq<Ledger>, trace: Trace, k: nat, others: seq<Ledger>, calls: Trace, i: nat)
    requires k < |trace| && k + 1 < |ledgers| && CallAt(cfg, ledgers, trace, k)
    requires i < |calls| && i + 1 < |others|
    requires others[i] == ledgers[k] && others[i + 1] == ledgers[k + 1] && calls[i] == trace[k]
    ensures CallAt(cfg, others, calls, i)
  {
  }

  lemma JoinedAt(before: seq<Ledger>, calls: Trace, ledgers: seq<Ledger>, trace: Trace, k: nat)
    requires |before| == |calls| + 1 && |ledgers| == |trace| + 1 && ledgers[0] == before[|calls|]
    requires k < |calls| + |trace|
    ensures var all, n := before + ledgers[1..], |calls|;
            if k < n then all[k] == before[k] && all[k + 1] == before[k + 1] && (calls + trace)[k] == calls[k]
            else all[k] == ledgers[k - n] && all[k + 1] == ledgers[k - n + 1] && (calls + trace)[k] == trace[k - n]
  {
  }

  lemma JoinedCall(cfg: Config, before: seq<Ledger>, calls: Trace, ledgers: seq<Ledger>, trace: Trace, k: nat)
    requires IsRun(cfg, before, calls) && IsRun(cfg, ledgers, trace) && ledgers[0] == before[|calls|]
    requires k < |calls| + |trace|
    ensures CallAt(cfg, before + ledgers[1..], calls + trace, k)
  {
    var all, both, n := before + ledgers[1..], calls + trace, |calls|;
    JoinedAt(before, calls, ledgers, trace, k);
    if k < n {
      SameCall(cfg, before, calls, k, all, both, k);
    } else {
      SameCall(cfg, ledgers, trace, k - n, all, both, k);
    }
  }

  /** Two runs, the second from where the first ends, are one run. */
  lemma RunsJoin(cfg: Config, before: seq<Ledger>, calls: Trace, ledgers: seq<Ledger>, trace: Trace)
    requires IsRun(cfg, before, calls) && IsRun(cfg, ledgers, trace) && ledgers[0] == before[|calls|]
    ensures IsRun(cfg, before + ledgers[1..], calls + trace)
    ensures (before + ledgers[1..])[|calls + trace|] == ledgers[|trace|]
  {
    var all, both := before + ledgers[1..], calls + trace;
    forall k | 0 <= k < |both| ensures CallAt(cfg, all, both, k) {
      JoinedCall(cfg, before, calls, ledgers, trace, k);
    }
  }

  lemma CallFirst(cfg: Config, l: Ledger, n: nat, call: Call, e: Entropy)
    requires SomeRunFinalizes(cfg, After(cfg, l, call, e), n)
    ensures SomeRunFinalizes(cfg, l, n)
  {
    var ledgers: seq<Ledger>, trace: Trace :| RunFinalizes(cfg, After(cfg, l, call, e), n, ledgers, trace);
    var first := OneCall(cfg, l, call, e);
    RunsJoin(cfg, first, [(call, e)], ledgers, trace);
    assert RunFinalizes(cfg, l, n, first + ledgers[1..], [(call, e)] + trace);
  }

  lemma OneCall(cfg: Config, l: Ledger, call: Call, e: Entropy) returns (ledgers: seq<Ledger>)
    ensures IsRun(cfg, ledgers, [(call, e)]) && ledgers[0] == l && ledgers[1] == After(cfg, l, call, e)
  {
    ledgers := RunExists(cfg, l, [(call, e)]);
    assert CallAt(cfg, ledgers, [(call, e)], 0);
  }

  lemma AlreadyFinal(cfg: Config, l: Ledger, n: nat)
    requires n < |l.blocks| && l.blocks[n].finalized
    ensures SomeRunFinalizes(cfg, l, n)
  {
    assert RunFinalizes(cfg, l, n, [l], []);
  }

  lemma {:induction false} LongerThanAll(keys: set<Key>) returns (n: nat)
    ensures forall k :: k in keys ==> |k| < n
  {
    n := 0;
    if keys != {} {
      var k :| k in keys;
      var m := LongerThanAll(keys - {k});
      n := if |k| < m then m else |k| + 1;
    }
  }

  lemma NewKey(keys: set<Key>) returns (key: Key)
    ensures key !in keys
  {
    var n := LongerThanAll(keys);
    key := seq(n, _ => 'v');
  }

  /** An accepted approval by a new validator adds one approval and keeps them distinct. */
  lemma AddsApproval(cfg: Config, l: Ledger, key: Key, signature: Signature, e: Entropy, next: Ledger)
    requires Safe(cfg, l) && TipOpen(l) && DistinctApprovals(l.blocks[|l.blocks| - 1].approvals)
    requires GoodApproval(Approval(key, signature), l.blocks[|l.blocks| - 1].hash, l.validators)
    requires !ApprovedBy(l.blocks[|l.blocks| - 1], key)
    requires next == After(cfg, l, CallApprove(l.blocks[|l.blocks| - 1].hash, key, signature), e)
    ensures var n := |l.blocks| - 1;
            && Safe(cfg, next) && |next.blocks| == |l.blocks|
            && |next.blocks[n].approvals| == |l.blocks[n].approvals| + 1
            && DistinctApprovals(next.blocks[n].approvals)
  {
    var tip := l.blocks[|l.blocks| - 1];
    ApprovalAccepted(cfg, l, key, signature);
    AfterKeeps(cfg, l, CallApprove(tip.hash, key, signature), e);
    ApproveAppends(cfg, l, tip.hash, key, signature, next);
    TopBlockFound(cfg, l, |l.blocks| - 1);
    OneMoreDistinct(tip.approvals, Approval(key, signature));
  }

  /** Registering a new validator and approving with its key adds one approval to the open tip. */
  lemma ApproveWithNewKey(cfg: Config, l: Ledger, e: Entropy) returns (key: Key, registered: Ledger, next: Ledger)
    requires Safe(cfg, l) && TipOpen(l) && DistinctApprovals(l.blocks[|l.blocks| - 1].approvals)
    ensures var n := |l.blocks| - 1;
            var approve := CallApprove(l.blocks[n].hash, key, Sign(key, BlockMessage(l.blocks[n].hash)));
            && registered == After(cfg, l, CallRegister(key), e)
            && next == After(cfg, registered, approve, e)
            && Safe(cfg, next) && |next.blocks| == |l.blocks|
            && |next.blocks[n].approvals| == |l.blocks[n].approvals| + 1
            && DistinctApprovals(next.blocks[n].approvals)
  {
    var n := |l.blocks| - 1;
    var tip := l.blocks[n];
    key := NewKey(l.validators + Approvers(tip.approvals));
    var signature := Sign(key, BlockMessage(tip.hash));
    registered := Registered(cfg, l, key, e);
    next := After(cfg, registered, CallApprove(tip.hash, key, signature), e);
    AddsApproval(cfg, registered, key, signature, e, next);
  }

  lemma Registered(cfg: Config, l: Ledger, key: Key, e: Entropy) returns (registered: Ledger)
    requires Safe(cfg, l) && TipOpen(l)
    ensures registered == After(cfg, l, CallRegister(key), e)
    ensures registered == l.(validators := l.validators + {key}) && Safe(cfg, registered)
  {
    registered := l.(validators := l.validators + {key});
    AfterKeeps(cfg, l, CallRegister(key), e);
  }

  lemma ApprovalAccepted(cfg: Config, l: Ledger, key: Key, signature: Signature)
    requires Safe(cfg, l) && TipOpen(l) && DistinctApprovals(l.blocks[|l.blocks| - 1].approvals)
    requires GoodApproval(Approval(key, signature), l.blocks[|l.blocks| - 1].hash, l.validators)
    requires !ApprovedBy(l.blocks[|l.blocks| - 1], key)
    ensures Approve(cfg, l, l.blocks[|l.blocks| - 1].hash, key, signature).Ok?
  {
    TopBlockFound(cfg, l, |l.blocks| - 1);
    ApproveFinalizes(cfg, l, key, signature);
  }

  lemma OpenBelowQuorum(cfg: Config, l: Ledger)
    requires Safe(cfg, l) && TipOpen(l) && DistinctApprovals(l.blocks[|l.blocks| - 1].approvals)
    ensures |l.blocks[|l.blocks| - 1].approvals| < cfg.Threshold()
  {
    assert SoundBlock(l.blocks[|l.blocks| - 1], l.validators, cfg.Threshold());
  }

  /** One more approval of the open tip, which leaves it either final or nearer its quorum. */
  lemma OneApprovalMore(cfg: Config, l: Ledger, e: Entropy) returns (next: Ledger)
    requires Safe(cfg, l) && TipOpen(l) && DistinctApprovals(l.blocks[|l.blocks| - 1].approvals)
    ensures var n := |l.blocks| - 1;
            && Safe(cfg, next) && |next.blocks| == |l.blocks|
            && |next.blocks[n].approvals| == |l.blocks[n].approvals| + 1
            && DistinctApprovals(next.blocks[n].approvals)
            && (SomeRunFinalizes(cfg, next, n) ==> SomeRunFinalizes(cfg, l, n))
  {
    var n := |l.blocks| - 1;
    var key, registered, after := ApproveWithNewKey(cfg, l, e);
    next := after;
    var approve := CallApprove(l.blocks[n].hash, key, Sign(key, BlockMessage(l.blocks[n].hash)));
    if SomeRunFinalizes(cfg, next, n) {
      CallFirst(cfg, registered, n, approve, e);
      CallFirst(cfg, l, n, CallRegister(key), e);
    }
  }

  lemma {:induction false} DistinctTipCloses(cfg: Config, l: Ledger, e: Entropy)
    requires Safe(cfg, l) && TipOpen(l) && DistinctApprovals(l.blocks[|l.blocks| - 1].approvals)
    ensures SomeRunFinalizes(cfg, l, |l.blocks| - 1)
    decreases cfg.Threshold() - |l.blocks[|l.blocks| - 1].approvals|
  {
    var n := |l.blocks| - 1;
    OpenBelowQuorum(cfg, l);
    var next := OneApprovalMore(cfg, l, e);
    if next.blocks[n].finalized {
      AlreadyFinal(cfg, next, n);
    } else {
      DistinctTipCloses(cfg, next, e);
    }
  }

  /** Some continuation finalizes the open tip of a reachable ledger exactly when the tip is not a genesis
      block under a configuration that repeats a key. */
  lemma OpenTipCloses(cfg: Config, l: Ledger)
    requires Reachable(cfg, l) && TipOpen(l)
    ensures SomeRunFinalizes(cfg, l, |l.blocks| - 1) <==> |l.blocks| > 1 || NoKeyRepeats(cfg)
  {
    ReachableIsSafe(cfg, l);
    ReachableRepeats(cfg, l);
    if |l.blocks| > 1 || NoKeyRepeats(cfg) {
      DistinctTipCloses(cfg, l, Entropy("", ""));
    } else {
      forall ledgers: seq<Ledger>, trace: Trace
        ensures !RunFinalizes(cfg, l, 0, ledgers, trace)
      {
        if IsRun(cfg, ledgers, trace) && ledgers[0] == l {
          Continued(cfg, l, ledgers, trace);
          FinalizedForever(cfg, ledgers, trace, 0, |trace|);
          RepeatedKeysNeverFinal(cfg, ledgers[|trace|]);
        }
      }
    }
  }

  /** What a run reaches from a reachable ledger is reachable. */
  lemma Continued(cfg: Config, l: Ledger, ledgers: seq<Ledger>, trace: Trace)
    requires Reachable(cfg, l) && IsRun(cfg, ledgers, trace) && ledgers[0] == l
    ensures Reachable(cfg, ledgers[|trace|])
  {
    var before: seq<Ledger>, calls: Trace :|
      IsRun(cfg, before, calls) && before[0] == EMPTY_LEDGER && l == before[|calls|];
    RunsJoin(cfg, before, calls, ledgers, trace);
  }
}
