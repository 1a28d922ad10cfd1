/** The headers a ledger exports (compute_ledger/service.py, export_headers) pass the light client's
    chain check. */
module HeaderSync {
  import opened Hashing
  import opened Sequences
  import opened Blocks
  import opened Ledgers
  import opened LedgerSafety
  import opened LedgerTheorems
  import opened OpenTips
  import opened LightClient

  /** The blocks a query selects, lowest first. */
  function Selected(blocks: seq<Block>, fromHeight: int, finalizedOnly: bool): seq<Block> {
    if blocks == [] then []
    else
      var n := |blocks| - 1;
      var tip := blocks[n];
      Selected(blocks[..n], fromHeight, finalizedOnly)
      + (if fromHeight <= tip.height && (tip.finalized || !finalizedOnly) then [tip] else [])
  }

  /** The loop stops once it has as many headers as the limit, which it tests after adding one. */
  function Limited<T>(s: seq<T>, limit: int): seq<T> {
    var most := if limit < 1 then 1 else limit;
    if |s| <= most then s else s[..most]
  }

  function ExportedBlocks(blocks: seq<Block>, fromHeight: int, limit: int, finalizedOnly: bool): seq<Block> {
    Limited(Selected(blocks, fromHeight, finalizedOnly), limit)
  }

  function Exported(blocks: seq<Block>, fromHeight: int, limit: int, finalizedOnly: bool): seq<Header> {
    HeadersOf(ExportedBlocks(blocks, fromHeight, limit, finalizedOnly))
  }

  lemma {:induction false} SelectedGrows(blocks: seq<Block>, k: nat, fromHeight: int, finalizedOnly: bool)
    requires k <= |blocks|
    ensures Selected(blocks[..k], fromHeight, finalizedOnly) <= Selected(blocks, fromHeight, finalizedOnly)
  {
    if k == |blocks| {
      assert blocks[..k] == blocks;
    } else {
      SelectedGrows(blocks[..|blocks| - 1], k, fromHeight, finalizedOnly);
      assert blocks[..|blocks| - 1][..k] == blocks[..k];
    }
  }

  lemma SelectedNext(blocks: seq<Block>, k: nat, fromHeight: int, finalizedOnly: bool)
    requires k < |blocks|
    ensures Selected(blocks[..k + 1], fromHeight, finalizedOnly)
         == Selected(blocks[..k], fromHeight, finalizedOnly)
            + if fromHeight <= blocks[k].height && (blocks[k].finalized || !finalizedOnly) then [blocks[k]] else []
  {
    assert blocks[..k + 1][..k] == blocks[..k];
  }

  lemma LimitReached(some: seq<Block>, all: seq<Block>, limit: int)
    requires some <= all && |some| >= limit && |some| >= 1 && (|some| - 1 < limit || |some| == 1)
    ensures some == Limited(all, limit)
  {
  }

  method ExportHeaders(rows: seq<Block>, fromHeight: int, limit: int, finalizedOnly: bool)
    returns (headers: seq<Header>)
    ensures headers == Exported(rows, fromHeight, limit, finalizedOnly)
  {
    headers := [];
    ghost var all, chosen := Selected(rows, fromHeight, finalizedOnly), [];
    for i := 0 to |rows|
      invariant chosen == Selected(rows[..i], fromHeight, finalizedOnly) && headers == HeadersOf(chosen)
      invariant |headers| < limit || headers == []
    {
      var row := rows[i];
      SelectedNext(rows, i, fromHeight, finalizedOnly);
      if row.height < fromHeight {
        continue;
      }
      if finalizedOnly && !row.finalized {
        continue;
      }
      HeadersSnoc(chosen, row);
      headers := headers + [FromBlock(row)];
      chosen := chosen + [row];
      if |headers| >= limit {
        SelectedGrows(rows, i + 1, fromHeight, finalizedOnly);
        LimitReached(chosen, all, limit);
        return;
      }
    }
    assert rows[..|rows|] == rows && Limited(all, limit) == all;
  }

  lemma HeadersSnoc(blocks: seq<Block>, b: Block)
    ensures HeadersOf(blocks + [b]) == HeadersOf(blocks) + [FromBlock(b)]
  {
  }

  function StartIn(n: nat, fromHeight: int): (lo: nat)
    ensures lo <= n
  {
    if fromHeight < 0 then 0 else if fromHeight > n then n else fromHeight
  }

  /** How many blocks of a chain with only its top block open a query may select. */
  function Qualifying(blocks: seq<Block>, finalizedOnly: bool): (n: nat)
    ensures n <= |blocks|
  {
    if finalizedOnly && blocks != [] && !blocks[|blocks| - 1].finalized then |blocks| - 1 else |blocks|
  }

  lemma LinkedPrefix(blocks: seq<Block>, n: nat)
    requires Linked(blocks) && n <= |blocks|
    ensures Linked(blocks[..n])
  {
    forall k | 0 <= k < n ensures LinkedAt(blocks[..n], k) {
      assert LinkedAt(blocks, k);
    }
  }

  /** On a linked chain whose blocks all qualify, what is selected is the chain from the height on. */
  lemma {:induction false} SelectedIsSuffix(blocks: seq<Block>, fromHeight: int, finalizedOnly: bool)
    requires Linked(blocks) && (finalizedOnly ==> AllFinalized(blocks))
    ensures Selected(blocks, fromHeight, finalizedOnly) == blocks[StartIn(|blocks|, fromHeight)..]
  {
    if blocks != [] {
      var n := |blocks| - 1;
      LinkedPrefix(blocks, n);
      SelectedIsSuffix(blocks[..n], fromHeight, finalizedOnly);
      assert LinkedAt(blocks, n) && blocks[..n + 1] == blocks;
      SelectedNext(blocks, n, fromHeight, finalizedOnly);
      SuffixNext(blocks, fromHeight);
    }
  }

  lemma SuffixNext(blocks: seq<Block>, fromHeight: int)
    requires blocks != []
    ensures var n := |blocks| - 1;
            && blocks[StartIn(n + 1, fromHeight)..]
               == blocks[..n][StartIn(n, fromHeight)..] + if fromHeight <= n then [blocks[n]] else []
  {
  }

  /** With only the tip open, what is selected is a stretch of the chain. */
  lemma SelectedIsStretch(blocks: seq<Block>, fromHeight: int, finalizedOnly: bool) returns (lo: nat, hi: nat)
    requires Linked(blocks) && OnlyTipOpen(blocks)
    ensures lo <= hi <= |blocks| && Selected(blocks, fromHeight, finalizedOnly) == blocks[lo..hi]
    ensures finalizedOnly ==> forall k :: lo <= k < hi ==> blocks[k].finalized
    ensures lo == 0 < hi <==>
            blocks != [] && fromHeight <= 0 && (finalizedOnly ==> blocks[0].finalized)
    ensures hi == Qualifying(blocks, finalizedOnly) && lo == StartIn(hi, fromHeight)
  {
    var n := |blocks|;
    if n > 0 && finalizedOnly && !blocks[n - 1].finalized {
      LinkedPrefix(blocks, n - 1);
      SelectedIsSuffix(blocks[..n - 1], fromHeight, finalizedOnly);
      lo, hi := StartIn(n - 1, fromHeight), n - 1;
      assert Selected(blocks, fromHeight, finalizedOnly)
          == Selected(blocks[..n - 1], fromHeight, finalizedOnly);
    } else {
      SelectedIsSuffix(blocks, fromHeight, finalizedOnly);
      lo, hi := StartIn(n, fromHeight), n;
    }
  }

  /** What is exported: from the height asked for, or genesis, up to the top block, or the block below it if
      that one is open and only final ones were asked for, as many as the limit allows but at least one; each
      header has the fields of its block. */
  lemma ExportIs(cfg: Config, l: Ledger, fromHeight: int, limit: int, finalizedOnly: bool)
    requires Safe(cfg, l)
    ensures var headers := Exported(l.blocks, fromHeight, limit, finalizedOnly);
            var open := l.blocks != [] && !l.blocks[|l.blocks| - 1].finalized;
            var end := |l.blocks| - (if finalizedOnly && open then 1 else 0);
            var first := if fromHeight < 0 then 0 else fromHeight;
            IsExport(l.blocks, headers, first, end, if limit < 1 then 1 else limit)
  {
    var lo, hi := SelectedIsStretch(l.blocks, fromHeight, finalizedOnly);
    StretchExport(l.blocks, lo, hi, limit);
    assert lo < hi ==> lo == if fromHeight < 0 then 0 else fromHeight;
  }

  lemma StretchExport(blocks: seq<Block>, lo: nat, hi: nat, limit: int)
    requires Linked(blocks) && lo <= hi <= |blocks|
    ensures IsExport(blocks, HeadersOf(Limited(blocks[lo..hi], limit)), lo, hi, if limit < 1 then 1 else limit)
  {
    LimitedStretch(blocks, lo, hi, limit);
    var headers := HeadersOf(Limited(blocks[lo..hi], limit));
    forall i | 0 <= i < |headers| ensures headers[i].height == lo + i {
      assert LinkedAt(blocks, lo + i);
    }
  }

  /** The headers of the blocks from first on and below end, as many as most allows. */
  ghost predicate IsExport(blocks: seq<Block>, headers: seq<Header>, first: nat, end: int, most: nat) {
    && |headers| == (if end <= first then 0 else if end - first < most then end - first else most)
    && first + |headers| <= |blocks| + (if headers == [] then first else 0)
    && forall i :: 0 <= i < |headers| ==> headers[i].height == first + i && Copies(headers[i], blocks[first + i])
  }

  /** The header has the fields of the block. */
  predicate Copies(h: Header, b: Block) {
    h == Header(b.height, b.hash, b.previousHash, b.timestamp, b.transactionsRoot, b.stateRoot, b.validator,
                b.validatorSignature, b.approvals, b.finalized)
  }

  lemma LimitedStretch(blocks: seq<Block>, lo: nat, hi: nat, limit: int)
    requires lo <= hi <= |blocks|
    ensures var headers, most := HeadersOf(Limited(blocks[lo..hi], limit)), if limit < 1 then 1 else limit;
            && |headers| == (if hi - lo < most then hi - lo else most)
            && forall i :: 0 <= i < |headers| ==> Copies(headers[i], blocks[lo + i])
  {
    var limited := Limited(blocks[lo..hi], limit);
    forall i | 0 <= i < |limited| ensures Copies(HeadersOf(limited)[i], blocks[lo + i]) {
      assert limited[i] == blocks[lo + i];
    }
  }

  /** No approval of a block that waits for its quorum repeats. */
  ghost predicate NoRepeat(b: Block) {
    b.finalized || DistinctApprovals(b.approvals)
  }

  /** The header of a sound block is good exactly when the block does not wait with a repeated approval. */
  lemma SoundBlockHeader(b: Block, validators: set<Key>, quorum: int)
    requires SoundBlock(b, validators, quorum)
    ensures GoodHeader(FromBlock(b), validators, QuorumFor(FromBlock(b), quorum)) <==> NoRepeat(b)
  {
    assert CountedApprovals(FromBlock(b)) == b.approvals;
  }

  lemma StretchFitsAt(cfg: Config, l: Ledger, lo: nat, hi: nat, k: nat)
    requires Safe(cfg, l) && lo + k < hi <= |l.blocks|
    ensures HeaderFits(HeadersOf(l.blocks[lo..hi]), k, lo, Anchor(lo), l.validators, cfg.Threshold())
       <==> NoRepeat(l.blocks[lo + k])
  {
    var b := l.blocks[lo + k];
    assert LinkedAt(l.blocks, lo + k) && SoundBlock(b, l.validators, cfg.Threshold());
    SoundBlockHeader(b, l.validators, cfg.Threshold());
    assert HeadersOf(l.blocks[lo..hi])[k] == FromBlock(b);
  }

  ghost predicate NoRepeats(blocks: seq<Block>) {
    forall k :: 0 <= k < |blocks| ==> NoRepeat(blocks[k])
  }

  /** A stretch of a safe ledger fits together exactly when no block of it waits with a repeated approval. */
  lemma StretchFits(cfg: Config, l: Ledger, lo: nat, hi: nat)
    requires Safe(cfg, l) && lo < hi <= |l.blocks|
    ensures ChainFits(HeadersOf(l.blocks[lo..hi]), lo, Anchor(lo), l.validators, cfg.Threshold())
       <==> NoRepeats(l.blocks[lo..hi])
  {
    var stretch := l.blocks[lo..hi];
    var s := HeadersOf(stretch);
    forall k | 0 <= k < |s|
      ensures HeaderFits(s, k, lo, Anchor(lo), l.validators, cfg.Threshold()) <==> NoRepeat(stretch[k])
    {
      StretchFitsAt(cfg, l, lo, hi, k);
    }
    FitsByBlock(s, stretch, lo, Anchor(lo), l.validators, cfg.Threshold());
  }

  lemma FitsByBlock(s: seq<Header>, blocks: seq<Block>, start: int, before: Option<Digest>, authorized: set<Key>,
                    quorum: int)
    requires |s| == |blocks|
    requires forall k :: 0 <= k < |s| ==>
               (HeaderFits(s, k, start, before, authorized, quorum) <==> NoRepeat(blocks[k]))
    ensures ChainFits(s, start, before, authorized, quorum) <==> NoRepeats(blocks)
  {
  }

  lemma StretchSorted(l: Ledger, lo: nat, hi: nat)
    requires Linked(l.blocks) && lo <= hi <= |l.blocks|
    ensures SortedBy(HeightLeq, HeadersOf(l.blocks[lo..hi]))
  {
    var s := HeadersOf(l.blocks[lo..hi]);
    forall i, k | 0 <= i < k < |s| ensures HeightLeq(s[i], s[k]) {
      assert LinkedAt(l.blocks, lo + i) && LinkedAt(l.blocks, lo + k);
      assert s[i] == FromBlock(l.blocks[lo + i]) && s[k] == FromBlock(l.blocks[lo + k]);
    }
  }

  lemma StretchValid(cfg: Config, l: Ledger, lo: nat, hi: nat)
    requires Safe(cfg, l) && lo < hi <= |l.blocks|
    ensures Valid(HeadersOf(l.blocks[lo..hi]), None, l.validators, cfg.Threshold())
       <==> NoRepeats(l.blocks[lo..hi])
  {
    var s := HeadersOf(l.blocks[lo..hi]);
    StretchFits(cfg, l, lo, hi);
    StretchSorted(l, lo, hi);
    assert LinkedAt(l.blocks, lo) && s[0] == FromBlock(l.blocks[lo]);
    ValidByArrangement(s, s, None, l.validators, cfg.Threshold());
  }

  /** What is exported is a stretch of the chain. */
  lemma ExportedIsStretch(blocks: seq<Block>, fromHeight: int, limit: int, finalizedOnly: bool)
    returns (lo: nat, hi: nat)
    requires Linked(blocks) && OnlyTipOpen(blocks)
    ensures lo <= hi <= |blocks| && ExportedBlocks(blocks, fromHeight, limit, finalizedOnly) == blocks[lo..hi]
    ensures finalizedOnly ==> forall k :: lo <= k < hi ==> blocks[k].finalized
    ensures lo == 0 < hi <==>
            blocks != [] && fromHeight <= 0 && (finalizedOnly ==> blocks[0].finalized)
  {
    var end;
    lo, end := SelectedIsStretch(blocks, fromHeight, finalizedOnly);
    hi := LimitedSlice(blocks, lo, end, limit);
  }

  lemma LimitedSlice(blocks: seq<Block>, lo: nat, end: nat, limit: int) returns (hi: nat)
    requires lo <= end <= |blocks|
    ensures lo <= hi <= end && Limited(blocks[lo..end], limit) == blocks[lo..hi] && (lo < end ==> lo < hi)
  {
    var most := if limit < 1 then 1 else limit;
    hi := if end - lo <= most then end else lo + most;
  }

  /** Exported headers pass the chain check under the ledger's own validators and quorum exactly when no
      exported block waits for its quorum with a repeated approval. */
  lemma ExportAcceptedSafe(cfg: Config, l: Ledger, fromHeight: int, limit: int, finalizedOnly: bool)
    requires Safe(cfg, l)
    ensures Valid(Exported(l.blocks, fromHeight, limit, finalizedOnly), None, l.validators, cfg.Threshold())
       <==> NoRepeats(ExportedBlocks(l.blocks, fromHeight, limit, finalizedOnly))
  {
    var lo, hi := ExportedIsStretch(l.blocks, fromHeight, limit, finalizedOnly);
    if lo < hi {
      StretchValid(cfg, l, lo, hi);
    }
  }

  /** What a caller can check first: an export from a reachable ledger is accepted exactly when it starts
      above genesis, asks for finalized blocks only, genesis is final, or the configuration repeats no key. */
  lemma ExportAcceptedIff(cfg: Config, l: Ledger, fromHeight: int, limit: int, finalizedOnly: bool)
    requires Reachable(cfg, l)
    ensures Valid(Exported(l.blocks, fromHeight, limit, finalizedOnly), None, l.validators, cfg.Threshold())
       <==> || fromHeight > 0 || finalizedOnly || l.blocks == [] || l.blocks[0].finalized
            || NoKeyRepeats(cfg)
  {
    ReachableIsSafe(cfg, l);
    ReachableRepeats(cfg, l);
    ExportAcceptedSafe(cfg, l, fromHeight, limit, finalizedOnly);
    var lo, hi := ExportedIsStretch(l.blocks, fromHeight, limit, finalizedOnly);
    var stretch := l.blocks[lo..hi];
    forall k | 0 <= k < |stretch| && (k > 0 || lo > 0) ensures NoRepeat(stretch[k]) {
      assert stretch[k] == l.blocks[lo + k];
    }
    if lo == 0 < hi {
      assert stretch[0] == l.blocks[0];
      assert NoRepeats(stretch) <==> NoRepeat(l.blocks[0]);
    }
  }

  /** Whatever range is exported from a reachable ledger, finalized headers pass the chain check under the
      ledger's own validators and quorum. */
  lemma ExportAccepted(cfg: Config, l: Ledger, fromHeight: int, limit: int)
    requires Reachable(cfg, l)
    ensures Valid(Exported(l.blocks, fromHeight, limit, true), None, l.validators, cfg.Threshold())
  {
    ExportAcceptedIff(cfg, l, fromHeight, limit, true);
  }

  lemma StartedReachable(cfg: Config, e: Entropy, l: Ledger)
    requires Initialize(cfg, EMPTY_LEDGER, e) == Ok(l)
    ensures Reachable(cfg, l)
  {
    var ledgers := OneCall(cfg, EMPTY_LEDGER, CallStart, e);
    assert IsRun(cfg, ledgers, [(CallStart, e)]) && l == ledgers[|[(CallStart, e)]|];
  }

  /** The failing export: a relay that is also an extra key, and a quorum of three.  The chain starts, its
      genesis waits with the relay's approval twice, and its header is refused. */
  lemma RefusedExport(e: Entropy) returns (cfg: Config, l: Ledger)
    requires e.id != ""
    ensures cfg == Config("chain", "relay", ["relay"], 3) && Reachable(cfg, l) && |l.blocks| == 1
    ensures forall limit :: !Valid(Exported(l.blocks, 0, limit, false), None, l.validators, cfg.Threshold())
  {
    cfg := Config("chain", "relay", ["relay"], 3);
    GenesisStarts(cfg, e);
    l := Initialize(cfg, EMPTY_LEDGER, e).value;
    StartedReachable(cfg, e, l);
    assert ([cfg.relay] + cfg.extras)[0] == ([cfg.relay] + cfg.extras)[1];
    assert !NoKeyRepeats(cfg);
    RepeatedKeysNeverFinal(cfg, l);
    forall limit ensures !Valid(Exported(l.blocks, 0, limit, false), None, l.validators, cfg.Threshold()) {
      ExportAcceptedIff(cfg, l, 0, limit, false);
    }
  }

  // ---------------------------------------------------------------------------------------------
  // From the chain to an inclusion check
  // ---------------------------------------------------------------------------------------------

  /** The light client does not compute hashes: whatever finalized headers a reachable ledger exports, one
      of them with its root replaced by the hash of any transaction passes the chain check together with the
      others, and a proof without steps shows that transaction to be in its block. */
  lemma ReplacedRootPasses(cfg: Config, l: Ledger, fromHeight: int, limit: int, k: nat, tx: Transaction)
    requires Reachable(cfg, l) && k < |Exported(l.blocks, fromHeight, limit, true)|
    ensures var headers := Exported(l.blocks, fromHeight, limit, true);
            var replaced := headers[k].(transactionsRoot := Hash(tx));
            && Valid(headers[k := replaced], None, l.validators, cfg.Threshold())
            && Included(replaced, Proof(Hash(tx), 0, Hash(tx), []))
  {
    var headers := Exported(l.blocks, fromHeight, limit, true);
    var replaced := headers[k].(transactionsRoot := Hash(tx));
    ExportAccepted(cfg, l, fromHeight, limit);
    assert AllSameChecked(headers[k := replaced], headers);
    RootsUnchecked(headers[k := replaced], headers, None, l.validators, cfg.Threshold());
  }

  /** A client that computes the hash is safe: a header that hashes to the hash of a block of a reachable
      ledger has the block's height, predecessor and state root, and proves exactly the transactions of
      the block. */
  lemma RecomputedHeaderIsMembership(cfg: Config, l: Ledger, k: nat, h: Header, tx: Transaction)
    requires Reachable(cfg, l) && k < |l.blocks|
    requires h.hash == l.blocks[k].hash && DigestOf(h) == h.hash
    ensures Provable(h, Hash(tx)) <==>
            exists i :: 0 <= i < |l.blocks[k].transactions| && l.blocks[k].transactions[i].body == tx.body
    ensures h.height == k && h.stateRoot == l.blocks[k].stateRoot && h.previousHash == l.blocks[k].previousHash
  {
    ReachableIsSafe(cfg, l);
    assert SoundBlock(l.blocks[k], l.validators, cfg.Threshold()) && LinkedAt(l.blocks, k);
    RecomputedHeader(l.blocks[k], l.validators, h, Hash(tx));
  }
}
