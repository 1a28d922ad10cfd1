/** Merkle roots and inclusion proofs over transaction hashes (compute_ledger/merkle.py). */
module Merkle {
  import opened Hashing
  import opened Sequences

  datatype MerkleError = EmptyLeafSet | IndexOutOfRange

  // ---------------------------------------------------------------------------------------------
  // Specification: levels, depth, and the perfect tree that odd-level duplication pads to
  // ---------------------------------------------------------------------------------------------

  /** The size of the level above a level of n nodes. */
  function Up(n: nat): (u: nat)
    ensures n <= 2 * u <= n + 1
  {
    (n + 1) / 2
  }

  /** The index of a child of node p of the level above; an odd last node is its own neighbour. */
  function Child(n: nat, p: nat, right: bool): (k: nat)
    requires p < Up(n)
    ensures k < n
  {
    if right && 2 * p + 1 < n then 2 * p + 1 else 2 * p
  }

  /** The level above: neighbours are paired and an odd last node is paired with itself. */
  function NextLevel(level: seq<Digest>): (next: seq<Digest>)
    ensures |next| == Up(|level|)
  {
    seq(Up(|level|), (p: nat) requires p < Up(|level|) =>
      PairHash(level[Child(|level|, p, false)], level[Child(|level|, p, true)]))
  }

  function Root(leaves: seq<Digest>): Digest
    decreases |leaves|
  {
    if leaves == [] then ZeroHash
    else if |leaves| == 1 then leaves[0]
    else Root(NextLevel(leaves))
  }

  function Depth(n: nat): nat {
    if n <= 1 then 0 else 1 + Depth(Up(n))
  }

  function Pow2(k: nat): (p: nat)
    ensures 0 < p
  {
    if k == 0 then 1 else 2 * Pow2(k - 1)
  }

  /** A place of the padded tree: the turns taken from the leaf up, true for a right child. */
  type Place = seq<bool>

  /** The place of leaf i: the k lowest binary digits of i, least significant first. */
  function Digits(i: nat, k: nat): (place: Place)
    ensures |place| == k
  {
    if k == 0 then [] else [i % 2 == 1] + Digits(i / 2, k - 1)
  }

  function Value(place: Place): nat {
    if place == [] then 0 else (if place[0] then 1 else 0) + 2 * Value(place[1..])
  }

  /** The leaf that sits at a place of the padded perfect tree over n leaves. */
  function Source(n: nat, place: Place): (k: nat)
    requires 0 < n && |place| == Depth(n)
    ensures k < n
    decreases |place|
  {
    if n == 1 then 0 else Child(n, Source(Up(n), place[1..]), place[0])
  }

  /** The other child of the node above a place. */
  function Sibling(level: seq<Digest>, place: Place): Digest
    requires |level| > 1 && |place| == Depth(|level|)
  {
    level[Child(|level|, Source(Up(|level|), place[1..]), !place[0])]
  }

  /** The siblings met on the way from a place up to the root. */
  function Path(leaves: seq<Digest>, place: Place): (steps: seq<Step>)
    requires leaves != [] && |place| == Depth(|leaves|)
    ensures |steps| == |place|
    decreases |place|
  {
    if |leaves| == 1 then []
    else
      [Step(Sibling(leaves, place), if place[0] then Left else Right)]
      + Path(NextLevel(leaves), place[1..])
  }

  /** The place whose turns the step positions spell. */
  function Turns(steps: seq<Step>): (place: Place)
    ensures |place| == |steps|
  {
    if steps == [] then [] else [steps[0].position == Left] + Turns(steps[1..])
  }

  predicate Directed(steps: seq<Step>) {
    forall k :: 0 <= k < |steps| ==> steps[k].position == Left || steps[k].position == Right
  }

  function Combine(running: Digest, step: Step): Digest {
    if step.position == Right then PairHash(running, step.hash) else PairHash(step.hash, running)
  }

  function Fold(running: Digest, steps: seq<Step>): Digest
    decreases |steps|
  {
    if steps == [] then running else Fold(Combine(running, steps[0]), steps[1..])
  }

  predicate Verifies(proof: Proof) {
    Directed(proof.steps) && Fold(proof.leaf, proof.steps) == proof.root
  }

  /** Leaf lists of real blocks hold transaction hashes only. */
  predicate TxLeaves(leaves: seq<Digest>) {
    forall k :: 0 <= k < |leaves| ==> leaves[k].TxHash?
  }

  /** What the proof builder returns for a member. */
  function ProofOf(leaves: seq<Digest>, index: nat): Proof
    requires index < |leaves|
  {
    Proof(leaves[index], index, Root(leaves), Path(leaves, Digits(index, Depth(|leaves|))))
  }

  // ---------------------------------------------------------------------------------------------
  // The code
  // ---------------------------------------------------------------------------------------------

  /** A level with an odd last node duplicated. */
  function Evened(level: seq<Digest>): (padded: seq<Digest>)
    requires level != []
    ensures |padded| == 2 * Up(|level|)
    ensures forall i :: 0 <= i < |padded| ==> padded[i] == level[if i < |level| then i else |level| - 1]
  {
    if |level| % 2 == 1 then level + [level[|level| - 1]] else level
  }

  /** One round of the pairing loop shared by the root and the proof builder. */
  method PairLevel(padded: seq<Digest>, ghost level: seq<Digest>) returns (next: seq<Digest>)
    requires level != [] && padded == Evened(level)
    ensures next == NextLevel(level)
  {
    next := [];
    var i := 0;
    while i < |padded|
      invariant i == 2 * |next| && |next| <= Up(|level|)
      invariant next == NextLevel(level)[..|next|]
    {
      PairAt(level, |next|);
      next := next + [PairHash(padded[i], padded[i + 1])];
      i := i + 2;
    }
  }

  /** Neighbours of the evened level are the children of the node above. */
  lemma PairAt(level: seq<Digest>, p: nat)
    requires level != [] && p < Up(|level|)
    ensures PairHash(Evened(level)[2 * p], Evened(level)[2 * p + 1]) == NextLevel(level)[p]
  {
  }

  method MerkleRoot(leaves: seq<Digest>) returns (root: Digest)
    ensures root == Root(leaves)
  {
    if leaves == [] {
      return ZeroHash;
    }
    var level := leaves;
    while |level| > 1
      invariant level != [] && Root(level) == Root(leaves)
      decreases |level|
    {
      level := PairLevel(Evened(level), level);
    }
    return level[0];
  }

  method MerkleProof(leaves: seq<Digest>, index: int) returns (r: Result<Proof, MerkleError>)
    ensures leaves == [] ==> r == Err(EmptyLeafSet)
    ensures leaves != [] && !(0 <= index < |leaves|) ==> r == Err(IndexOutOfRange)
    ensures 0 <= index < |leaves| ==> r == Ok(ProofOf(leaves, index))
  {
    if leaves == [] {
      return Err(EmptyLeafSet);
    }
    if index < 0 || index >= |leaves| {
      return Err(IndexOutOfRange);
    }
    var level, idx, steps := leaves, index, [];
    ghost var goal := ProofOf(leaves, index);
    while |level| > 1
      invariant 0 <= idx < |level|
      invariant Root(level) == goal.root
      invariant goal.steps == steps + Path(level, Digits(idx, Depth(|level|)))
      decreases |level|
    {
      var padded := Evened(level);
      Neighbour(level, idx);
      var step := if idx % 2 == 0 then Step(padded[idx + 1], Right) else Step(padded[idx - 1], Left);
      StepAdded(level, idx, step, steps, goal.steps);
      steps := steps + [step];
      level := PairLevel(padded, level);
      idx := idx / 2;
    }
    assert steps + [] == steps;
    return Ok(Proof(leaves[index], index, level[0], steps));
  }

  method VerifyMerkleProof(proof: Proof) returns (valid: bool)
    ensures valid == Verifies(proof)
  {
    var running := proof.leaf;
    for k := 0 to |proof.steps|
      invariant Directed(proof.steps[..k])
      invariant Fold(running, proof.steps[k..]) == Fold(proof.leaf, proof.steps)
    {
      var step := proof.steps[k];
      if step.position == Right {
        running := PairHash(running, step.hash);
      } else if step.position == Left {
        running := PairHash(step.hash, running);
      } else {
        assert !Directed(proof.steps);
        return false;
      }
    }
    return running == proof.root;
  }

  // ---------------------------------------------------------------------------------------------
  // Completeness
  // ---------------------------------------------------------------------------------------------

  /** Every index is a child of its half. */
  lemma ChildOfHalf(i: nat, n: nat)
    requires i < n
    ensures i / 2 < Up(n)
    ensures Child(n, i / 2, i % 2 == 1) == i
    ensures Child(n, i / 2, i % 2 != 1) ==
            if i % 2 == 1 then i - 1 else if i + 1 < n then i + 1 else n - 1
  {
    assert i == 2 * (i / 2) + i % 2;
  }

  lemma {:induction false} SourceOfMember(n: nat, i: nat)
    requires i < n
    ensures Source(n, Digits(i, Depth(n))) == i
  {
    if n > 1 {
      ChildOfHalf(i, n);
      SourceOfMember(Up(n), i / 2);
    }
  }

  /** Index i's sibling is its neighbour once an odd last node is duplicated. */
  lemma Neighbour(level: seq<Digest>, i: nat)
    requires i < |level|
    ensures i / 2 < Up(|level|) && |Evened(level)| == 2 * Up(|level|)
    ensures i % 2 == 0 ==> i + 1 < |Evened(level)|
    ensures i % 2 != 0 ==> 0 < i
    ensures level[Child(|level|, i / 2, i % 2 != 1)]
         == Evened(level)[if i % 2 == 0 then i + 1 else i - 1]
  {
    ChildOfHalf(i, |level|);
  }

  /** The first step of a member's path is its neighbour. */
  lemma MemberStep(level: seq<Digest>, i: nat)
    requires |level| > 1 && i < |level| && i / 2 < Up(|level|)
    ensures var neighbour := level[Child(|level|, i / 2, i % 2 != 1)];
            Path(level, Digits(i, Depth(|level|)))
              == [Step(neighbour, if i % 2 == 1 then Left else Right)]
                 + Path(NextLevel(level), Digits(i / 2, Depth(Up(|level|))))
  {
    SourceOfMember(Up(|level|), i / 2);
    assert Digits(i, Depth(|level|))[1..] == Digits(i / 2, Depth(Up(|level|)));
  }

  /** Taking a member's step leaves the path of the node above it. */
  lemma StepAdded(level: seq<Digest>, i: nat, step: Step, steps: seq<Step>, all: seq<Step>)
    requires |level| > 1 && i < |level| && i / 2 < Up(|level|)
    requires step == Step(level[Child(|level|, i / 2, i % 2 != 1)], if i % 2 == 1 then Left else Right)
    requires all == steps + Path(level, Digits(i, Depth(|level|)))
    ensures all == steps + [step] + Path(NextLevel(level), Digits(i / 2, Depth(Up(|level|))))
  {
    MemberStep(level, i);
  }

  /** A path's first step climbs from a place to the place above it. */
  lemma PathStep(leaves: seq<Digest>, place: Place)
    requires |leaves| > 1 && |place| == Depth(|leaves|)
    ensures Combine(leaves[Source(|leaves|, place)], Path(leaves, place)[0])
         == NextLevel(leaves)[Source(Up(|leaves|), place[1..])]
    ensures Path(leaves, place)[1..] == Path(NextLevel(leaves), place[1..])
  {
    var parent := Source(Up(|leaves|), place[1..]);
    assert NextLevel(leaves)[parent]
        == PairHash(leaves[Child(|leaves|, parent, false)], leaves[Child(|leaves|, parent, true)]);
  }

  /** The padded tree folds to the root from each of its places. */
  lemma {:induction false} PathFolds(leaves: seq<Digest>, place: Place)
    requires leaves != [] && |place| == Depth(|leaves|)
    ensures Directed(Path(leaves, place)) && Turns(Path(leaves, place)) == place
    ensures Fold(leaves[Source(|leaves|, place)], Path(leaves, place)) == Root(leaves)
    decreases |leaves|
  {
    if |leaves| > 1 {
      PathStep(leaves, place);
      PathFolds(NextLevel(leaves), place[1..]);
      var steps := Path(leaves, place);
      assert steps == [steps[0]] + steps[1..] && place == [place[0]] + place[1..];
    }
  }

  /** A proof built for a member verifies against the root, whatever the place of the member; its
      positions spell the index in binary, and its length is the depth of the tree. */
  lemma Completeness(leaves: seq<Digest>, index: nat)
    requires index < |leaves|
    ensures Verifies(ProofOf(leaves, index))
    ensures Turns(ProofOf(leaves, index).steps) == Digits(index, Depth(|leaves|))
    ensures var proof := ProofOf(leaves, index);
            proof.leaf == leaves[index] && proof.index == index && proof.root == Root(leaves)
  {
    SourceOfMember(|leaves|, index);
    PathFolds(leaves, Digits(index, Depth(|leaves|)));
  }

  lemma TwoLeaves(a: Digest, b: Digest)
    ensures Root([a, b]) == PairHash(a, b)
  {
    assert NextLevel([a, b]) == [PairHash(a, b)];
  }

  /** The smallest trees in full: the empty list has the zero hash, one leaf is its own root, neighbours are
      hashed left before right, and an odd last leaf is hashed with itself. */
  lemma SmallTrees(a: Digest, b: Digest, c: Digest)
    ensures Root([]) == ZeroHash && Root([a]) == a && Root([a, b]) == PairHash(a, b)
    ensures Root([a, b, c]) == PairHash(PairHash(a, b), PairHash(c, c))
  {
    TwoLeaves(a, b);
    assert NextLevel([a, b, c]) == [PairHash(a, b), PairHash(c, c)];
    TwoLeaves(PairHash(a, b), PairHash(c, c));
  }

  /** Digits are faithful: the value of the k lowest digits of i < 2^k is i. */
  lemma {:induction false} DigitsSpell(i: nat, k: nat)
    requires i < Pow2(k)
    ensures Value(Digits(i, k)) == i
  {
    if k > 0 {
      assert i == 2 * (i / 2) + i % 2;
      DigitsSpell(i / 2, k - 1);
      assert Digits(i, k)[1..] == Digits(i / 2, k - 1);
    }
  }

  lemma {:induction false} ValueInRange(place: Place)
    ensures Value(place) < Pow2(|place|)
    ensures Digits(Value(place), |place|) == place
  {
    if place != [] {
      var rest := place[1..];
      ValueInRange(rest);
      assert Value(place) / 2 == Value(rest);
      assert place == [place[0]] + rest;
    }
  }

  /** The depth is the ceiling of log2: 2^depth is the least power of two that holds n leaves. */
  lemma {:induction false} DepthIsCeilLog2(n: nat)
    requires 0 < n
    ensures n <= Pow2(Depth(n))
    ensures 1 < n ==> Pow2(Depth(n) - 1) < n
  {
    if n > 1 {
      DepthIsCeilLog2(Up(n));
    }
  }

  // ---------------------------------------------------------------------------------------------
  // Soundness
  // ---------------------------------------------------------------------------------------------

  /** All transaction hashes below d lie exactly h pairings down. */
  ghost predicate AtHeight(d: Digest, h: nat) {
    if h == 0 then d.TxHash? else d.PairHash? && AtHeight(d.left, h - 1) && AtHeight(d.right, h - 1)
  }

  lemma {:induction false} HeightUnique(d: Digest, h: nat, k: nat)
    requires AtHeight(d, h) && AtHeight(d, k)
    ensures h == k
  {
    if 0 < h && 0 < k {
      HeightUnique(d.left, h - 1, k - 1);
    }
  }

  lemma {:induction false} RootHeight(level: seq<Digest>, h: nat)
    requires level != [] && forall k :: 0 <= k < |level| ==> AtHeight(level[k], h)
    ensures AtHeight(Root(level), h + Depth(|level|))
    decreases |level|
  {
    if |level| > 1 {
      var next := NextLevel(level);
      forall k | 0 <= k < |next| ensures AtHeight(next[k], h + 1) {
        assert next[k] == PairHash(level[Child(|level|, k, false)], level[Child(|level|, k, true)]);
      }
      RootHeight(next, h + 1);
    }
  }

  lemma TxRootHeight(leaves: seq<Digest>)
    requires leaves != [] && TxLeaves(leaves)
    ensures AtHeight(Root(leaves), Depth(|leaves|))
  {
    RootHeight(leaves, 0);
  }

  lemma {:induction false} FoldHeight(leaf: Digest, steps: seq<Step>, h: nat)
    requires AtHeight(Fold(leaf, steps), h)
    ensures |steps| <= h && AtHeight(leaf, h - |steps|)
    decreases |steps|
  {
    if steps != [] {
      FoldHeight(Combine(leaf, steps[0]), steps[1..], h);
    }
  }

  /** A verifying path from a transaction hash is never too short nor too deep for the tree. */
  lemma PathLength(leaves: seq<Digest>, proof: Proof)
    requires leaves != [] && TxLeaves(leaves) && proof.leaf.TxHash?
    requires Verifies(proof) && proof.root == Root(leaves)
    ensures |proof.steps| == Depth(|leaves|)
  {
    TxRootHeight(leaves);
    FoldHeight(proof.leaf, proof.steps, Depth(|leaves|));
    HeightUnique(proof.leaf, 0, Depth(|leaves|) - |proof.steps|);
  }

  /** If a step combines a digest into the node above a place, the digest sits at that place. */
  lemma StepDetermines(leaves: seq<Digest>, leaf: Digest, step: Step, place: Place)
    requires |leaves| > 1 && |place| == Depth(|leaves|)
    requires step.position == if place[0] then Left else Right
    requires Combine(leaf, step) == NextLevel(leaves)[Source(Up(|leaves|), place[1..])]
    ensures leaf == leaves[Source(|leaves|, place)]
    ensures step == Path(leaves, place)[0]
  {
    var parent := Source(Up(|leaves|), place[1..]);
    assert NextLevel(leaves)[parent]
        == PairHash(leaves[Child(|leaves|, parent, false)], leaves[Child(|leaves|, parent, true)]);
  }

  lemma RestDirected(steps: seq<Step>)
    requires steps != [] && Directed(steps)
    ensures Directed(steps[1..])
  {
    forall k | 0 <= k < |steps[1..]|
      ensures steps[1..][k].position == Left || steps[1..][k].position == Right
    {
      assert steps[1..][k] == steps[k + 1];
    }
  }

  /** Steps of the right number that fold to the root are the path of the place they spell. */
  lemma {:induction false} FoldDetermines(leaves: seq<Digest>, leaf: Digest, steps: seq<Step>)
    requires leaves != [] && |steps| == Depth(|leaves|) && Directed(steps)
    requires Fold(leaf, steps) == Root(leaves)
    ensures leaf == leaves[Source(|leaves|, Turns(steps))]
    ensures steps == Path(leaves, Turns(steps))
    decreases |leaves|
  {
    if |leaves| > 1 {
      var rest, place := steps[1..], Turns(steps);
      RestDirected(steps);
      FoldDetermines(NextLevel(leaves), Combine(leaf, steps[0]), rest);
      assert place[1..] == Turns(rest);
      StepDetermines(leaves, leaf, steps[0], place);
      PathStep(leaves, place);
      assert steps == [steps[0]] + rest;
    }
  }

  /** Soundness, as an exact description of the accepted proofs: a proof that starts at a transaction
      hash verifies against the root of a leaf list iff it is the path of some place of the padded
      tree and its leaf is the member of the list that sits there. */
  lemma AcceptedProofs(leaves: seq<Digest>, proof: Proof)
    requires leaves != [] && TxLeaves(leaves)
    requires proof.leaf.TxHash? && proof.root == Root(leaves)
    ensures Verifies(proof) <==>
            exists place: Place :: |place| == Depth(|leaves|) && proof.steps == Path(leaves, place)
                                   && proof.leaf == leaves[Source(|leaves|, place)]
  {
    if Verifies(proof) {
      PathLength(leaves, proof);
      FoldDetermines(leaves, proof.leaf, proof.steps);
    }
    forall place: Place | |place| == Depth(|leaves|) && proof.steps == Path(leaves, place)
                          && proof.leaf == leaves[Source(|leaves|, place)]
      ensures Verifies(proof)
    {
      PathFolds(leaves, place);
    }
  }

  /** The proof is the path of the place that index i spells, and its leaf sits there. */
  predicate SitsAt(leaves: seq<Digest>, proof: Proof, i: nat)
    requires leaves != []
  {
    var place := Digits(i, Depth(|leaves|));
    proof.steps == Path(leaves, place) && proof.leaf == leaves[Source(|leaves|, place)]
  }

  /** The accepted proofs by index: each belongs to exactly one index below 2^depth, and at an index of the
      list its leaf is the leaf there. */
  lemma AcceptedByIndex(leaves: seq<Digest>, proof: Proof)
    requires leaves != [] && TxLeaves(leaves)
    requires proof.leaf.TxHash? && proof.root == Root(leaves)
    ensures Verifies(proof) <==> exists i: nat :: i < Pow2(Depth(|leaves|)) && SitsAt(leaves, proof, i)
    ensures forall i: nat, k: nat :: i < Pow2(Depth(|leaves|)) && k < Pow2(Depth(|leaves|)) ==>
              SitsAt(leaves, proof, i) && SitsAt(leaves, proof, k) ==> i == k
    ensures forall i: nat :: i < |leaves| && SitsAt(leaves, proof, i) ==> proof.leaf == leaves[i]
  {
    if Verifies(proof) {
      var i := IndexOfProof(leaves, proof);
    }
    forall i: nat | i < Pow2(Depth(|leaves|)) && SitsAt(leaves, proof, i)
      ensures i == Value(Turns(proof.steps)) && Verifies(proof)
    {
      IndexOfPath(leaves, proof, i);
    }
    forall i: nat | i < |leaves| && SitsAt(leaves, proof, i) ensures proof.leaf == leaves[i] {
      SourceOfMember(|leaves|, i);
    }
  }

  lemma IndexOfProof(leaves: seq<Digest>, proof: Proof) returns (i: nat)
    requires leaves != [] && TxLeaves(leaves)
    requires proof.leaf.TxHash? && proof.root == Root(leaves) && Verifies(proof)
    ensures i < Pow2(Depth(|leaves|)) && SitsAt(leaves, proof, i)
  {
    PathLength(leaves, proof);
    FoldDetermines(leaves, proof.leaf, proof.steps);
    var place := Turns(proof.steps);
    ValueInRange(place);
    i := Value(place);
  }

  lemma IndexOfPath(leaves: seq<Digest>, proof: Proof, i: nat)
    requires leaves != [] && i < Pow2(Depth(|leaves|)) && SitsAt(leaves, proof, i)
    requires proof.root == Root(leaves)
    ensures i == Value(Turns(proof.steps)) && Verifies(proof)
  {
    PathFolds(leaves, Digits(i, Depth(|leaves|)));
    DigitsSpell(i, Depth(|leaves|));
  }

  /** Soundness: of what verifies against the root of transaction hashes, exactly the transaction hashes are
      members of the list. */
  lemma Soundness(leaves: seq<Digest>, proof: Proof)
    requires leaves != [] && TxLeaves(leaves)
    requires proof.root == Root(leaves) && Verifies(proof)
    ensures proof.leaf in leaves <==> proof.leaf.TxHash?
    ensures proof.leaf.TxHash? ==> |proof.steps| == Depth(|leaves|)
  {
    if proof.leaf.TxHash? {
      PathLength(leaves, proof);
      FoldDetermines(leaves, proof.leaf, proof.steps);
    }
  }

  /** Only the empty list has the zero root: nothing verifies against it from a transaction hash. */
  lemma {:induction false} FoldNotZero(leaf: Digest, steps: seq<Step>)
    requires leaf != ZeroHash
    ensures Fold(leaf, steps) != ZeroHash
    decreases |steps|
  {
    if steps != [] {
      FoldNotZero(Combine(leaf, steps[0]), steps[1..]);
    }
  }

  /** Without the restriction to transaction hashes an inner node passes as a leaf. */
  lemma InnerNodeVerifies(a: TxBody, b: TxBody)
    ensures var leaves := [TxHash(a), TxHash(b)];
            var inner := PairHash(TxHash(a), TxHash(b));
            Verifies(Proof(inner, 0, Root(leaves), [])) && inner !in leaves
  {
    var leaves := [TxHash(a), TxHash(b)];
    assert NextLevel(leaves) == [PairHash(leaves[0], leaves[1])];
  }

  // ---------------------------------------------------------------------------------------------
  // Binding
  // ---------------------------------------------------------------------------------------------

  /** Leaf lists of equal length with equal roots are equal. */
  lemma {:induction false} Binding(a: seq<Digest>, b: seq<Digest>)
    requires |a| == |b| && Root(a) == Root(b)
    ensures a == b
    decreases |a|
  {
    if |a| > 1 {
      Binding(NextLevel(a), NextLevel(b));
      forall i | 0 <= i < |a| ensures a[i] == b[i] {
        assert NextLevel(a)[i / 2] == NextLevel(b)[i / 2];
        ChildOfHalf(i, |a|);
      }
    }
  }

  /** The equal-length condition of Binding is needed: duplicating an odd last leaf keeps the root. */
  lemma DuplicatedLastLeaf(leaves: seq<Digest>)
    requires |leaves| > 1 && |leaves| % 2 == 1
    ensures Root(leaves + [leaves[|leaves| - 1]]) == Root(leaves)
  {
    var longer, n := leaves + [leaves[|leaves| - 1]], |leaves|;
    assert Up(n + 1) == Up(n);
    forall p | 0 <= p < Up(n) ensures NextLevel(longer)[p] == NextLevel(leaves)[p] {
      DuplicatedPair(leaves, p);
    }
    assert NextLevel(longer) == NextLevel(leaves);
  }

  lemma DuplicatedPair(leaves: seq<Digest>, p: nat)
    requires |leaves| % 2 == 1 && p < Up(|leaves|)
    ensures var longer := leaves + [leaves[|leaves| - 1]];
            p < Up(|longer|) && NextLevel(longer)[p] == NextLevel(leaves)[p]
  {
    var longer, n := leaves + [leaves[|leaves| - 1]], |leaves|;
    assert longer[Child(n + 1, p, true)] == leaves[Child(n, p, true)];
    assert longer[Child(n + 1, p, false)] == leaves[Child(n, p, false)];
  }

  /** Lists with the same root and depth hold the same digest at each place of the padded tree. */
  lemma SamePlaces(a: seq<Digest>, b: seq<Digest>, place: Place)
    requires a != [] && b != [] && Root(a) == Root(b)
    requires |place| == Depth(|a|) == Depth(|b|)
    ensures a[Source(|a|, place)] == b[Source(|b|, place)]
  {
    PathFolds(a, place);
    FoldDetermines(b, a[Source(|a|, place)], Path(a, place));
  }

  /** Transaction lists without repetition are bound by the root alone, whatever their lengths. */
  lemma DistinctBinding(a: seq<Digest>, b: seq<Digest>)
    requires a != [] && b != [] && TxLeaves(a) && TxLeaves(b)
    requires Distinct(a) && Distinct(b) && Root(a) == Root(b)
    ensures a == b
  {
    TxRootHeight(a);
    TxRootHeight(b);
    HeightUnique(Root(a), Depth(|a|), Depth(|b|));
    if |a| < |b| {
      LongerRepeats(a, b);
    } else if |b| < |a| {
      LongerRepeats(b, a);
    } else {
      Binding(a, b);
    }
  }

  lemma LongerRepeats(a: seq<Digest>, b: seq<Digest>)
    requires a != [] && |a| < |b| && Root(a) == Root(b) && Depth(|a|) == Depth(|b|)
    ensures !Distinct(b)
  {
    var n, depth := |a|, Depth(|a|);
    var extra := Digits(n, depth);
    SamePlaces(a, b, extra);
    SourceOfMember(|b|, n);
    var k := Source(n, extra);
    SamePlaces(a, b, Digits(k, depth));
    SourceOfMember(n, k);
    SourceOfMember(|b|, k);
    assert b[k] == b[n];
  }
}
