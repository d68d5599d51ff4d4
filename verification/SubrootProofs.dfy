/** What generateSubrootProof proves: exactly when its result is a proof of the range it was asked for. */
module SubrootProofs {
  import opened Powers
  import opened Merkle
  import opened QuinTree

  lemma {:induction false} AncestorBounds(a: nat, i: nat, k: nat)
    requires a >= 1
    ensures Ancestor(a, i, k) * Pow(a, k) <= i < (Ancestor(a, i, k) + 1) * Pow(a, k)
  {
    if k > 0 {
      AncestorBounds(a, i, k - 1);
      StepUp(a, i, Ancestor(a, i, k - 1), Pow(a, k - 1));
    }
  }

  lemma StepUp(a: nat, i: nat, below: nat, w: nat)
    requires a >= 1 && below * w <= i < (below + 1) * w
    ensures below / a * (a * w) <= i < (below / a + 1) * (a * w)
  {
    var up := below / a;
    RoundDown(below, a);
    MulMonotonic(w, up * a, below);
    MulMonotonic(w, below + 1, up * a + a);
    Regroup(up, a, w);
    Regroup(up + 1, a, w);
    assert (up + 1) * a == up * a + a;
  }

  lemma Regroup(x: nat, a: nat, w: nat)
    ensures w * (x * a) == x * (a * w)
  {
    MulAssoc(x, a, w);
  }

  /** The level-k ancestor of leaf i is the aligned group of a^k leaves that i lies in. */
  lemma AncestorIsGroup(a: nat, i: nat, k: nat)
    requires a >= 1
    ensures Ancestor(a, i, k) == i / Pow(a, k)
  {
    AncestorBounds(a, i, k);
    var g, w := Ancestor(a, i, k), Pow(a, k);
    DivDigit(g, i - g * w, w);
  }

  lemma {:induction false} SubDepthOfPower(a: nat, depth: nat, k: nat, from: nat)
    requires a >= 2 && from <= k <= depth
    ensures SubDepthFrom(a, depth, Pow(a, k), from) == k
    decreases k - from
  {
    if from < k {
      PowStrict(a, from, k);
      SubDepthOfPower(a, depth, k, from + 1);
    }
  }

  lemma GroupFits(a: nat, d: nat, k: nat, g: nat, i: nat)
    requires a >= 1 && k <= d && g == i / Pow(a, k) && i < Pow(a, d)
    ensures g < Pow(a, d - k) && g * Pow(a, k) + Pow(a, k) <= Pow(a, d)
  {
    PowAdd(a, k, d - k);
    DivBelow(i, Pow(a, k), Pow(a, d - k));
    MulMonotonic(Pow(a, k), g + 1, Pow(a, d - k));
  }

  /** The root of the tree over an aligned group of leaves is the main tree's node above them. */
  lemma GroupRoot(s: Shape, leaves: seq<int>, k: nat, g: nat, start: nat)
    requires s.arity >= 1 && k <= s.depth && start == g * Pow(s.arity, k) && start + Pow(s.arity, k) <= |leaves|
    ensures Root(s.(depth := k), leaves[start..start + Pow(s.arity, k)]) == NodeAt(s, leaves, k, g)
  {
    SubtreeIsNode(s, leaves, k, g, leaves[start..start + Pow(s.arity, k)], k, 0);
  }

  /** For an aligned range of arity^k leaves: the leaf is the tree's own level-k node and the proof is accepted. */
  lemma AlignedSubrootProof(s: Shape, leaves: seq<int>, k: nat, start: nat)
    requires s.arity >= 2 && k <= s.depth && |leaves| == Capacity(s)
    requires start % Pow(s.arity, k) == 0 && start < Capacity(s)
    ensures start + Pow(s.arity, k) <= |leaves|
    ensures var p := SubrootProofOf(s, leaves, start, start + Pow(s.arity, k));
            p.leaf == NodeAt(s, leaves, k, start / Pow(s.arity, k)) && Accepts(s.hash, p)
  {
    var n := Pow(s.arity, k);
    var g := start / n;
    RoundDown(start, n);
    GroupFits(s.arity, s.depth, k, g, start);
    SubDepthOfPower(s.arity, s.depth, k, 0);
    AncestorIsGroup(s.arity, start, k);
    GroupRoot(s, leaves, k, g, start);
    SubrootProofsAreAccepted(s, leaves, start, k);
  }

  /**
   With an injective hash a range of arity^k leaves, aligned or not, gets an accepted proof exactly when its
   leaves equal those of the aligned group it starts in.
   */
  lemma SubrootProofAcceptedIff(s: Shape, leaves: seq<int>, k: nat, start: nat, n: nat, aligned: nat)
    requires s.arity >= 2 && k <= s.depth && |leaves| == Capacity(s) && Injective(s.hash)
    requires n == Pow(s.arity, k) && aligned == start - start % n && start + n <= |leaves|
    ensures Accepts(s.hash, SubrootProofOf(s, leaves, start, start + n))
       <==> leaves[start..start + n] == leaves[aligned..aligned + n]
  {
    var g := start / n;
    RoundDown(start, n);
    GroupFits(s.arity, s.depth, k, g, start);
    SubDepthOfPower(s.arity, s.depth, k, 0);
    AncestorIsGroup(s.arity, start, k);
    AcceptedIffSameGroup(s, leaves, k, start, n, g, aligned);
  }

  lemma AcceptedIffSameGroup(s: Shape, leaves: seq<int>, k: nat, start: nat, n: nat, g: nat, aligned: nat)
    requires s.arity >= 1 && k <= s.depth && start < |leaves| == Capacity(s) && Injective(s.hash)
    requires n == Pow(s.arity, k) && SubDepthFrom(s.arity, s.depth, n, 0) == k
    requires g == Ancestor(s.arity, start, k) && aligned == g * n && aligned <= start && start + n <= |leaves|
    ensures Accepts(s.hash, SubrootProofOf(s, leaves, start, start + n))
       <==> leaves[start..start + n] == leaves[aligned..aligned + n]
  {
    GroupRoot(s, leaves, k, g, aligned);
    SubrootAcceptedIff(s, leaves, k, start, leaves[start..start + n], leaves[aligned..aligned + n]);
  }

  lemma SubrootAcceptedIff(s: Shape, leaves: seq<int>, k: nat, start: nat, part: seq<int>, group: seq<int>)
    requires s.arity >= 1 && k <= s.depth && start < Capacity(s) && Injective(s.hash)
    requires |part| == |group| == Pow(s.arity, k)
    requires Root(s.(depth := k), group) == NodeAt(s, leaves, k, Ancestor(s.arity, start, k))
    ensures Accepts(s.hash, SubrootProof(s, leaves, start, k, part)) <==> part == group
  {
    var path, indices := PathElements(s, leaves, start), PathIndices(s, start);
    var leaf := Root(s.(depth := k), part);
    SubrootProofsAreAccepted(s, leaves, start, k);
    ClimbDrop(s.hash, path, indices, k, 0, leaf);
    if Climb(s.hash, path, indices, k, leaf) == Root(s, leaves) {
      ClimbSound(s, leaves, start, path, k, leaf);
      SameRootSameLeaves(s.(depth := k), part, group);
    }
  }

  lemma SameRootSameLeaves(s: Shape, xs: seq<int>, ys: seq<int>)
    requires s.arity >= 1 && Injective(s.hash) && |xs| == |ys| == Capacity(s) && Root(s, xs) == Root(s, ys)
    ensures xs == ys
  {
    forall i | 0 <= i < |xs|
      ensures xs[i] == ys[i]
    {
      RootDeterminesLeaves(s, xs, ys, i);
    }
  }

  /** A range whose size is a multiple but no power of the arity gets a proof with no levels, which verifyProof cannot read. */
  lemma NoLevelsUnlessPower(s: Shape, leaves: seq<int>, start: nat, end: nat)
    requires s.arity >= 1 && start <= end <= |leaves|
    ensures SubrootProofOf(s, leaves, start, end).pathElements == []
         <==> forall k: nat :: k < s.depth ==> Pow(s.arity, k) != end - start
  {
    var sub := SubDepthFrom(s.arity, s.depth, end - start, 0);
    assert |PathElements(s, leaves, start)[sub..]| == s.depth - sub;
    if sub == s.depth {
      SubDepthMisses(s.arity, s.depth, end - start, 0);
    } else {
      assert Pow(s.arity, sub) == end - start;
    }
  }

  lemma {:induction false} SubDepthMisses(a: nat, depth: nat, n: nat, from: nat)
    requires from <= depth && SubDepthFrom(a, depth, n, from) == depth
    ensures forall k: nat :: from <= k < depth ==> Pow(a, k) != n
    decreases depth - from
  {
    if from < depth {
      SubDepthMisses(a, depth, n, from + 1);
    }
  }
}
