/**
 The reference meaning of an n-ary Merkle tree: a plain recursive hash over a
 leaf sequence that is padded with the zero leaf. The incremental tree, the
 vote roots and the commitments are all proved against this definition.
 */
module Merkle {
  import opened Powers

  /** What a tree is built with; the hash is a parameter, as in the source. */
  datatype Shape = Shape(arity: nat, depth: nat, zero: int, hash: seq<int> -> int)

  /** Depth 0 has an empty table of zeros and is not modelled; a hash of 0 would read as "absent". */
  ghost predicate WellFormed(s: Shape) {
    s.arity >= 2 && s.depth >= 1 && forall xs :: s.hash(xs) != 0
  }

  function Capacity(s: Shape): nat { Pow(s.arity, s.depth) }

  /** How many nodes level `level` has. */
  function Width(s: Shape, level: nat): nat
    requires level <= s.depth
  {
    Pow(s.arity, s.depth - level)
  }

  function LeafAt(s: Shape, leaves: seq<int>, i: nat): int {
    if i < |leaves| then leaves[i] else s.zero
  }

  /** The reference hash: node `pos` of level `level`, leaves being level 0. */
  function NodeAt(s: Shape, leaves: seq<int>, level: nat, pos: nat): int
    decreases level, 0
  {
    if level == 0 then LeafAt(s, leaves, pos) else s.hash(Children(s, leaves, level - 1, pos))
  }

  /** The nodes of level `level` below node `pos` of the next level. */
  function Children(s: Shape, leaves: seq<int>, level: nat, pos: nat): (kids: seq<int>)
    ensures |kids| == s.arity
    ensures forall c :: 0 <= c < s.arity ==> kids[c] == NodeAt(s, leaves, level, pos * s.arity + c)
    decreases level, 1
  {
    seq(s.arity, c requires 0 <= c < s.arity => NodeAt(s, leaves, level, pos * s.arity + c))
  }

  function Root(s: Shape, leaves: seq<int>): int {
    NodeAt(s, leaves, s.depth, 0)
  }

  /** A full leaf row: the given leaves followed by zeros. */
  function Padded(s: Shape, leaves: seq<int>): (row: seq<int>)
    ensures |row| == Capacity(s)
  {
    seq(Capacity(s), i requires 0 <= i < Capacity(s) => LeafAt(s, leaves, i))
  }

  /** The hash of an all-zero subtree of the given height. */
  function ZeroAt(s: Shape, level: nat): int {
    if level == 0 then s.zero else s.hash(seq(s.arity, _ => ZeroAt(s, level - 1)))
  }

  /** Nodes depend on the leaves only through LeafAt, so padding and trimming zeros change nothing. */
  lemma {:induction false} SameLeavesSameNodes(s: Shape, xs: seq<int>, ys: seq<int>, level: nat, pos: nat)
    requires forall i: nat :: LeafAt(s, xs, i) == LeafAt(s, ys, i)
    ensures NodeAt(s, xs, level, pos) == NodeAt(s, ys, level, pos)
    decreases level
  {
    if level == 0 {
    } else {
      var xkids, ykids := Children(s, xs, level - 1, pos), Children(s, ys, level - 1, pos);
      forall c | 0 <= c < s.arity
        ensures xkids[c] == ykids[c]
      {
        SameLeavesSameNodes(s, xs, ys, level - 1, pos * s.arity + c);
      }
      assert xkids == ykids;
    }
  }

  /** Inside the tree only the leaves below the capacity matter. */
  lemma {:induction false} SameRowSameNodes(s: Shape, xs: seq<int>, ys: seq<int>, level: nat, pos: nat)
    requires s.arity >= 1 && level <= s.depth && pos < Width(s, level)
    requires forall i: nat :: i < Capacity(s) ==> LeafAt(s, xs, i) == LeafAt(s, ys, i)
    ensures NodeAt(s, xs, level, pos) == NodeAt(s, ys, level, pos)
    decreases level
  {
    if level == 0 {
    } else {
      var xkids, ykids := Children(s, xs, level - 1, pos), Children(s, ys, level - 1, pos);
      forall c | 0 <= c < s.arity
        ensures xkids[c] == ykids[c]
      {
        DigitBelow(pos, c, s.arity, Width(s, level));
        SameRowSameNodes(s, xs, ys, level - 1, pos * s.arity + c);
      }
      assert xkids == ykids;
    }
  }

  lemma SplitDigit(group: nat, w: nat, b: nat, pos: nat, c: nat)
    ensures group * (b * w) + (pos * b + c) == (group * w + pos) * b + c
  {
  }

  /** A subtree of the main tree is the tree of the leaves below it. */
  lemma {:induction false} SubtreeIsNode(s: Shape, leaves: seq<int>, k: nat, group: nat, part: seq<int>, level: nat, pos: nat)
    requires s.arity >= 1 && level <= k && pos < Pow(s.arity, k - level)
    requires |part| == Pow(s.arity, k)
    requires forall i :: 0 <= i < |part| ==> part[i] == LeafAt(s, leaves, group * Pow(s.arity, k) + i)
    ensures NodeAt(s.(depth := k), part, level, pos) == NodeAt(s, leaves, level, group * Pow(s.arity, k - level) + pos)
    decreases level
  {
    if level == 0 {
    } else {
      var w := Pow(s.arity, k - level);
      var sub := s.(depth := k);
      var xkids, ykids := Children(sub, part, level - 1, pos), Children(s, leaves, level - 1, group * w + pos);
      forall c | 0 <= c < s.arity
        ensures xkids[c] == ykids[c]
      {
        DigitBelow(pos, c, s.arity, w);
        SubtreeIsNode(s, leaves, k, group, part, level - 1, pos * s.arity + c);
        SplitDigit(group, w, s.arity, pos, c);
      }
      assert xkids == ykids;
    }
  }

  // ----- proofs

  /** A Merkle proof as the source returns it. */
  datatype Proof = Proof(pathElements: seq<seq<int>>, pathIndices: seq<nat>, root: int, leaf: int)

  /** The position of leaf i's ancestor at the given level. */
  function Ancestor(arity: nat, i: nat, level: nat): nat
    requires arity >= 1
  {
    if level == 0 then i else Ancestor(arity, i, level - 1) / arity
  }

  function Without(kids: seq<int>, skip: nat): (r: seq<int>)
    requires skip < |kids|
    ensures |r| == |kids| - 1
  {
    kids[..skip] + kids[skip + 1..]
  }

  /** The brothers of node `pos`, left to right, without the node itself. */
  function Siblings(s: Shape, leaves: seq<int>, level: nat, pos: nat): (r: seq<int>)
    requires s.arity >= 1
    ensures |r| == s.arity - 1
  {
    Without(Children(s, leaves, level, pos / s.arity), pos % s.arity)
  }

  function PathElements(s: Shape, leaves: seq<int>, i: nat): (r: seq<seq<int>>)
    requires s.arity >= 1
    ensures |r| == s.depth
  {
    seq(s.depth, l requires 0 <= l < s.depth => Siblings(s, leaves, l, Ancestor(s.arity, i, l)))
  }

  function PathIndices(s: Shape, i: nat): (r: seq<nat>)
    requires s.arity >= 1
    ensures |r| == s.depth
  {
    seq(s.depth, l requires 0 <= l < s.depth => Ancestor(s.arity, i, l) % s.arity)
  }

  function ProofOf(s: Shape, leaves: seq<int>, i: nat): Proof
    requires s.arity >= 1
  {
    Proof(PathElements(s, leaves, i), PathIndices(s, i), Root(s, leaves), LeafAt(s, leaves, i))
  }

  /** JavaScript's splice(start, 0, x) for a start >= 0: a start past the end appends. */
  function Splice(xs: seq<int>, start: nat, x: int): seq<int> {
    if start <= |xs| then xs[..start] + [x] + xs[start..] else xs + [x]
  }

  /** Number(undefined) is NaN, which splice reads as 0. */
  function IndexAt(indices: seq<nat>, l: nat): nat {
    if l < |indices| then indices[l] else 0
  }

  /** Hash value v, sitting at `level`, up through the rest of the path. */
  function Climb(hash: seq<int> -> int, path: seq<seq<int>>, indices: seq<nat>, level: nat, v: int): int
    requires level <= |path|
    decreases |path| - level
  {
    if level == |path| then v
    else Climb(hash, path, indices, level + 1, hash(Splice(path[level], IndexAt(indices, level), v)))
  }

  predicate Accepts(hash: seq<int> -> int, p: Proof) {
    Climb(hash, p.pathElements, p.pathIndices, 0, p.leaf) == p.root
  }

  lemma {:induction false} AncestorBelow(s: Shape, i: nat, level: nat)
    requires s.arity >= 1 && level <= s.depth && i < Capacity(s)
    ensures Ancestor(s.arity, i, level) < Width(s, level)
  {
    if level == 0 {
    } else {
      AncestorBelow(s, i, level - 1);
      DivBelow(Ancestor(s.arity, i, level - 1), s.arity, Width(s, level));
    }
  }

  lemma SpliceBack(xs: seq<int>, at: nat)
    requires at < |xs|
    ensures Splice(Without(xs, at), at, xs[at]) == xs
  {
    assert Without(xs, at)[..at] == xs[..at];
  }

  /** Putting a node back between its brothers gives its parent's children. */
  lemma SpliceSiblings(s: Shape, leaves: seq<int>, level: nat, pos: nat)
    requires s.arity >= 1
    ensures Splice(Siblings(s, leaves, level, pos), pos % s.arity, NodeAt(s, leaves, level, pos))
         == Children(s, leaves, level, pos / s.arity)
  {
    var kids, at := Children(s, leaves, level, pos / s.arity), pos % s.arity;
    assert pos / s.arity * s.arity + at == pos;
    assert kids[at] == NodeAt(s, leaves, level, pos);
    SpliceBack(kids, at);
  }

  /** Climbing from the true node of a level along the true path ends in the root. */
  lemma {:induction false} ClimbComplete(s: Shape, leaves: seq<int>, i: nat, level: nat)
    requires s.arity >= 1 && level <= s.depth && i < Capacity(s)
    ensures Climb(s.hash, PathElements(s, leaves, i), PathIndices(s, i), level,
                  NodeAt(s, leaves, level, Ancestor(s.arity, i, level))) == Root(s, leaves)
    decreases s.depth - level
  {
    if level == s.depth {
      AncestorBelow(s, i, level);
    } else {
      SpliceSiblings(s, leaves, level, Ancestor(s.arity, i, level));
      ClimbComplete(s, leaves, i, level + 1);
    }
  }

  /** Every generated proof is accepted. */
  lemma ProofsAreAccepted(s: Shape, leaves: seq<int>, i: nat)
    requires s.arity >= 1 && i < Capacity(s)
    ensures Accepts(s.hash, ProofOf(s, leaves, i))
  {
    ClimbComplete(s, leaves, i, 0);
  }

  /** The upper part of a proof, started at a subtree's root, is accepted too. */
  lemma SubrootProofsAreAccepted(s: Shape, leaves: seq<int>, i: nat, k: nat)
    requires s.arity >= 1 && i < Capacity(s) && k <= s.depth
    ensures Accepts(s.hash, Proof(PathElements(s, leaves, i)[k..], PathIndices(s, i)[k..], Root(s, leaves),
                                  NodeAt(s, leaves, k, Ancestor(s.arity, i, k))))
  {
    ClimbComplete(s, leaves, i, k);
    ClimbDrop(s.hash, PathElements(s, leaves, i), PathIndices(s, i), k, 0, NodeAt(s, leaves, k, Ancestor(s.arity, i, k)));
  }

  lemma {:induction false} ClimbDrop(hash: seq<int> -> int, path: seq<seq<int>>, indices: seq<nat>, k: nat, level: nat, v: int)
    requires |indices| == |path| && k + level <= |path|
    ensures Climb(hash, path[k..], indices[k..], level, v) == Climb(hash, path, indices, k + level, v)
    decreases |path| - level
  {
    if k + level < |path| {
      ClimbDrop(hash, path, indices, k, level + 1, hash(Splice(path[k + level], indices[k + level], v)));
    }
  }

  // ----- soundness

  ghost predicate Injective(hash: seq<int> -> int) {
    forall xs, ys :: |xs| == |ys| && hash(xs) == hash(ys) ==> xs == ys
  }

  ghost predicate WellShaped(s: Shape, path: seq<seq<int>>) {
    |path| == s.depth && forall l :: 0 <= l < s.depth ==> |path[l]| == s.arity - 1
  }

  lemma SpliceInjective(xs: seq<int>, x: int, ys: seq<int>, y: int, at: nat)
    requires |xs| == |ys| && at <= |xs| && Splice(xs, at, x) == Splice(ys, at, y)
    ensures x == y && xs == ys
  {
    assert x == Splice(xs, at, x)[at] == Splice(ys, at, y)[at] == y;
    assert xs[..at] == Splice(xs, at, x)[..at] == Splice(ys, at, y)[..at] == ys[..at];
    assert xs[at..] == Splice(xs, at, x)[at + 1..] == Splice(ys, at, y)[at + 1..] == ys[at..];
    assert xs == xs[..at] + xs[at..];
    assert ys == ys[..at] + ys[at..];
  }

  /** A value that climbs to the root along i's indices is the node it claims to be, and so is the path above it. */
  lemma {:induction false} ClimbSound(s: Shape, leaves: seq<int>, i: nat, path: seq<seq<int>>, level: nat, v: int)
    requires s.arity >= 1 && level <= s.depth && i < Capacity(s)
    requires Injective(s.hash) && WellShaped(s, path)
    requires Climb(s.hash, path, PathIndices(s, i), level, v) == Root(s, leaves)
    ensures v == NodeAt(s, leaves, level, Ancestor(s.arity, i, level))
    ensures forall l :: level <= l < s.depth ==> path[l] == PathElements(s, leaves, i)[l]
    decreases s.depth - level
  {
    hide Siblings, Splice, NodeAt, Injective, PathElements, PathIndices, Ancestor;
    if level == s.depth {
      AncestorBelow(s, i, level);
    } else {
      hide Climb, Root, WellShaped;
      var pos := Ancestor(s.arity, i, level);
      OneLevelUp(s, leaves, i, path, level, v);
      ClimbSound(s, leaves, i, path, level + 1, s.hash(Splice(path[level], pos % s.arity, v)));
      StepSound(s, leaves, level, pos, path[level], v);
    }
  }

  lemma OneLevelUp(s: Shape, leaves: seq<int>, i: nat, path: seq<seq<int>>, level: nat, v: int)
    requires s.arity >= 1 && level < s.depth && WellShaped(s, path)
    ensures |path| == s.depth && |path[level]| == s.arity - 1
    ensures Climb(s.hash, path, PathIndices(s, i), level, v)
         == Climb(s.hash, path, PathIndices(s, i), level + 1, s.hash(Splice(path[level], Ancestor(s.arity, i, level) % s.arity, v)))
    ensures Ancestor(s.arity, i, level + 1) == Ancestor(s.arity, i, level) / s.arity
    ensures PathElements(s, leaves, i)[level] == Siblings(s, leaves, level, Ancestor(s.arity, i, level))
  {
    hide Siblings, Splice;
  }

  /** One level of soundness: a value and brothers that hash to the true parent are the true ones. */
  lemma StepSound(s: Shape, leaves: seq<int>, level: nat, pos: nat, brothers: seq<int>, v: int)
    requires s.arity >= 1 && Injective(s.hash) && |brothers| == s.arity - 1
    requires s.hash(Splice(brothers, pos % s.arity, v)) == NodeAt(s, leaves, level + 1, pos / s.arity)
    ensures v == NodeAt(s, leaves, level, pos) && brothers == Siblings(s, leaves, level, pos)
  {
    SpliceSiblings(s, leaves, level, pos);
    SpliceInjective(brothers, v, Siblings(s, leaves, level, pos), NodeAt(s, leaves, level, pos), pos % s.arity);
  }

  /** With an injective hash a well-shaped proof for position i is accepted iff it is the true one. */
  lemma AcceptedIffTrue(s: Shape, leaves: seq<int>, i: nat, p: Proof)
    requires s.arity >= 1 && i < Capacity(s) && Injective(s.hash)
    requires WellShaped(s, p.pathElements) && p.pathIndices == PathIndices(s, i) && p.root == Root(s, leaves)
    ensures Accepts(s.hash, p) <==> p == ProofOf(s, leaves, i)
  {
    if Accepts(s.hash, p) {
      ClimbSound(s, leaves, i, p.pathElements, 0, p.leaf);
      assert p.pathElements == PathElements(s, leaves, i);
    }
    ProofsAreAccepted(s, leaves, i);
  }

  /** With an injective hash the root determines every leaf below the capacity. */
  lemma RootDeterminesLeaves(s: Shape, xs: seq<int>, ys: seq<int>, i: nat)
    requires s.arity >= 1 && i < Capacity(s) && Injective(s.hash)
    requires Root(s, xs) == Root(s, ys)
    ensures LeafAt(s, xs, i) == LeafAt(s, ys, i)
  {
    AcceptedIffTrue(s, ys, i, ProofOf(s, xs, i));
    ProofsAreAccepted(s, xs, i);
  }

  /** A node that is not above leaf i does not depend on it. */
  lemma {:induction false} NodesIgnoreOthers(s: Shape, xs: seq<int>, ys: seq<int>, i: nat, level: nat, pos: nat)
    requires s.arity >= 1 && level <= s.depth && pos < Width(s, level) && pos != Ancestor(s.arity, i, level)
    requires forall j: nat :: j < Capacity(s) && j != i ==> LeafAt(s, xs, j) == LeafAt(s, ys, j)
    ensures NodeAt(s, xs, level, pos) == NodeAt(s, ys, level, pos)
    decreases level
  {
    if level == 0 {
    } else {
      var xkids, ykids := Children(s, xs, level - 1, pos), Children(s, ys, level - 1, pos);
      forall c | 0 <= c < s.arity
        ensures xkids[c] == ykids[c]
      {
        DigitBelow(pos, c, s.arity, Width(s, level));
        DivDigit(pos, c, s.arity);
        NodesIgnoreOthers(s, xs, ys, i, level - 1, pos * s.arity + c);
      }
      assert xkids == ykids;
    }
  }

  /** So the path of leaf i does not depend on leaf i. */
  lemma PathsIgnoreOwnLeaf(s: Shape, xs: seq<int>, ys: seq<int>, i: nat)
    requires s.arity >= 1 && i < Capacity(s)
    requires forall j: nat :: j < Capacity(s) && j != i ==> LeafAt(s, xs, j) == LeafAt(s, ys, j)
    ensures PathElements(s, xs, i) == PathElements(s, ys, i)
  {
    forall l | 0 <= l < s.depth
      ensures PathElements(s, xs, i)[l] == PathElements(s, ys, i)[l]
    {
      SiblingsIgnoreOwnLeaf(s, xs, ys, i, l);
    }
  }

  lemma SiblingsIgnoreOwnLeaf(s: Shape, xs: seq<int>, ys: seq<int>, i: nat, l: nat)
    requires s.arity >= 1 && i < Capacity(s) && l < s.depth
    requires forall j: nat :: j < Capacity(s) && j != i ==> LeafAt(s, xs, j) == LeafAt(s, ys, j)
    ensures Siblings(s, xs, l, Ancestor(s.arity, i, l)) == Siblings(s, ys, l, Ancestor(s.arity, i, l))
  {
    hide NodeAt, Ancestor;
    var pos := Ancestor(s.arity, i, l);
    var xkids, ykids := Children(s, xs, l, pos / s.arity), Children(s, ys, l, pos / s.arity);
    AncestorBelow(s, i, l);
    DivBelow(pos, s.arity, Width(s, l + 1));
    forall c | 0 <= c < s.arity && c != pos % s.arity
      ensures xkids[c] == ykids[c]
    {
      DigitBelow(pos / s.arity, c, s.arity, Width(s, l + 1));
      DivDigit(pos / s.arity, c, s.arity);
      NodesIgnoreOthers(s, xs, ys, i, l, pos / s.arity * s.arity + c);
    }
  }

  /** Put in the place of leaf i, a value climbs the old path to the root of the tree that has it there. */
  lemma UpdateClimbs(s: Shape, leaves: seq<int>, i: nat, v: int)
    requires s.arity >= 1 && i < |leaves| <= Capacity(s)
    ensures Climb(s.hash, PathElements(s, leaves, i), PathIndices(s, i), 0, v) == Root(s, leaves[i := v])
  {
    hide PathElements, PathIndices, Climb, Root;
    PathsIgnoreOwnLeaf(s, leaves, leaves[i := v], i);
    ClimbComplete(s, leaves[i := v], i, 0);
  }

  /** Paths, like nodes, only see leaves through LeafAt. */
  lemma SameRowSameProof(s: Shape, xs: seq<int>, ys: seq<int>, i: nat)
    requires s.arity >= 1 && i < Capacity(s)
    requires forall j: nat :: j < Capacity(s) ==> LeafAt(s, xs, j) == LeafAt(s, ys, j)
    ensures ProofOf(s, xs, i) == ProofOf(s, ys, i)
  {
    forall l | 0 <= l < s.depth
      ensures PathElements(s, xs, i)[l] == PathElements(s, ys, i)[l]
    {
      var pos := Ancestor(s.arity, i, l);
      AncestorBelow(s, i, l + 1);
      forall c | 0 <= c < s.arity
        ensures Children(s, xs, l, pos / s.arity)[c] == Children(s, ys, l, pos / s.arity)[c]
      {
        DigitBelow(pos / s.arity, c, s.arity, Width(s, l + 1));
        SameRowSameNodes(s, xs, ys, l, pos / s.arity * s.arity + c);
      }
      assert Children(s, xs, l, pos / s.arity) == Children(s, ys, l, pos / s.arity);
    }
    SameRowSameNodes(s, xs, ys, s.depth, 0);
    assert PathElements(s, xs, i) == PathElements(s, ys, i);
  }
}
