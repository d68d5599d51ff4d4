/**
 The sparse node store of the incremental tree: one flat index space, leaves
 first and root last, where an absent node (or a stored 0) reads as the zero of
 its level. Index arithmetic and the consistency of the store are proved here,
 on values, for the class in IncrementalQuinTree.dfy.
 */
module NodeStore {
  import opened Powers
  import opened Merkle

  /** The flat index of the first node of a level. */
  function LevelOffset(s: Shape, level: nat): nat
    requires level <= s.depth + 1
  {
    if level == 0 then 0 else LevelOffset(s, level - 1) + Pow(s.arity, s.depth + 1 - level)
  }

  function NumNodes(s: Shape): nat { LevelOffset(s, s.depth + 1) }

  /** The level whose index range holds `index`, searched upwards from `level`. */
  function LevelFrom(s: Shape, index: nat, level: nat): (l: nat)
    requires level <= s.depth && LevelOffset(s, level) <= index < NumNodes(s)
    ensures level <= l <= s.depth && LevelOffset(s, l) <= index < LevelOffset(s, l + 1)
    decreases s.depth - level
  {
    if index < LevelOffset(s, level + 1) then level else LevelFrom(s, index, level + 1)
  }

  /** Node `pos` of level `level`, as getNode reads it. */
  function At(s: Shape, nodes: map<int, int>, level: nat, pos: nat): int
    requires level <= s.depth + 1
  {
    var i := LevelOffset(s, level) + pos;
    if i in nodes && nodes[i] != 0 then nodes[i] else ZeroAt(s, level)
  }

  /** What getNode returns for a flat index. */
  function Read(s: Shape, nodes: map<int, int>, index: nat): int
    requires index < NumNodes(s)
  {
    var l := LevelFrom(s, index, 0);
    At(s, nodes, l, index - LevelOffset(s, l))
  }

  /** The level-`level` nodes below node `pos` of the next level. */
  function Kids(s: Shape, nodes: map<int, int>, level: nat, pos: nat): (kids: seq<int>)
    requires level <= s.depth
    ensures |kids| == s.arity
    ensures forall c :: 0 <= c < s.arity ==> kids[c] == At(s, nodes, level, pos * s.arity + c)
  {
    seq(s.arity, c requires 0 <= c < s.arity => At(s, nodes, level, pos * s.arity + c))
  }

  /** The leaf row as getNode reads it. */
  function Row(s: Shape, nodes: map<int, int>): (row: seq<int>)
    ensures |row| == Capacity(s)
    ensures forall i :: 0 <= i < |row| ==> row[i] == At(s, nodes, 0, i)
  {
    seq(Capacity(s), i requires 0 <= i < Capacity(s) => At(s, nodes, 0, i))
  }

  ghost predicate NodeOk(s: Shape, nodes: map<int, int>, level: nat, pos: nat)
    requires 1 <= level <= s.depth
  {
    At(s, nodes, level, pos) == s.hash(Kids(s, nodes, level - 1, pos))
  }

  /** Every interior node is the hash of its children, except those of leaf `index`'s path above level `done`. */
  ghost predicate ConsistentBut(s: Shape, nodes: map<int, int>, index: nat, done: nat)
    requires s.arity >= 1
  {
    forall l: nat, p: nat {:trigger NodeOk(s, nodes, l, p)} ::
      1 <= l <= s.depth && p < Width(s, l) && (l <= done || p != Ancestor(s.arity, index, l)) ==> NodeOk(s, nodes, l, p)
  }

  ghost predicate Consistent(s: Shape, nodes: map<int, int>)
  {
    forall l: nat, p: nat {:trigger NodeOk(s, nodes, l, p)} ::
      1 <= l <= s.depth && p < Width(s, l) ==> NodeOk(s, nodes, l, p)
  }

  // ----- index arithmetic

  lemma {:induction false} OffsetMonotonic(s: Shape, l: nat, m: nat)
    requires l <= m <= s.depth + 1
    ensures LevelOffset(s, l) <= LevelOffset(s, m)
    decreases m - l
  {
    if l < m {
      OffsetMonotonic(s, l, m - 1);
    }
  }

  /** A flat index belongs to one level only. */
  lemma SameIndexSamePlace(s: Shape, l: nat, p: nat, m: nat, q: nat)
    requires l <= s.depth && p < Width(s, l) && m <= s.depth && q < Width(s, m)
    requires LevelOffset(s, l) + p == LevelOffset(s, m) + q
    ensures l == m && p == q
  {
    if l < m {
      OffsetMonotonic(s, l + 1, m);
      assert false;
    } else if m < l {
      OffsetMonotonic(s, m + 1, l);
      assert false;
    }
  }

  lemma InStore(s: Shape, l: nat, p: nat)
    requires l <= s.depth && p < Width(s, l)
    ensures LevelOffset(s, l) + p < NumNodes(s)
  {
    OffsetMonotonic(s, l + 1, s.depth + 1);
  }

  lemma LevelOfPlace(s: Shape, l: nat, p: nat, index: nat)
    requires l <= s.depth && p < Width(s, l) && index == LevelOffset(s, l) + p && index < NumNodes(s)
    ensures LevelFrom(s, index, 0) == l
  {
    var m := LevelFrom(s, index, 0);
    SameIndexSamePlace(s, l, p, m, index - LevelOffset(s, m));
  }

  lemma ReadIsAt(s: Shape, nodes: map<int, int>, l: nat, p: nat)
    requires l <= s.depth && p < Width(s, l)
    ensures LevelOffset(s, l) + p < NumNodes(s)
    ensures Read(s, nodes, LevelOffset(s, l) + p) == At(s, nodes, l, p)
  {
    InStore(s, l, p);
    LevelOfPlace(s, l, p, LevelOffset(s, l) + p);
  }

  /** 1 + a + ... + a^k. */
  function GeometricSum(a: nat, k: nat): nat {
    if k == 0 then 1 else GeometricSum(a, k - 1) + Pow(a, k)
  }

  lemma {:induction false} GeometricBelow(a: nat, k: nat)
    requires a >= 2
    ensures GeometricSum(a, k) < Pow(a, k + 1)
    ensures (a - 1) * GeometricSum(a, k) == Pow(a, k + 1) - 1
  {
    if k > 0 {
      GeometricBelow(a, k - 1);
      GeometricStep(a, GeometricSum(a, k - 1), Pow(a, k));
    }
  }

  lemma GeometricStep(a: nat, sum: nat, power: nat)
    requires a >= 2 && sum < power && (a - 1) * sum == power - 1
    ensures sum + power < a * power && (a - 1) * (sum + power) == a * power - 1
  {
    assert (a - 1) * (sum + power) == (a - 1) * sum + (a - 1) * power;
    assert (a - 1) * power == a * power - power;
    MulMonotonic(power, 2, a);
  }

  lemma {:induction false} OffsetPlusGeometric(s: Shape, l: nat)
    requires l <= s.depth
    ensures LevelOffset(s, l) + GeometricSum(s.arity, s.depth - l) == GeometricSum(s.arity, s.depth)
  {
    if l > 0 {
      OffsetPlusGeometric(s, l - 1);
    }
  }

  /** The node count the constructor computes is the end of the flat index space. */
  lemma NodeCount(s: Shape)
    requires s.arity >= 2
    ensures (Pow(s.arity, s.depth + 1) - 1) / (s.arity - 1) == NumNodes(s) == GeometricSum(s.arity, s.depth)
    ensures NumNodes(s) == LevelOffset(s, s.depth) + 1
  {
    OffsetPlusGeometric(s, s.depth);
    GeometricBelow(s.arity, s.depth);
    DivExact(GeometricSum(s.arity, s.depth), s.arity - 1, Pow(s.arity, s.depth + 1) - 1);
  }

  lemma DivExact(x: nat, b: nat, product: nat)
    requires b >= 1 && b * x == product
    ensures product / b == x
  {
    DivDigit(x, 0, b);
  }

  lemma ShiftStep(x: nat, w: nat, b: nat)
    ensures (x + w) * b == x * b + b * w
  {
  }

  lemma {:induction false} OffsetShift(s: Shape, l: nat)
    requires 1 <= l <= s.depth + 1
    ensures LevelOffset(s, l) >= Capacity(s)
    ensures (LevelOffset(s, l) - Capacity(s)) * s.arity == LevelOffset(s, l - 1)
  {
    if l > 1 {
      OffsetShift(s, l - 1);
      ShiftStep(LevelOffset(s, l - 1) - Capacity(s), Pow(s.arity, s.depth + 1 - l), s.arity);
    }
  }

  /** The flat index calcChildIndices computes for child c of a node. */
  function ChildIndex(s: Shape, parent: nat, c: nat): nat
    requires parent >= Capacity(s)
  {
    (parent - Capacity(s)) * s.arity + c
  }

  /** The child indices the source computes from a parent's index are the children's places. */
  lemma ChildPlace(s: Shape, l: nat, p: nat, c: nat)
    requires s.arity >= 1 && 1 <= l <= s.depth && p < Width(s, l) && c < s.arity
    ensures LevelOffset(s, l) + p >= Capacity(s)
    ensures ChildIndex(s, LevelOffset(s, l) + p, c) == LevelOffset(s, l - 1) + (p * s.arity + c)
    ensures p * s.arity + c < Width(s, l - 1)
  {
    OffsetShift(s, l);
    DigitBelow(p, c, s.arity, Width(s, l));
    assert (LevelOffset(s, l) + p - Capacity(s)) * s.arity == (LevelOffset(s, l) - Capacity(s)) * s.arity + p * s.arity;
  }

  lemma NotRoot(s: Shape, l: nat, p: nat)
    requires s.arity >= 2 && l < s.depth && p < Width(s, l)
    ensures LevelOffset(s, l) + p < NumNodes(s) - 1
  {
    NodeCount(s);
    OffsetMonotonic(s, l + 1, s.depth);
  }

  /** Reading child c of node `pos` of the next level, by the flat index computed from either end. */
  lemma ReadChild(s: Shape, nodes: map<int, int>, level: nat, pos: nat, c: nat)
    requires s.arity >= 2 && level < s.depth && pos < Width(s, level + 1) && c < s.arity
    ensures Capacity(s) <= LevelOffset(s, level + 1) + pos < NumNodes(s)
    ensures var i := ChildIndex(s, LevelOffset(s, level + 1) + pos, c);
            && i == LevelOffset(s, level) + (pos * s.arity + c)
            && i < NumNodes(s) - 1
            && Read(s, nodes, i) == Kids(s, nodes, level, pos)[c]
  {
    ChildPlace(s, level + 1, pos, c);
    InStore(s, level + 1, pos);
    NotRoot(s, level, pos * s.arity + c);
    ReadIsAt(s, nodes, level, pos * s.arity + c);
  }

  lemma ReadLeaf(s: Shape, nodes: map<int, int>, i: nat)
    requires s.arity >= 2 && s.depth >= 1 && i < Capacity(s)
    ensures i < NumNodes(s) - 1 && Read(s, nodes, i) == Row(s, nodes)[i]
    ensures Row(s, nodes)[i] == 0 ==> s.zero == 0
  {
    NotRoot(s, 0, i);
    ReadIsAt(s, nodes, 0, i);
  }

  /** When the whole path has been rehashed the store is consistent again. */
  lemma PathDone(s: Shape, nodes: map<int, int>, index: nat)
    requires s.arity >= 1 && ConsistentBut(s, nodes, index, s.depth)
    ensures Consistent(s, nodes)
  {
  }

  // ----- writing one node

  function Stored(s: Shape, level: nat, v: int): int {
    if v == 0 then ZeroAt(s, level) else v
  }

  lemma AtPut(s: Shape, nodes: map<int, int>, l: nat, p: nat, v: int, m: nat, q: nat)
    requires l <= s.depth && p < Width(s, l) && m <= s.depth && q < Width(s, m)
    ensures At(s, nodes[LevelOffset(s, l) + p := v], m, q)
         == if m == l && q == p then Stored(s, l, v) else At(s, nodes, m, q)
  {
    if LevelOffset(s, l) + p == LevelOffset(s, m) + q {
      SameIndexSamePlace(s, l, p, m, q);
    }
  }

  /** A write only disturbs the children of its own parent. */
  lemma KidsPut(s: Shape, nodes: map<int, int>, l: nat, p: nat, v: int, m: nat, q: nat)
    requires s.arity >= 1 && l <= s.depth && p < Width(s, l) && 1 <= m <= s.depth && q < Width(s, m)
    requires m - 1 != l || q != p / s.arity
    ensures Kids(s, nodes[LevelOffset(s, l) + p := v], m - 1, q) == Kids(s, nodes, m - 1, q)
  {
    var nodes' := nodes[LevelOffset(s, l) + p := v];
    var before, after := Kids(s, nodes, m - 1, q), Kids(s, nodes', m - 1, q);
    forall c | 0 <= c < s.arity
      ensures after[c] == before[c]
    {
      DigitBelow(q, c, s.arity, Width(s, m));
      DivDigit(q, c, s.arity);
      AtPut(s, nodes, l, p, v, m - 1, q * s.arity + c);
    }
    assert after == before;
  }

  lemma PutLeafRow(s: Shape, nodes: map<int, int>, index: nat, v: int)
    requires index < Capacity(s)
    ensures Row(s, nodes[index := v]) == Row(s, nodes)[index := Stored(s, 0, v)]
  {
    var before, after := Row(s, nodes), Row(s, nodes[index := v]);
    forall i | 0 <= i < Capacity(s)
      ensures after[i] == if i == index then Stored(s, 0, v) else before[i]
    {
      AtPut(s, nodes, 0, index, v, 0, i);
    }
    assert after == before[index := Stored(s, 0, v)];
  }

  /** Writing a leaf leaves only its own path to be rehashed. */
  lemma PutLeafPath(s: Shape, nodes: map<int, int>, index: nat, v: int)
    requires s.arity >= 1 && index < Capacity(s) && Consistent(s, nodes)
    ensures ConsistentBut(s, nodes[index := v], index, 0)
  {
    var nodes' := nodes[index := v];
    forall l: nat, p: nat | 1 <= l <= s.depth && p < Width(s, l) && p != Ancestor(s.arity, index, l)
      ensures NodeOk(s, nodes', l, p)
    {
      assert NodeOk(s, nodes, l, p);
      AtPut(s, nodes, 0, index, v, l, p);
      assert Ancestor(s.arity, index, 1) == index / s.arity;
      KidsPut(s, nodes, 0, index, v, l, p);
    }
  }

  /** Rehashing the next node of the path makes one more level consistent and leaves the leaves alone. */
  lemma PutParent(s: Shape, nodes: map<int, int>, index: nat, done: nat)
    requires WellFormed(s) && index < Capacity(s) && done < s.depth
    requires ConsistentBut(s, nodes, index, done)
    ensures var up := Ancestor(s.arity, index, done + 1);
            var nodes' := nodes[LevelOffset(s, done + 1) + up := s.hash(Kids(s, nodes, done, up))];
            && LevelOffset(s, done + 1) + up < NumNodes(s)
            && ConsistentBut(s, nodes', index, done + 1) && Row(s, nodes') == Row(s, nodes)
  {
    var up := Ancestor(s.arity, index, done + 1);
    var v := s.hash(Kids(s, nodes, done, up));
    var nodes' := nodes[LevelOffset(s, done + 1) + up := v];
    AncestorBelow(s, index, done + 1);
    InStore(s, done + 1, up);
    forall l: nat, p: nat | 1 <= l <= s.depth && p < Width(s, l) && (l <= done + 1 || p != Ancestor(s.arity, index, l))
      ensures NodeOk(s, nodes', l, p)
    {
      AtPut(s, nodes, done + 1, up, v, l, p);
      KidsPut(s, nodes, done + 1, up, v, l, p);
      if l != done + 1 || p != up {
        assert NodeOk(s, nodes, l, p);
      }
    }
    forall i | 0 <= i < Capacity(s)
      ensures At(s, nodes', 0, i) == At(s, nodes, 0, i)
    {
      AtPut(s, nodes, done + 1, up, v, 0, i);
    }
    assert Row(s, nodes') == Row(s, nodes);
  }

  /** In a consistent store every node is the plain recursive hash of the leaves below it. */
  lemma {:induction false} StoreIsTree(s: Shape, nodes: map<int, int>, level: nat, pos: nat)
    requires s.arity >= 1 && Consistent(s, nodes) && level <= s.depth && pos < Width(s, level)
    ensures At(s, nodes, level, pos) == NodeAt(s, Row(s, nodes), level, pos)
    decreases level, 0
  {
    if level == 0 {
    } else {
      assert NodeOk(s, nodes, level, pos);
      KidsAreChildren(s, nodes, level - 1, pos);
    }
  }

  lemma {:induction false} KidsAreChildren(s: Shape, nodes: map<int, int>, level: nat, pos: nat)
    requires s.arity >= 1 && Consistent(s, nodes) && level < s.depth && pos < Width(s, level + 1)
    ensures Kids(s, nodes, level, pos) == Children(s, Row(s, nodes), level, pos)
    decreases level, 1
  {
    var kids, children := Kids(s, nodes, level, pos), Children(s, Row(s, nodes), level, pos);
    forall c | 0 <= c < s.arity
      ensures kids[c] == children[c]
    {
      DigitBelow(pos, c, s.arity, Width(s, level + 1));
      StoreIsTree(s, nodes, level, pos * s.arity + c);
    }
    assert kids == children;
  }

  ghost predicate AllZero(s: Shape, nodes: map<int, int>) {
    forall l: nat, p: nat {:trigger At(s, nodes, l, p)} :: l <= s.depth && p < Width(s, l) ==> At(s, nodes, l, p) == ZeroAt(s, l)
  }

  lemma RootOnlyIsAllZero(s: Shape)
    requires s.arity >= 2
    ensures AllZero(s, map[NumNodes(s) - 1 := ZeroAt(s, s.depth)])
  {
    var nodes := map[NumNodes(s) - 1 := ZeroAt(s, s.depth)];
    NodeCount(s);
    forall l: nat, p: nat | l <= s.depth && p < Width(s, l)
      ensures At(s, nodes, l, p) == ZeroAt(s, l)
    {
      if LevelOffset(s, l) + p == LevelOffset(s, s.depth) + 0 {
        SameIndexSamePlace(s, l, p, s.depth, 0);
      }
    }
  }

  /** A store holding only the precomputed root is the all-zero tree. */
  lemma EmptyStore(s: Shape, nodes: map<int, int>)
    requires s.arity >= 1 && AllZero(s, nodes)
    ensures Consistent(s, nodes) && Row(s, nodes) == Padded(s, [])
  {
    forall l: nat, p: nat | 1 <= l <= s.depth && p < Width(s, l)
      ensures NodeOk(s, nodes, l, p)
    {
      var kids := Kids(s, nodes, l - 1, p);
      forall c | 0 <= c < s.arity
        ensures kids[c] == ZeroAt(s, l - 1)
      {
        DigitBelow(p, c, s.arity, Width(s, l));
      }
      assert kids == seq(s.arity, _ => ZeroAt(s, l - 1));
      assert At(s, nodes, l, p) == ZeroAt(s, l);
    }
    assert Row(s, nodes) == Padded(s, []);
  }
}
