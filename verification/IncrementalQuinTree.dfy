/** packages/crypto/ts/quinTree.ts: the sparse n-ary Merkle tree, updated in place. */
module QuinTree {
  import opened Powers
  import opened Merkle
  import opened NodeStore
  import opened Results

  /** The first subdepth whose size is the wanted one, or the depth if there is none. */
  function SubDepthFrom(arity: nat, depth: nat, numLeaves: nat, k: nat): (sub: nat)
    requires k <= depth
    ensures k <= sub <= depth && (sub < depth ==> Pow(arity, sub) == numLeaves)
    decreases depth - k
  {
    if numLeaves != Pow(arity, k) && k < depth then SubDepthFrom(arity, depth, numLeaves, k + 1) else k
  }

  /** The four guards of generateSubrootProof, and the bound generateProof puts on the start. */
  predicate ValidRange(s: Shape, startIndex: int, endIndex: int)
    requires s.arity >= 1
  {
    && startIndex < endIndex
    && startIndex >= 0
    && (endIndex - startIndex) % s.arity == 0
    && endIndex - startIndex < Capacity(s)
    && startIndex < Capacity(s)
  }

  /** The proof assembled from subtree `part` and the path of leaf `start` above level k. */
  function SubrootProof(s: Shape, leaves: seq<int>, start: nat, k: nat, part: seq<int>): Proof
    requires s.arity >= 1 && k <= s.depth
  {
    Proof(PathElements(s, leaves, start)[k..], PathIndices(s, start)[k..], Root(s, leaves), Root(s.(depth := k), part))
  }

  /** What generateSubrootProof returns for a valid range within the leaves. */
  function SubrootProofOf(s: Shape, leaves: seq<int>, startIndex: nat, endIndex: nat): Proof
    requires s.arity >= 1 && startIndex <= endIndex <= |leaves|
  {
    SubrootProof(s, leaves, startIndex, SubDepthFrom(s.arity, s.depth, endIndex - startIndex, 0), leaves[startIndex..endIndex])
  }

  /** What getNode returns: undefined for an absent root and past it, and the leaf zero below 0. */
  function AsRead(s: Shape, nodes: map<int, int>, index: int): Option<int> {
    if index in nodes && nodes[index] != 0 then Some(nodes[index])
    else if index < 0 then Some(s.zero)
    else if index < NumNodes(s) - 1 then Some(Read(s, nodes, index))
    else None
  }

  /** The values a range of indices is read as, an undefined one counting as the zero it reads back as once inserted. */
  function RangeAsRead(s: Shape, nodes: map<int, int>, startIndex: nat, endIndex: nat): (r: seq<int>)
    requires startIndex <= endIndex
    ensures |r| == endIndex - startIndex
    ensures forall i :: 0 <= i < |r| ==> r[i] == AsRead(s, nodes, startIndex + i).GetOr(s.zero)
  {
    seq(endIndex - startIndex, i requires 0 <= i < endIndex - startIndex => AsRead(s, nodes, startIndex + i).GetOr(s.zero))
  }

  /** As many holes as there are levels, then the place of the leaf's ancestor on each level above the leaves. */
  function PathUp(s: Shape, index: nat): (r: seq<Option<nat>>)
    requires s.arity >= 1
    ensures |r| == s.depth + s.depth
    ensures forall i :: 0 <= i < |r| ==> r[i] == ParentAt(s, index, i)
  {
    var parents: seq<Option<nat>> := seq(s.depth + s.depth, i requires 0 <= i < s.depth + s.depth => ParentAt(s, index, i));
    parents
  }

  function ParentAt(s: Shape, index: nat, i: nat): Option<nat>
    requires s.arity >= 1 && i < s.depth + s.depth
  {
    if i < s.depth then None else Some(LevelOffset(s, i - s.depth + 1) + Ancestor(s.arity, index, i - s.depth + 1))
  }

  class IncrementalQuinTree {
    const depth: nat
    const zeroValue: int
    const arity: nat
    const hashFunc: seq<int> -> int
    var nextIndex: nat
    var zeros: seq<int>
    var root: int
    var nodes: map<int, int>
    const numNodes: nat
    const capacity: nat

    ghost function S(): Shape {
      Shape(arity, depth, zeroValue, hashFunc)
    }

    /** The part of the state that never changes. */
    ghost predicate Ready()
      reads this`zeros
    {
      && WellFormed(S())
      && capacity == Capacity(S()) && numNodes == NumNodes(S())
      && |zeros| == depth && (forall l :: 0 <= l < depth ==> zeros[l] == ZeroAt(S(), l))
    }

    ghost predicate Valid()
      reads this
    {
      && Ready()
      && numNodes - 1 in nodes && root == nodes[numNodes - 1] == At(S(), nodes, depth, 0)
      && Consistent(S(), nodes)
    }

    /** The leaves as getNode reads them, all capacity of them. */
    ghost function Leaves(): (leaves: seq<int>)
      reads this
      ensures |leaves| == Capacity(S())
    {
      Row(S(), nodes)
    }

    /** A tree of depth 0 has only its root, and no level whose zero could be read. */
    constructor (depth: nat, zeroValue: int, arity: nat, hashFunc: seq<int> -> int)
      requires arity >= 2 && (depth >= 1 ==> WellFormed(Shape(arity, depth, zeroValue, hashFunc)))
      ensures S() == Shape(arity, depth, zeroValue, hashFunc) && nextIndex == 0
      ensures depth >= 1 ==> Valid() && Leaves() == Padded(S(), [])
      ensures depth == 0 ==> zeros == [] && capacity == numNodes == 1 && root == zeroValue && nodes == map[0 := zeroValue]
    {
      this.depth, this.zeroValue, this.arity, this.hashFunc := depth, zeroValue, arity, hashFunc;
      nextIndex := 0;
      ghost var s := Shape(arity, depth, zeroValue, hashFunc);
      var zs, r := CalcInitialVals(arity, depth, zeroValue, hashFunc);
      zeros, root := zs, r;
      NodeCount(s);
      var count := (Pow(arity, depth + 1) - 1) / (arity - 1);
      numNodes := count;
      nodes := map[count - 1 := r];
      capacity := Pow(arity, depth);
      RootOnlyIsAllZero(s);
      EmptyStore(s, map[count - 1 := r]);
      assert At(s, map[count - 1 := r], depth, 0) == r;
    }

    static method CalcInitialVals(arity: nat, depth: nat, zeroValue: int, hashFunc: seq<int> -> int)
      returns (zeros: seq<int>, root: int)
      ensures |zeros| == depth
      ensures forall l :: 0 <= l < depth ==> zeros[l] == ZeroAt(Shape(arity, depth, zeroValue, hashFunc), l)
      ensures root == ZeroAt(Shape(arity, depth, zeroValue, hashFunc), depth)
    {
      ghost var s := Shape(arity, depth, zeroValue, hashFunc);
      zeros := [];
      var currentLevelHash := zeroValue;
      for i := 0 to depth
        invariant |zeros| == i && currentLevelHash == ZeroAt(s, i)
        invariant forall l :: 0 <= l < i ==> zeros[l] == ZeroAt(s, l)
      {
        zeros := zeros + [currentLevelHash];
        var z := seq(arity, _ => currentLevelHash);
        assert z == seq(arity, _ => ZeroAt(s, i));
        currentLevelHash := hashFunc(z);
      }
      root := currentLevelHash;
    }

    /** Reads a node, or the zero of its level when it is absent or stored as 0. */
    method GetNode(index: int) returns (v: Option<int>)
      requires Ready()
      ensures v == AsRead(S(), nodes, index)
    {
      ghost var s := S();
      if index in nodes && nodes[index] != 0 {
        return Some(nodes[index]);
      }
      var runningTotal, level := 0, depth as int;
      while level >= 0
        invariant -1 <= level <= depth
        invariant runningTotal == LevelOffset(s, depth - level) && (runningTotal <= index || level == depth)
      {
        runningTotal := runningTotal + Pow(arity, level);
        if index < runningTotal {
          break;
        }
        level := level - 1;
      }
      ReadOfLevel(s, nodes, index, depth - level);
      v := if depth - level < |zeros| then Some(zeros[depth - level]) else None;
    }

    /** The path of a leaf to the root, as flat indices after as many holes; out-of-range leaves throw. */
    method CalcParentIndices(index: int) returns (r: Result<seq<Option<nat>>>)
      requires WellFormed(S()) && capacity == Capacity(S())
      ensures r.Success? <==> 0 <= index < capacity
      ensures r.Success? ==> r.value == PathUp(S(), index)
    {
      if index >= capacity || index < 0 {
        return Failure("index out of bounds: can only get parents of leaves");
      }
      ghost var path := PathUp(S(), index);
      var indices: seq<Option<nat>> := seq(depth, _ => None);
      var r', levelCapacity := index as nat, 0;
      assert indices == path[..depth];
      for i := 0 to depth
        invariant levelCapacity == LevelOffset(S(), i) && r' == Ancestor(arity, index, i)
        invariant |indices| == depth + i && indices == path[..depth + i]
      {
        levelCapacity := levelCapacity + Pow(arity, depth - i);
        r' := r' / arity;
        assert path[depth + i] == Some(levelCapacity + r');
        indices := indices + [Some(levelCapacity + r')];
      }
      r := Success(indices);
    }

    /** The flat indices of a node's children. For a node of the tree the level search always ends at the depth. */
    method CalcChildIndices(index: int) returns (r: Result<seq<int>>)
      requires WellFormed(S()) && capacity == Capacity(S())
      ensures r.Success? <==> index >= capacity
      ensures r.Success? ==> |r.value| == arity
      ensures r.Success? && index < NumNodes(S()) ==>
        forall c :: 0 <= c < arity ==> r.value[c] == ChildIndex(S(), index, c)
    {
      if index < capacity || index < 0 {
        return Failure("index out of bounds: can only get children of subroots");
      }
      NodeCount(S());
      var level, r' := 1, 1 + Pow(arity, 1);
      while index >= r'
        invariant level >= 1 && r' == GeometricSum(arity, level)
        invariant index < NumNodes(S()) ==> level <= depth
        decreases index - r'
      {
        if index < NumNodes(S()) {
          assert level != depth;
        }
        level := level + 1;
        r' := r' + Pow(arity, level);
      }
      if index < NumNodes(S()) && level < depth {
        GeometricBelow(arity, level);
        PowMonotonic(arity, level + 1, depth);
        assert false;
      }
      var start := (index - Pow(arity, level)) * arity;
      r := Success(seq(arity, i => start + i));
    }

    /**
     Sets a leaf and rehashes its path. `ok` is false where the source throws: below 0 and past the last node
     before anything changes, but for the index of an interior node only after that node was overwritten.
     */
    method Update(index: int, value: int) returns (ok: bool)
      requires Valid()
      modifies this`nodes, this`root
      ensures ok <==> 0 <= index < capacity
      ensures ok ==> Valid() && Leaves() == old(Leaves())[index := Stored(S(), 0, value)]
      ensures !ok ==> root == old(root)
      ensures !ok ==> nodes == if 0 <= index < numNodes then old(nodes)[index := value] else old(nodes)
    {
      if index > numNodes - 1 || index < 0 {
        NodeCount(S());
        OffsetMonotonic(S(), 1, depth + 1);
        return false;
      }
      nodes := nodes[index := value];
      var parents := CalcParentIndices(index);
      if parents.Failure? {
        return false;
      }
      ghost var s := S();
      PutLeafPath(s, old(nodes), index, value);
      PutLeafRow(s, old(nodes), index, value);
      NodeCount(s);
      for i := 0 to |parents.value|
        invariant ConsistentBut(s, nodes, index, if i <= depth then 0 else i - depth)
        invariant Row(s, nodes) == old(Row(s, nodes))[index := Stored(s, 0, value)]
        invariant numNodes - 1 in nodes && (i == depth + depth ==> nodes[numNodes - 1] != 0)
      {
        if parents.value[i].Some? {
          Rehash(parents.value[i].value, index, i - depth);
        }
      }
      root := nodes[numNodes - 1];
      PathDone(s, nodes, index);
      ok := true;
    }

    /** Rehashes the next node on the path of a leaf from its children. */
    method Rehash(parent: nat, ghost index: nat, ghost level: nat)
      requires Ready() && index < capacity && level < depth && ConsistentBut(S(), nodes, index, level)
      requires parent == LevelOffset(S(), level + 1) + Ancestor(arity, index, level + 1)
      modifies `nodes
      ensures ConsistentBut(S(), nodes, index, level + 1) && Row(S(), nodes) == old(Row(S(), nodes))
      ensures old(nodes).Keys <= nodes.Keys && (level + 1 == depth ==> numNodes - 1 in nodes && nodes[numNodes - 1] != 0)
    {
      hide ConsistentBut, Consistent;
      ghost var s := S();
      ghost var up := Ancestor(arity, index, level + 1);
      AncestorBelow(s, index, level + 1);
      var elements := Elements(parent, level, up);
      PutParent(s, nodes, index, level);
      NodeCount(s);
      nodes := nodes[parent := hashFunc(elements)];
    }

    /** Collects the children of the node `pos` of level `level` + 1. */
    method Elements(parent: nat, ghost level: nat, ghost pos: nat) returns (elements: seq<int>)
      requires Ready() && level < depth && pos < Width(S(), level + 1)
      requires parent == LevelOffset(S(), level + 1) + pos
      ensures elements == Kids(S(), nodes, level, pos)
    {
      ghost var s := S();
      ghost var kids := Kids(s, nodes, level, pos);
      ReadChild(s, nodes, level, pos, 0);
      var childIndices := CalcChildIndices(parent);
      elements := [];
      for c := 0 to arity
        invariant elements == kids[..c]
      {
        ReadChild(s, nodes, level, pos, c);
        var v := GetNode(childIndices.value[c]);
        elements := elements + [v.value];
      }
    }

    method Insert(value: int) returns (ok: bool)
      requires Valid()
      modifies this`nodes, this`root, this`nextIndex
      ensures ok <==> old(nextIndex) < capacity
      ensures ok ==> Valid() && Leaves() == old(Leaves())[old(nextIndex) := Stored(S(), 0, value)]
      ensures nextIndex == old(nextIndex) + (if ok then 1 else 0) && (!ok ==> root == old(root))
    {
      ok := Update(nextIndex, value);
      if ok {
        nextIndex := nextIndex + 1;
      }
    }

    /** The stored root is the plain recursive hash of all the leaves. */
    lemma RootIsRoot()
      requires Valid()
      ensures root == Root(S(), Leaves())
    {
      StoreIsTree(S(), nodes, depth, 0);
    }

    method CalcLeafIndices(index: nat) returns (indices: seq<nat>)
      requires arity >= 1
      ensures indices == PathIndices(S(), index)
    {
      indices := [];
      var r := index;
      for i := 0 to depth
        invariant indices == PathIndices(S(), index)[..i] && r == Ancestor(arity, index, i)
      {
        indices := indices + [r % arity];
        r := r / arity;
      }
    }

    method GenerateProof(index: int) returns (r: Result<Proof>)
      requires Valid()
      ensures r.Success? <==> 0 <= index < capacity
      ensures r.Success? ==> r.value == ProofOf(S(), Leaves(), index)
    {
      if index < 0 {
        return Failure("the leaf index must be greater or equal to 0");
      }
      if index >= capacity {
        return Failure("the leaf index must be less than the tree capacity");
      }
      var indices := CalcLeafIndices(index);
      var pathElements := ElementsUp(index, indices);
      ReadLeaf(S(), nodes, index);
      RootIsRoot();
      var leaf := GetNode(index);
      r := Success(Proof(pathElements, indices, root, leaf.value));
    }

    /** The loop of generateProof over the levels. */
    method ElementsUp(index: nat, indices: seq<nat>) returns (pathElements: seq<seq<int>>)
      requires Valid() && index < capacity && indices == PathIndices(S(), index)
      ensures pathElements == PathElements(S(), Leaves(), index)
    {
      hide Consistent, Row, Children, Without, Pow;
      ghost var s := S();
      var leafIndex, offset := index, 0;
      ghost var path := PathElements(s, Leaves(), index);
      pathElements := [];
      for i := 0 to depth
        invariant leafIndex == Ancestor(arity, index, i) && offset == LevelOffset(s, i)
        invariant pathElements == path[..i]
      {
        AncestorBelow(s, index, i + 1);
        RoundDown(leafIndex, arity);
        var elements := Brothers(leafIndex - leafIndex % arity + offset, indices[i], i, leafIndex / arity);
        assert elements == path[i];
        pathElements := pathElements + [elements];
        leafIndex := leafIndex / arity;
        offset := offset + Pow(arity, depth - i);
      }
    }

    /** One level of a proof: the nodes from `start` on, without the one at `skip`. */
    method Brothers(start: nat, skip: nat, ghost level: nat, ghost group: nat) returns (elements: seq<int>)
      requires Valid() && level < depth && group < Width(S(), level + 1) && skip < arity
      requires start == group * arity + LevelOffset(S(), level)
      ensures elements == Without(Children(S(), Leaves(), level, group), skip)
    {
      ghost var s := S();
      ghost var kids := Kids(s, nodes, level, group);
      KidsAreChildren(s, nodes, level, group);
      elements := [];
      for j := 0 to arity
        invariant elements == Without(kids, skip)[..if j <= skip then j else j - 1]
      {
        if j != skip {
          ReadChild(s, nodes, level, group, j);
          NextBrother(kids, skip, j);
          var node := GetNode(start + j);
          elements := elements + [node.value];
        }
      }
    }

    method FindSubDepth(numLeaves: nat) returns (subDepth: nat)
      requires numLeaves >= 2
      ensures subDepth == SubDepthFrom(arity, depth, numLeaves, 0)
      ensures depth >= 1 ==> subDepth >= 1
    {
      subDepth := 0;
      while numLeaves != Pow(arity, subDepth) && subDepth < depth
        invariant subDepth <= depth
        invariant SubDepthFrom(arity, depth, numLeaves, subDepth) == SubDepthFrom(arity, depth, numLeaves, 0)
        decreases depth - subDepth
      {
        subDepth := subDepth + 1;
      }
    }

    method GenerateSubrootProof(startIndex: int, endIndex: int) returns (r: Result<Proof>)
      requires Valid()
      ensures r.Success? <==> ValidRange(S(), startIndex, endIndex)
      ensures r.Success? ==> r.value == SubrootProof(S(), Leaves(), startIndex, SubDepthFrom(arity, depth, endIndex - startIndex, 0),
                                                     RangeAsRead(S(), nodes, startIndex, endIndex))
      ensures r.Success? && endIndex <= capacity ==> r.value == SubrootProofOf(S(), Leaves(), startIndex, endIndex)
    {
      if startIndex >= endIndex {
        return Failure("the start index must be less than the end index");
      }
      if startIndex < 0 {
        return Failure("the start index must be greater or equal to 0");
      }
      var numLeaves := endIndex - startIndex;
      if numLeaves % arity != 0 {
        return Failure("the number of leaves must be a multiple of the tree arity");
      }
      if numLeaves >= capacity {
        return Failure("the number of leaves must be less than the tree capacity");
      }
      var subDepth := FindSubDepth(numLeaves);
      var subRoot := SubtreeRoot(startIndex, endIndex, subDepth);
      var fullPath := GenerateProof(startIndex);
      if fullPath.Failure? {
        return fullPath;
      }
      if endIndex <= capacity {
        RangeOfLeaves(startIndex, endIndex);
      }
      r := Success(Proof(fullPath.value.pathElements[subDepth..depth], fullPath.value.pathIndices[subDepth..depth],
                         fullPath.value.root, subRoot));
    }

    /** Below the capacity a range is read as its leaves. */
    lemma RangeOfLeaves(startIndex: nat, endIndex: nat)
      requires Valid() && startIndex <= endIndex <= capacity
      ensures RangeAsRead(S(), nodes, startIndex, endIndex) == Leaves()[startIndex..endIndex]
    {
      forall i | startIndex <= i < endIndex
        ensures AsRead(S(), nodes, i) == Some(Leaves()[i])
      {
        ReadLeaf(S(), nodes, i);
      }
    }

    /** Builds the tree of a range of indices as they are read and returns its root. */
    method SubtreeRoot(startIndex: nat, endIndex: nat, subDepth: nat) returns (subRoot: int)
      requires Valid() && startIndex <= endIndex
      requires subDepth >= 1 && endIndex - startIndex <= Pow(arity, subDepth)
      ensures subRoot == Root(S().(depth := subDepth), RangeAsRead(S(), nodes, startIndex, endIndex))
    {
      ghost var s, sub := S(), S().(depth := subDepth);
      ghost var part := RangeAsRead(s, nodes, startIndex, endIndex);
      var subTree := new IncrementalQuinTree(subDepth, zeroValue, arity, hashFunc);
      for i := startIndex to endIndex
        invariant fresh(subTree) && subTree.Valid() && subTree.S() == sub
        invariant subTree.nextIndex == i - startIndex
        invariant subTree.Leaves() == Padded(sub, part[..i - startIndex])
      {
        var leaf := GetNode(i);
        AsReadStores(s, sub, nodes, i);
        assert part[i - startIndex] == leaf.GetOr(zeroValue);
        InsertPads(sub, part, i - startIndex, leaf.GetOr(0));
        var _ := subTree.Insert(leaf.GetOr(0));
      }
      assert part[..endIndex - startIndex] == part;
      subTree.RootIsRoot();
      SameRowSameNodes(sub, Padded(sub, part), part, subDepth, 0);
      subRoot := subTree.root;
    }

    /** A proof without a first level makes the source throw on reading it. */
    method VerifyProof(proof: Proof) returns (r: Result<bool>)
      ensures r.Success? <==> |proof.pathElements| > 0
      ensures r.Success? ==> r.value == Accepts(hashFunc, proof)
    {
      var Proof(pathElements, pathIndices, root, leaf) := proof;
      if |pathElements| == 0 {
        return Failure("cannot read the first level");
      }
      var currentLevelHash := hashFunc(Splice(pathElements[0], IndexAt(pathIndices, 0), leaf));
      for i := 1 to |pathElements|
        invariant Climb(hashFunc, pathElements, pathIndices, i, currentLevelHash)
               == Climb(hashFunc, pathElements, pathIndices, 0, leaf)
      {
        currentLevelHash := hashFunc(Splice(pathElements[i], IndexAt(pathIndices, i), currentLevelHash));
      }
      r := Success(currentLevelHash == root);
    }
  }

  /** A node that is not stored is read as the zero of the level found for it, if there is one. */
  lemma ReadOfLevel(s: Shape, nodes: map<int, int>, index: int, l: nat)
    requires s.arity >= 2 && s.depth >= 1 && l <= s.depth + 1 && !(index in nodes && nodes[index] != 0)
    requires l <= s.depth ==> index < LevelOffset(s, l + 1)
    requires LevelOffset(s, l) <= index || l == 0
    ensures AsRead(s, nodes, index) == if l < s.depth then Some(ZeroAt(s, l)) else None
  {
    NodeCount(s);
    if l < s.depth {
      OffsetMonotonic(s, l + 1, s.depth);
      if index >= 0 {
        LevelIsUnique(s, index, l, 0);
      }
    } else {
      OffsetMonotonic(s, s.depth, l);
    }
  }

  lemma {:induction false} LevelIsUnique(s: Shape, index: nat, l: nat, from: nat)
    requires from <= l <= s.depth && LevelOffset(s, l) <= index < LevelOffset(s, l + 1) && index < NumNodes(s)
    requires LevelOffset(s, from) <= index
    ensures LevelFrom(s, index, from) == l
    decreases l - from
  {
    if from < l {
      OffsetMonotonic(s, from + 1, l);
      LevelIsUnique(s, index, l, from + 1);
    }
  }

  lemma NextBrother(kids: seq<int>, skip: nat, j: nat)
    requires skip < |kids| && j < |kids| && j != skip
    ensures var k := if j < skip then j else j - 1;
            k < |kids| - 1 && Without(kids, skip)[..k] + [kids[j]] == Without(kids, skip)[..k + 1]
  {
  }

  /** Inserting what was read, or undefined, stores what it counts as. */
  lemma AsReadStores(s: Shape, sub: Shape, nodes: map<int, int>, index: nat)
    requires WellFormed(s) && sub == s.(depth := sub.depth)
    ensures Stored(sub, 0, AsRead(s, nodes, index).GetOr(0)) == AsRead(s, nodes, index).GetOr(s.zero)
  {
    if AsRead(s, nodes, index) == Some(0) {
      assert 0 <= index < NumNodes(s) - 1;
      var l := LevelFrom(s, index, 0);
      assert At(s, nodes, l, index - LevelOffset(s, l)) == 0;
      if l > 0 {
        ZerosAreHashes(s, l);
      }
    }
  }

  lemma ZerosAreHashes(s: Shape, level: nat)
    requires WellFormed(s) && level >= 1
    ensures ZeroAt(s, level) != 0
  {
  }

  /** Inserting the next of some leaves into a tree that holds the ones before it. */
  lemma InsertPads(s: Shape, xs: seq<int>, i: nat, v: int)
    requires i < |xs| && i < Capacity(s) && Stored(s, 0, v) == xs[i]
    ensures Padded(s, xs[..i])[i := Stored(s, 0, v)] == Padded(s, xs[..i + 1])
  {
    var a, b := Padded(s, xs[..i])[i := Stored(s, 0, v)], Padded(s, xs[..i + 1]);
    forall j | 0 <= j < Capacity(s)
      ensures a[j] == b[j]
    {
    }
    assert a == b;
  }
}
