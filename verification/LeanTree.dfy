/**
 apps/backend/src/trees/leanTree.ts: the tree of sign-ups. LeanIMT itself belongs to a foreign package; what is
 modelled of it is its leaves, its root as a recursion over them, and its proofs.
 */
module LeanTree {

  /** The hash of two nodes, the hash of a key, the leaf at index 0, and BigInt on a numeric string. */
  datatype Crypto = Crypto(hashLeanIMT: (int, int) -> int, hashLeftRight: (int, int) -> int, padKeyHash: int, num: string -> int)

  datatype LeafRow = LeafRow(stateIndex: string, publicKeyX: string, publicKeyY: string)

  /** The next level: neighbours are hashed, an odd last node moves up unchanged. */
  function ParentRow(hash: (int, int) -> int, row: seq<int>): (up: seq<int>)
    ensures |up| == (|row| + 1) / 2
    ensures forall i :: 0 <= i < |up| ==> up[i] == if 2 * i + 1 < |row| then hash(row[2 * i], row[2 * i + 1]) else row[2 * i]
  {
    seq((|row| + 1) / 2, i requires 0 <= i < (|row| + 1) / 2 =>
      if 2 * i + 1 < |row| then hash(row[2 * i], row[2 * i + 1]) else row[2 * i])
  }

  function LeanRoot(hash: (int, int) -> int, row: seq<int>): int
    requires row != []
    decreases |row|
  {
    if |row| == 1 then row[0] else LeanRoot(hash, ParentRow(hash, row))
  }

  /** One level of a proof: the sibling and the side the node is on. */
  datatype Step = Step(isRight: bool, sibling: int)

  datatype LeanProof = LeanProof(root: int, leaf: int, path: seq<Step>)

  /** Levels where the node has no sibling are skipped. */
  function LeanPath(hash: (int, int) -> int, row: seq<int>, i: nat): seq<Step>
    requires i < |row|
    decreases |row|
  {
    if |row| == 1 then []
    else
      (if i % 2 == 1 then [Step(true, row[i - 1])] else if i + 1 < |row| then [Step(false, row[i + 1])] else [])
      + LeanPath(hash, ParentRow(hash, row), i / 2)
  }

  function LeanClimb(hash: (int, int) -> int, path: seq<Step>, v: int): int {
    if path == [] then v
    else LeanClimb(hash, path[1..], if path[0].isRight then hash(path[0].sibling, v) else hash(v, path[0].sibling))
  }

  predicate LeanAccepts(hash: (int, int) -> int, proof: LeanProof) {
    LeanClimb(hash, proof.path, proof.leaf) == proof.root
  }

  lemma {:induction false} LeanPathsLeadToRoot(hash: (int, int) -> int, row: seq<int>, i: nat)
    requires i < |row|
    ensures LeanClimb(hash, LeanPath(hash, row, i), row[i]) == LeanRoot(hash, row)
    decreases |row|
  {
    hide ParentRow;
    if |row| > 1 {
      var up := ParentRow(hash, row);
      LeanPathsLeadToRoot(hash, up, i / 2);
      assert up[i / 2] == if i % 2 == 1 then hash(row[i - 1], row[i]) else if i + 1 < |row| then hash(row[i], row[i + 1]) else row[i];
      var above := LeanPath(hash, up, i / 2);
      ClimbOne(hash, Step(i % 2 == 1, if i % 2 == 1 then row[i - 1] else if i + 1 < |row| then row[i + 1] else 0), above, row[i]);
      assert [] + above == above;
    }
  }

  lemma ClimbOne(hash: (int, int) -> int, step: Step, above: seq<Step>, v: int)
    ensures LeanClimb(hash, [step] + above, v)
         == LeanClimb(hash, above, if step.isRight then hash(step.sibling, v) else hash(v, step.sibling))
  {
    assert ([step] + above)[1..] == above;
  }

  ghost predicate Injective2(hash: (int, int) -> int) {
    forall a, b, c, d :: hash(a, b) == hash(c, d) ==> a == c && b == d
  }

  /** Trees of one size with the same root have the same leaves. */
  lemma {:induction false} SameLeanRoot(hash: (int, int) -> int, xs: seq<int>, ys: seq<int>)
    requires Injective2(hash) && |xs| == |ys| > 0 && LeanRoot(hash, xs) == LeanRoot(hash, ys)
    ensures xs == ys
    decreases |xs|
  {
    hide ParentRow;
    if |xs| == 1 {
    } else {
      SameLeanRoot(hash, ParentRow(hash, xs), ParentRow(hash, ys));
      forall k | 0 <= k < |xs|
        ensures xs[k] == ys[k]
      {
        SameParents(hash, xs, ys, k / 2);
        assert k == 2 * (k / 2) || k == 2 * (k / 2) + 1;
      }
    }
  }

  lemma SameParents(hash: (int, int) -> int, xs: seq<int>, ys: seq<int>, i: nat)
    requires Injective2(hash) && |xs| == |ys| && ParentRow(hash, xs) == ParentRow(hash, ys) && 2 * i < |xs|
    ensures xs[2 * i] == ys[2 * i] && (2 * i + 1 < |xs| ==> xs[2 * i + 1] == ys[2 * i + 1])
  {
    hide ParentRow;
    assert ParentRow(hash, xs)[i] == ParentRow(hash, ys)[i];
    if 2 * i + 1 < |xs| {
      SamePair(hash, xs[2 * i], xs[2 * i + 1], ys[2 * i], ys[2 * i + 1]);
    }
  }

  lemma SamePair(hash: (int, int) -> int, a: int, b: int, c: int, d: int)
    requires Injective2(hash) && hash(a, b) == hash(c, d)
    ensures a == c && b == d
  {
  }

  class LeanIMT {
    const hash: (int, int) -> int
    var leaves: seq<int>

    constructor (hash: (int, int) -> int)
      ensures this.hash == hash && leaves == []
    {
      this.hash, leaves := hash, [];
    }

    /** export followed by import: a new tree over the same nodes. */
    constructor Import(tree: LeanIMT)
      ensures hash == tree.hash && leaves == tree.leaves
    {
      hash, leaves := tree.hash, tree.leaves;
    }

    function Size(): nat
      reads `leaves
    {
      |leaves|
    }

    function Root(): int
      requires leaves != []
      reads `leaves
    {
      LeanRoot(hash, leaves)
    }

    method Insert(leaf: int)
      modifies `leaves
      ensures leaves == old(leaves) + [leaf]
    {
      leaves := leaves + [leaf];
    }

    method InsertMany(more: seq<int>)
      modifies `leaves
      ensures leaves == old(leaves) + more
    {
      leaves := leaves + more;
    }

    method GenerateProof(index: nat) returns (proof: LeanProof)
      requires index < |leaves|
      ensures proof.leaf == leaves[index] && proof.root == Root() && LeanAccepts(hash, proof)
    {
      LeanPathsLeadToRoot(hash, leaves, index);
      proof := LeanProof(Root(), leaves[index], LeanPath(hash, leaves, index));
    }
  }

  function KeyHash(c: Crypto, row: LeafRow): int {
    c.hashLeftRight(c.num(row.publicKeyX), c.num(row.publicKeyY))
  }

  function LeafHashes(c: Crypto, rows: seq<LeafRow>): (r: seq<int>)
    ensures |r| == |rows| && forall i :: 0 <= i < |r| ==> r[i] == KeyHash(c, rows[i])
  {
    seq(|rows|, i requires 0 <= i < |rows| => KeyHash(c, rows[i]))
  }

  /** The leaves of a sign-up tree: the pad, then every sign-up in order. */
  function SignUpRow(c: Crypto, rows: seq<LeafRow>): (r: seq<int>)
    ensures |r| == |rows| + 1 && r[0] == c.padKeyHash
    ensures forall i :: 0 <= i < |rows| ==> r[i + 1] == KeyHash(c, rows[i])
  {
    [c.padKeyHash] + LeafHashes(c, rows)
  }

  lemma StartRow(c: Crypto)
    ensures SignUpRow(c, []) == [c.padKeyHash]
  {
  }

  lemma SignUpRowAppends(c: Crypto, rows: seq<LeafRow>, extra: seq<LeafRow>)
    ensures SignUpRow(c, rows + extra) == SignUpRow(c, rows) + LeafHashes(c, extra)
  {
  }

  ghost predicate IsSignUpTree(c: Crypto, tree: LeanIMT, rows: seq<LeafRow>)
    reads tree
  {
    tree.hash == c.hashLeanIMT && tree.leaves == SignUpRow(c, rows)
  }

  method BuildSignUpTree(c: Crypto, rows: seq<LeafRow>) returns (tree: LeanIMT)
    ensures fresh(tree) && IsSignUpTree(c, tree, rows)
  {
    hide SignUpRow;
    StartRow(c);
    tree := new LeanIMT(c.hashLeanIMT);
    tree.Insert(c.padKeyHash);
    for i := 0 to |rows|
      invariant fresh(tree) && IsSignUpTree(c, tree, rows[..i])
    {
      SignUpRowAppends(c, rows[..i], [rows[i]]);
      assert LeafHashes(c, [rows[i]]) == [KeyHash(c, rows[i])];
      assert rows[..i] + [rows[i]] == rows[..i + 1];
      tree.Insert(c.hashLeftRight(c.num(rows[i].publicKeyX), c.num(rows[i].publicKeyY)));
    }
    assert rows[..|rows|] == rows;
  }

  /** Appends to a copy, in chunks of any size; the given tree is not touched. */
  method AppendSignupLeaves(c: Crypto, tree: LeanIMT, ghost rows: seq<LeafRow>, extra: seq<LeafRow>, yieldEvery: int)
    returns (next: LeanIMT)
    requires IsSignUpTree(c, tree, rows)
    ensures fresh(next) && IsSignUpTree(c, next, rows + extra)
  {
    hide SignUpRow, LeafHashes;
    SignUpRowAppends(c, rows, extra);
    next := new LeanIMT.Import(tree);
    var hashes := LeafHashes(c, extra);
    var chunk := if yieldEvery > 1 then yieldEvery else 1;
    var offset := 0;
    while offset < |hashes|
      invariant fresh(next) && next.hash == c.hashLeanIMT && offset >= 0
      invariant next.leaves == tree.leaves + hashes[..if offset < |hashes| then offset else |hashes|]
      decreases |hashes| - offset
    {
      var end := if offset + chunk < |hashes| then offset + chunk else |hashes|;
      assert hashes[..end] == hashes[..offset] + hashes[offset..end];
      next.InsertMany(hashes[offset..end]);
      offset := offset + chunk;
    }
    assert hashes[..|hashes|] == hashes;
  }

  function SnapshotStateRootIndex(tree: LeanIMT): int
    reads tree
  {
    tree.Size() - 1
  }
}
