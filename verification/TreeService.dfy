/** apps/backend/src/trees/service.ts: the cached snapshot of the sign-ups, its refreshes, and the proofs served from it. */
module TreeService {
  import opened LeanTree
  import opened Results
  import opened SnapshotRules

  datatype Snapshot = Snapshot(rows: seq<LeafRow>, tree: LeanIMT, provenance: Provenance, stateRootIndex: int)

  /** getStateRootOnIndexedSignUp; a call may fail. */
  type Roots = int -> Result<int>

  /** The indexer at a pinned block. */
  datatype Indexer = Indexer(fetchPage: FetchPage, pageSize: nat)

  /** What one refresh meets: the head, the indexer at the head's block, and the contract at its three possible reads. */
  datatype World = World(head: Result<Provenance>, indexer: Indexer, rootsAtAppend: Roots, rootsAtLoad: Roots, rootsAtRetain: Roots)

  /** Rows numbered 1, 2, ... and the tree a full rebuild over them gives. */
  ghost predicate SnapOk(c: Crypto, s: Snapshot)
    reads s.tree
  {
    Numbered(c, s.rows, 1) && IsSignUpTree(c, s.tree, s.rows) && s.stateRootIndex == |s.rows|
  }

  /** The contract had this snapshot's root at its index. */
  ghost predicate Confirmed(c: Crypto, s: Snapshot, roots: Roots)
    requires SnapOk(c, s)
    reads s.tree
  {
    roots(s.stateRootIndex) == Success(s.tree.Root())
  }

  /** One of the contract reads of a refresh. */
  ghost predicate ReadIn(roots: Roots, w: World) {
    roots == w.rootsAtAppend || roots == w.rootsAtLoad || roots == w.rootsAtRetain
  }

  ghost predicate ConfirmedIn(c: Crypto, s: Snapshot, w: World)
    requires SnapOk(c, s)
    reads s.tree
  {
    Confirmed(c, s, w.rootsAtAppend) || Confirmed(c, s, w.rootsAtLoad) || Confirmed(c, s, w.rootsAtRetain)
  }

  /** The indexer has exactly these rows, numbered without a gap. */
  ghost predicate HasRows(c: Crypto, indexer: Indexer, rows: seq<LeafRow>) {
    && indexer.pageSize >= 1 && Numbered(c, rows, 1)
    && Serves(indexer.fetchPage, indexer.pageSize, rows) && Serves(indexer.fetchPage, 1, rows)
  }

  /** The contract has the root of these rows. */
  ghost predicate HasRoot(c: Crypto, roots: Roots, rows: seq<LeafRow>) {
    roots(|rows|) == Success(LeanRoot(c.hashLeanIMT, SignUpRow(c, rows)))
  }

  // ----- the root check

  function ChainRow(c: Crypto, signUps: seq<(int, int)>): (r: seq<int>)
    ensures |r| == |signUps| + 1 && r[0] == c.padKeyHash
    ensures forall i :: 0 <= i < |signUps| ==> r[i + 1] == c.hashLeftRight(signUps[i].0, signUps[i].1)
  {
    [c.padKeyHash] + seq(|signUps|, i requires 0 <= i < |signUps| => c.hashLeftRight(signUps[i].0, signUps[i].1))
  }

  /** The contract keeps the root of every prefix of its sign-ups, and reverts beyond them. */
  ghost predicate IsContract(c: Crypto, roots: Roots, signUps: seq<(int, int)>) {
    forall i ::
      if 0 <= i <= |signUps| then roots(i) == Success(LeanRoot(c.hashLeanIMT, ChainRow(c, signUps[..i]))) else roots(i).Failure?
  }

  /** The rows carry exactly the first keys on chain. */
  ghost predicate OnChain(c: Crypto, rows: seq<LeafRow>, signUps: seq<(int, int)>) {
    |rows| <= |signUps| && forall i :: 0 <= i < |rows| ==> (c.num(rows[i].publicKeyX), c.num(rows[i].publicKeyY)) == signUps[i]
  }

  /** With injective hashes the one root read decides it: a snapshot is confirmed exactly when its keys are the first on chain. */
  lemma ConfirmedIffOnChain(c: Crypto, s: Snapshot, roots: Roots, signUps: seq<(int, int)>)
    requires Injective2(c.hashLeanIMT) && Injective2(c.hashLeftRight) && SnapOk(c, s) && IsContract(c, roots, signUps)
    ensures Confirmed(c, s, roots) <==> OnChain(c, s.rows, signUps)
  {
    hide SignUpRow, ChainRow, LeanRoot;
    var n := |s.rows|;
    assert n > |signUps| ==> roots(n).Failure?;
    if n <= |signUps| {
      var ours, theirs := SignUpRow(c, s.rows), ChainRow(c, signUps[..n]);
      assert roots(n) == Success(LeanRoot(c.hashLeanIMT, theirs));
      if Confirmed(c, s, roots) {
        SameLeanRoot(c.hashLeanIMT, ours, theirs);
        forall i | 0 <= i < n
          ensures (c.num(s.rows[i].publicKeyX), c.num(s.rows[i].publicKeyY)) == signUps[i]
        {
          assert ours[i + 1] == theirs[i + 1];
          SamePair(c.hashLeftRight, c.num(s.rows[i].publicKeyX), c.num(s.rows[i].publicKeyY), signUps[i].0, signUps[i].1);
        }
      }
      if OnChain(c, s.rows, signUps) {
        SameRows(c, s.rows, signUps);
      }
    }
  }

  lemma SameRows(c: Crypto, rows: seq<LeafRow>, signUps: seq<(int, int)>)
    requires OnChain(c, rows, signUps)
    ensures SignUpRow(c, rows) == ChainRow(c, signUps[..|rows|])
  {
    hide SignUpRow, ChainRow;
    var ours, theirs := SignUpRow(c, rows), ChainRow(c, signUps[..|rows|]);
    forall j | 0 <= j < |ours|
      ensures ours[j] == theirs[j]
    {
      if j > 0 {
        assert ours[j] == KeyHash(c, rows[j - 1]);
        assert theirs[j] == c.hashLeftRight(signUps[j - 1].0, signUps[j - 1].1);
      }
    }
  }

  // ----- the service

  datatype ServedProof = ServedProof(leafIndex: int, stateRootIndex: int, inclusionProof: LeanProof, provenance: Provenance)

  /** The snapshots a request looks the key up in: the first, and one more if the key is not there. */
  datatype Looked = Looked(first: Option<Snapshot>, second: Option<Snapshot>)

  class Service {
    const c: Crypto
    const yieldEvery: int
    var cache: Option<Snapshot>
    /** The state of the contract at the read that last confirmed the cache. */
    ghost var confirmedBy: Roots

    constructor (c: Crypto, yieldEvery: int)
      ensures Valid() && this.c == c && cache == None
    {
      this.c, this.yieldEvery, cache, confirmedBy := c, yieldEvery, None, _ => Failure("");
    }

    ghost function Trees(): set<LeanIMT>
      reads `cache
    {
      if cache.Some? then {cache.value.tree} else {}
    }

    /** The cache is in order, and the contract had its root. */
    ghost predicate Valid()
      reads `cache, `confirmedBy, Trees()
    {
      cache.Some? ==> SnapOk(c, cache.value) && Confirmed(c, cache.value, confirmedBy)
    }

    /** Fetches the rows after a cursor. */
    method FetchLeavesAt(indexer: Indexer, startCursor: int, rounds: nat, ghost top: int, ghost rows: seq<LeafRow>)
      returns (r: Answer<seq<LeafRow>>)
      ensures r.Succeeds() ==> Numbered(c, r.result.value, startCursor + 1)
      ensures HasRows(c, indexer, rows) && 0 <= startCursor <= |rows| ==> r.Pending? || r == Answered(Success(rows[startCursor..]))
      ensures HasRows(c, indexer, rows) && 0 <= startCursor <= |rows| < rounds ==> r.Answered?
      ensures Ascends(c, indexer.fetchPage, indexer.pageSize, top) && rounds > top - startCursor && rounds > 0 ==> r.Answered?
    {
      var first := if startCursor == 0 then 1 else startCursor + 1;
      r := CollectPages(c, indexer.fetchPage, indexer.pageSize, startCursor, first, rounds, top, rows);
    }

    /** Fetches the last cached row again and compares: it passes exactly when the indexer still has that very row. */
    method VerifyCachedPrefix(previous: Snapshot, indexer: Indexer, ghost rows: seq<LeafRow>) returns (ok: bool)
      requires SnapOk(c, previous)
      ensures ok <==> |previous.rows| == 0 || StillHas(indexer, |previous.rows|, previous.rows[|previous.rows| - 1])
      ensures HasRows(c, indexer, rows) && |previous.rows| <= |rows| ==>
        (ok <==> |previous.rows| == 0 || previous.rows[|previous.rows| - 1] == rows[|previous.rows| - 1])
    {
      hide IsSignUpTree;
      if |previous.rows| == 0 {
        return true;
      }
      var last := previous.rows[|previous.rows| - 1];
      var cursor := c.num(last.stateIndex) - 1;
      var page := indexer.fetchPage(cursor, 1);
      if page.Failure? {
        return false;
      }
      ok := LastLeafMatches(previous.rows, if |page.value| > 0 then Some(page.value[0]) else None);
    }

    /** Asked for the one row with this index, the indexer gives exactly `row`. */
    predicate StillHas(indexer: Indexer, index: nat, row: LeafRow) {
      var page := indexer.fetchPage(index - 1, 1);
      page.Success? && |page.value| > 0 && page.value[0] == row
    }

    /** The root check in front of every snapshot. */
    method PublishSnapshot(rows: seq<LeafRow>, tree: LeanIMT, provenance: Provenance, roots: Roots) returns (r: Result<Snapshot>)
      requires Numbered(c, rows, 1) && IsSignUpTree(c, tree, rows)
      ensures r.Success? <==> HasRoot(c, roots, rows)
      ensures r.Success? ==> r.value == Snapshot(rows, tree, provenance, |rows|) && SnapOk(c, r.value) && Confirmed(c, r.value, roots)
    {
      var stateRootIndex := SnapshotStateRootIndex(tree);
      var expected := roots(stateRootIndex);
      if expected.Failure? {
        return Failure(expected.error);
      }
      if tree.Root() != expected.value {
        return Failure("ROOT_MISMATCH");
      }
      r := Success(Snapshot(rows, tree, provenance, stateRootIndex));
    }

    /** Extends a copy of the cached snapshot; for an honest indexer whose rows extend the cached ones, to all its rows. */
    method IncrementalAppend(previous: Snapshot, provenance: Provenance, indexer: Indexer, roots: Roots, rounds: nat,
                             ghost top: int, ghost rows: seq<LeafRow>)
      returns (r: Answer<Snapshot>)
      requires SnapOk(c, previous)
      ensures r.Succeeds() ==> SnapOk(c, r.result.value) && Confirmed(c, r.result.value, roots)
      ensures r.Succeeds() ==> previous.rows <= r.result.value.rows && r.result.value.provenance == provenance
      ensures r.Succeeds() ==> r.result.value.tree == previous.tree || fresh(r.result.value.tree)
      ensures r.Succeeds() && previous.rows != [] ==> StillHas(indexer, |previous.rows|, previous.rows[|previous.rows| - 1])
      ensures HasRows(c, indexer, rows) && previous.rows <= rows && r.Answered? ==> (r.Succeeds() <==> HasRoot(c, roots, rows))
      ensures HasRows(c, indexer, rows) && previous.rows <= rows && |rows| < rounds ==> r.Answered?
      ensures HasRows(c, indexer, rows) && previous.rows <= rows && r.Succeeds() ==> r.result.value.rows == rows
    {
      hide HasRows;
      var ok := VerifyCachedPrefix(previous, indexer, rows);
      if !ok {
        return Answered(Failure("PREFIX_CHANGED"));
      }
      var startCursor := if |previous.rows| == 0 then 0 else c.num(previous.rows[|previous.rows| - 1].stateIndex);
      var extra := FetchLeavesAt(indexer, startCursor, rounds, top, rows);
      if extra.Pending? {
        return Pending;
      }
      if extra.result.Failure? {
        return Answered(Failure(extra.result.error));
      }
      assert previous.rows <= rows ==> previous.rows + rows[|previous.rows|..] == rows;
      var appends := CanAppendLeaves(c, previous.rows, extra.result.value);
      if !appends {
        assert HasRows(c, indexer, rows) && previous.rows <= rows ==> Numbered(c, rows, 1) by {
          HasRowsNumbered(c, indexer, rows);
        }
        return Answered(Failure("PAGINATION_GAP"));
      }
      var published: Result<Snapshot>;
      if |extra.result.value| == 0 {
        assert previous.rows + extra.result.value == previous.rows;
        published := PublishSnapshot(previous.rows, previous.tree, provenance, roots);
      } else {
        var nextTree := AppendSignupLeaves(c, previous.tree, previous.rows, extra.result.value, yieldEvery);
        published := PublishSnapshot(previous.rows + extra.result.value, nextTree, provenance, roots);
      }
      r := Answered(published);
    }

    lemma HasRowsNumbered(c: Crypto, indexer: Indexer, rows: seq<LeafRow>)
      ensures HasRows(c, indexer, rows) ==> Numbered(c, rows, 1)
    {
    }

    /** Fetches everything and rebuilds. */
    method FullLoad(provenance: Provenance, indexer: Indexer, roots: Roots, rounds: nat, ghost top: int, ghost rows: seq<LeafRow>)
      returns (r: Answer<Snapshot>)
      ensures r.Succeeds() ==> SnapOk(c, r.result.value) && Confirmed(c, r.result.value, roots)
      ensures r.Succeeds() ==> r.result.value.provenance == provenance && fresh(r.result.value.tree)
      ensures HasRows(c, indexer, rows) && r.Answered? ==> (r.Succeeds() <==> HasRoot(c, roots, rows))
      ensures HasRows(c, indexer, rows) && |rows| < rounds ==> r.Answered?
      ensures HasRows(c, indexer, rows) && r.Succeeds() ==> r.result.value.rows == rows
    {
      var leaves := FetchLeavesAt(indexer, 0, rounds, top, rows);
      if leaves.Pending? {
        return Pending;
      }
      if leaves.result.Failure? {
        return Answered(Failure(leaves.result.error));
      }
      var tree := BuildSignUpTree(c, leaves.result.value);
      var published := PublishSnapshot(leaves.result.value, tree, provenance, roots);
      r := Answered(published);
    }

    /**
     Appends when the head has moved to a later block, and loads everything otherwise or when appending fails. Appending
     that is not answered yet has not failed.
     */
    method LoadSnapshot(w: World, rounds: nat, ghost top: int, ghost rows: seq<LeafRow>) returns (r: Answer<Snapshot>)
      requires Valid()
      ensures r.Succeeds() ==> SnapOk(c, r.result.value) && ConfirmedIn(c, r.result.value, w)
      ensures r.Succeeds() ==> w.head == Success(r.result.value.provenance)
      ensures r.Succeeds() ==> r.result.value.tree in Trees() || fresh(r.result.value.tree)
      ensures w.head.Success? && HasRows(c, w.indexer, rows) && HasRoot(c, w.rootsAtLoad, rows) ==> r.Pending? || r.Succeeds()
      ensures r.Succeeds() && HasRows(c, w.indexer, rows) && (cache.Some? ==> cache.value.rows <= rows) ==> r.result.value.rows == rows
      ensures HasRows(c, w.indexer, rows) && |rows| < rounds && (cache.Some? ==> cache.value.rows <= rows) ==> r.Answered?
    {
      hide HasRows, HasRoot;
      if w.head.Failure? {
        return Answered(Failure(w.head.error));
      }
      var provenance := w.head.value;
      var previous := cache;
      var sameHeightReorg := previous.Some? && previous.value.provenance.blockNumber == provenance.blockNumber
                             && previous.value.provenance.blockHash != provenance.blockHash;
      if previous.Some? && !sameHeightReorg && previous.value.provenance.blockNumber < provenance.blockNumber {
        r := IncrementalAppend(previous.value, provenance, w.indexer, w.rootsAtAppend, rounds, top, rows);
        if r.Pending? || r.result.Success? {
          return;
        }
      }
      r := FullLoad(provenance, w.indexer, w.rootsAtLoad, rounds, top, rows);
    }

    /** A snapshot may still be served if the contract confirms its root now. */
    method RetainIfHistoricallyValid(s: Snapshot, roots: Roots) returns (usable: bool)
      requires SnapOk(c, s)
      ensures usable <==> Confirmed(c, s, roots)
    {
      var expected := roots(s.stateRootIndex);
      usable := expected.Success? && s.tree.Root() == expected.value;
    }

    /** The cache, if any, holds the first of these rows. */
    ghost predicate Among(snapshot: Option<Snapshot>, rows: seq<LeafRow>) { snapshot.Some? ==> snapshot.value.rows <= rows }

    /** The indexer answers for a block and has exactly these rows, and the contract has their root. */
    ghost predicate Honest(w: World, rows: seq<LeafRow>) {
      w.head.Success? && HasRows(c, w.indexer, rows) && HasRoot(c, w.rootsAtLoad, rows)
    }

    /** Loads a snapshot into the cache; if that fails the cache survives only if the contract still confirms it. */
    method RefreshSnapshot(w: World, rounds: nat, ghost top: int, ghost rows: seq<LeafRow>) returns (r: Answer<Snapshot>)
      requires Valid()
      modifies `cache, `confirmedBy
      ensures Valid() && (r.Pending? ==> cache == old(cache) && confirmedBy == old(confirmedBy))
      ensures r.Answered? && cache.Some? ==> ReadIn(confirmedBy, w)
      ensures r.Answered? ==> cache == if r.result.Success? then Some(r.result.value) else None
      ensures r.Succeeds() ==> SnapOk(c, r.result.value) && ConfirmedIn(c, r.result.value, w)
      ensures r.Succeeds() ==> w.head == Success(r.result.value.provenance) || Some(r.result.value) == old(cache)
      ensures w.head.Success? && HasRows(c, w.indexer, rows) && HasRoot(c, w.rootsAtLoad, rows) ==> r.Pending? || r.Succeeds()
      ensures HasRows(c, w.indexer, rows) && |rows| < rounds && old(Among(cache, rows)) ==> r.Answered?
      ensures Honest(w, rows) && old(Among(cache, rows)) && r.Succeeds() ==> r.result.value.rows == rows
    {
      hide HasRows, HasRoot, Confirmed;
      r := LoadSnapshot(w, rounds, top, rows);
      if r.Pending? {
        return;
      }
      if r.result.Success? {
        cache := Some(r.result.value);
        if Confirmed(c, r.result.value, w.rootsAtAppend) {
          confirmedBy := w.rootsAtAppend;
        } else if Confirmed(c, r.result.value, w.rootsAtLoad) {
          confirmedBy := w.rootsAtLoad;
        } else {
          confirmedBy := w.rootsAtRetain;
        }
        return;
      }
      if cache.Some? {
        var retained := RetainIfHistoricallyValid(cache.value, w.rootsAtRetain);
        if retained {
          confirmedBy := w.rootsAtRetain;
          return Answered(Success(cache.value));
        }
      }
      cache := None;
    }

    method ProofFromSnapshot(s: Snapshot, publicKeyX: string, publicKeyY: string) returns (r: Result<ServedProof>)
      requires SnapOk(c, s)
      ensures r.Success? ==> Serves(s, publicKeyX, publicKeyY, r.value)
      ensures r.Failure? <==> !HasKey(s, publicKeyX, publicKeyY)
    {
      var leafIndex := FindLeafIndex(c, s.rows, publicKeyX, publicKeyY);
      if leafIndex.Failure? {
        return Failure(leafIndex.error);
      }
      var inclusionProof := s.tree.GenerateProof(leafIndex.value);
      assert s.rows[leafIndex.value - 1].publicKeyX == publicKeyX;
      r := Success(ServedProof(leafIndex.value, s.stateRootIndex, inclusionProof, s.provenance));
    }

    /** Some row has the key. */
    ghost predicate InRows(rows: seq<LeafRow>, publicKeyX: string, publicKeyY: string) {
      exists i :: 0 <= i < |rows| && rows[i].publicKeyX == publicKeyX && rows[i].publicKeyY == publicKeyY
    }

    ghost predicate HasKey(s: Snapshot, publicKeyX: string, publicKeyY: string) { InRows(s.rows, publicKeyX, publicKeyY) }

    /** The proof shows the hash of the requested key, at its sign-up's index, under the root the contract has for its index. */
    ghost predicate Serves(s: Snapshot, publicKeyX: string, publicKeyY: string, proof: ServedProof)
      requires SnapOk(c, s)
      reads s.tree
    {
      && 1 <= proof.leafIndex <= |s.rows| && c.num(s.rows[proof.leafIndex - 1].stateIndex) == proof.leafIndex
      && s.rows[proof.leafIndex - 1].publicKeyX == publicKeyX && s.rows[proof.leafIndex - 1].publicKeyY == publicKeyY
      && proof.inclusionProof.leaf == c.hashLeftRight(c.num(publicKeyX), c.num(publicKeyY))
      && proof.inclusionProof.root == s.tree.Root() && LeanAccepts(c.hashLeanIMT, proof.inclusionProof)
      && proof.stateRootIndex == |s.rows| && proof.provenance == s.provenance
    }

    /** If that read was of a contract with these sign-ups, the key is the one signed up at the proof's index. */
    ghost predicate SignedUpAt(read: Roots, signUps: seq<(int, int)>, leafIndex: int, publicKeyX: string, publicKeyY: string) {
      IsContract(c, read, signUps) ==> 1 <= leafIndex <= |signUps| && signUps[leafIndex - 1] == (c.num(publicKeyX), c.num(publicKeyY))
    }

    /** A key served under a confirmed root is on chain, at the proof's index. */
    lemma ServedIsSignedUp(s: Snapshot, read: Roots, signUps: seq<(int, int)>, publicKeyX: string, publicKeyY: string, proof: ServedProof)
      requires Injective2(c.hashLeanIMT) && Injective2(c.hashLeftRight) && SnapOk(c, s) && Confirmed(c, s, read)
      requires Serves(s, publicKeyX, publicKeyY, proof)
      ensures SignedUpAt(read, signUps, proof.leafIndex, publicKeyX, publicKeyY)
    {
      if IsContract(c, read, signUps) {
        ConfirmedIffOnChain(c, s, read, signUps);
      }
    }

    /** The indexer is still at the block the snapshot was taken at, without errors. */
    ghost predicate IsCurrent(s: Snapshot, head: Result<(Provenance, bool)>) { head == Success((s.provenance, false)) }

    /** Where the key is found. */
    ghost function FoundIn(l: Looked, publicKeyX: string, publicKeyY: string): Option<Snapshot> {
      if l.first.Some? && HasKey(l.first.value, publicKeyX, publicKeyY) then l.first
      else if l.first.Some? && l.second.Some? && HasKey(l.second.value, publicKeyX, publicKeyY) then l.second
      else None
    }

    /**
     Serves from the cache while it is current; otherwise refreshes, but goes on serving the old snapshot if the
     contract still confirms it. A key that is not found is looked up once more after a second refresh. A proof is served
     exactly if the key is in one of the two snapshots, and every key of an honest indexer's rows is. `read` is the read
     of the contract that confirmed what is served: one of this call, or the one that last confirmed a current cache.
     */
    method GetInclusionProof(publicKeyX: string, publicKeyY: string, head: Result<(Provenance, bool)>, roots: Roots,
                             w: World, again: World, rounds: nat, ghost top: int, ghost rows: seq<LeafRow>,
                             ghost later: seq<LeafRow>)
      returns (r: Answer<ServedProof>, ghost looked: Looked, ghost read: Roots)
      requires Valid()
      modifies `cache, `confirmedBy
      ensures Valid()
      ensures r.Succeeds() <==> FoundIn(looked, publicKeyX, publicKeyY).Some?
      ensures r.Pending? ==> looked.second.None?
      ensures looked.first.None? ==> r.Pending? || cache.None?
      ensures looked.first.Some? && looked.second.None? && r.Answered? && r.result.Failure? ==> cache.None?
      ensures looked.second.Some? ==> looked.second == cache
      ensures old(cache).Some? && (IsCurrent(old(cache.value), head) || old(Confirmed(c, cache.value, roots))) ==>
        looked.first == old(cache)
      ensures Honest(w, rows) && |rows| < rounds && old(Among(cache, rows)) ==> looked.first.Some?
      ensures Honest(w, rows) && Honest(again, later) && rows <= later && |later| < rounds && old(Among(cache, rows)) ==>
        (r.Succeeds() <==> InRows(later, publicKeyX, publicKeyY))
      ensures r.Succeeds() ==>
        && var served := FoundIn(looked, publicKeyX, publicKeyY).value;
        && SnapOk(c, served) && Confirmed(c, served, read) && this.Serves(served, publicKeyX, publicKeyY, r.result.value)
      ensures r.Succeeds() ==>
        || (looked.first == old(cache) && read == old(confirmedBy) && head == Success((looked.first.value.provenance, false)))
        || read == roots || ReadIn(read, w) || ReadIn(read, again)
      ensures r.Succeeds() && Injective2(c.hashLeanIMT) && Injective2(c.hashLeftRight) ==>
        forall signUps :: SignedUpAt(read, signUps, r.result.value.leafIndex, publicKeyX, publicKeyY)
    {
      hide ConfirmedIn, SnapOk, SignedUpAt, Injective2, HasRows, HasRoot, Honest, IsCurrent, ReadIn, Serves;
      HonestHasRows(again, later);
      looked := Looked(None, None);
      var snapshot;
      snapshot, read := CurrentSnapshot(head, roots, w, rounds, top, rows);
      if snapshot.Pending? {
        return Pending, looked, read;
      }
      if snapshot.result.Failure? {
        return Answered(Failure(snapshot.result.error)), looked, read;
      }
      looked := Looked(Some(snapshot.result.value), None);
      var proof := ProofFromSnapshot(snapshot.result.value, publicKeyX, publicKeyY);
      if proof.Failure? {
        var next := RefreshSnapshot(again, rounds, top, later);
        if next.Pending? {
          return Pending, looked, read;
        }
        if next.result.Failure? {
          return Answered(Failure(next.result.error)), looked, read;
        }
        looked, read := looked.(second := Some(next.result.value)), confirmedBy;
        proof := ProofFromSnapshot(next.result.value, publicKeyX, publicKeyY);
      }
      r := Answered(proof);
      if proof.Success? && Injective2(c.hashLeanIMT) && Injective2(c.hashLeftRight) {
        ServedIsSignedUpEverywhere(FoundIn(looked, publicKeyX, publicKeyY).value, read, publicKeyX, publicKeyY, proof.value);
      }
    }

    lemma HonestHasRows(w: World, rows: seq<LeafRow>)
      ensures Honest(w, rows) ==> w.head.Success? && HasRows(c, w.indexer, rows) && HasRoot(c, w.rootsAtLoad, rows)
    {
    }

    lemma ServedIsSignedUpEverywhere(s: Snapshot, read: Roots, publicKeyX: string, publicKeyY: string, proof: ServedProof)
      requires Injective2(c.hashLeanIMT) && Injective2(c.hashLeftRight) && SnapOk(c, s) && Confirmed(c, s, read)
      requires Serves(s, publicKeyX, publicKeyY, proof)
      ensures forall signUps :: SignedUpAt(read, signUps, proof.leafIndex, publicKeyX, publicKeyY)
    {
      hide SnapOk, Confirmed, Serves, SignedUpAt, Injective2;
      forall signUps: seq<(int, int)>
        ensures SignedUpAt(read, signUps, proof.leafIndex, publicKeyX, publicKeyY)
      {
        ServedIsSignedUp(s, read, signUps, publicKeyX, publicKeyY, proof);
      }
    }

    /** The snapshot a request is served from; an old one that is still confirmed does not wait for the refresh. */
    method CurrentSnapshot(head: Result<(Provenance, bool)>, roots: Roots, w: World, rounds: nat, ghost top: int, ghost rows: seq<LeafRow>)
      returns (r: Answer<Snapshot>, ghost read: Roots)
      requires Valid()
      modifies `cache, `confirmedBy
      ensures Valid() && (r.Succeeds() ==> SnapOk(c, r.result.value) && Confirmed(c, r.result.value, read))
      ensures r.Succeeds() ==>
        || (Some(r.result.value) == old(cache) && read == old(confirmedBy) && head == Success((r.result.value.provenance, false)))
        || read == roots || ReadIn(read, w)
      ensures old(cache).Some? && (IsCurrent(old(cache.value), head) || old(Confirmed(c, cache.value, roots))) ==>
        r == Answered(Success(old(cache.value)))
      ensures r.Answered? && r.result.Failure? ==> cache.None?
      ensures Honest(w, rows) && |rows| < rounds && old(Among(cache, rows)) ==>
        r.Succeeds() && r.result.value.rows <= rows && Among(cache, rows)
    {
      hide Confirmed, ConfirmedIn, HasRows, HasRoot;
      read := confirmedBy;
      if cache.None? {
        r := RefreshSnapshot(w, rounds, top, rows);
        read := confirmedBy;
        return;
      }
      var snapshot := cache.value;
      var stale := head.Failure? || head.value.1 || ProvenanceChanged(snapshot.provenance, head.value.0);
      if !stale {
        return Answered(Success(snapshot)), read;
      }
      var pending := RefreshSnapshot(w, rounds, top, rows);
      var usable := RetainIfHistoricallyValid(snapshot, roots);
      r := if usable then Answered(Success(snapshot)) else pending;
      read := if usable then roots else confirmedBy;
    }
  }
}
