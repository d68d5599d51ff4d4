/** apps/backend/src/trees/snapshot.ts: pages of sign-ups, and the checks on them. */
module SnapshotRules {
  import opened LeanTree
  import opened Results

  datatype Provenance = Provenance(blockNumber: int, blockHash: string)

  /** The rows carry the indexes start, start + 1, ... */
  ghost predicate Numbered(c: Crypto, rows: seq<LeafRow>, start: int) {
    forall i :: 0 <= i < |rows| ==> c.num(rows[i].stateIndex) == start + i
  }

  method AssertContiguousSignupIndexes(c: Crypto, rows: seq<LeafRow>) returns (ok: bool)
    ensures ok <==> Numbered(c, rows, 1)
  {
    for i := 0 to |rows|
      invariant forall j :: 0 <= j < i ==> c.num(rows[j].stateIndex) == 1 + j
    {
      if c.num(rows[i].stateIndex) != i + 1 {
        return false;
      }
    }
    ok := true;
  }

  /** An answer, or none yet after as many pages as were waited for. */
  datatype Answer<T> = Pending | Answered(result: Result<T>)
  {
    predicate Succeeds() { Answered? && result.Success? }
  }

  /** A page query at a pinned block: the rows after a cursor, at most so many; it fails on any indexing error. */
  type FetchPage = (int, nat) -> Result<seq<LeafRow>>

  /** Rows come in ascending order and end at `top`, so a full page moves the cursor on. */
  ghost predicate Ascends(c: Crypto, fetchPage: FetchPage, pageSize: nat, top: int) {
    forall cursor :: fetchPage(cursor, pageSize).Success? && |fetchPage(cursor, pageSize).value| > 0 ==>
      cursor < c.num(fetchPage(cursor, pageSize).value[|fetchPage(cursor, pageSize).value| - 1].stateIndex) <= top
  }

  function Upper(n: nat, bound: nat): nat { if n < bound then n else bound }

  /** The indexer has exactly these rows. */
  ghost predicate Serves(fetchPage: FetchPage, pageSize: nat, rows: seq<LeafRow>) {
    forall cursor :: 0 <= cursor <= |rows| ==>
      fetchPage(cursor, pageSize) == Success(rows[cursor..Upper(cursor + pageSize, |rows|)])
  }

  /** The indexer's rows after a cursor are what a call is to collect. */
  ghost predicate Honest(c: Crypto, fetchPage: FetchPage, pageSize: nat, rows: seq<LeafRow>, startCursor: int) {
    pageSize >= 1 && Serves(fetchPage, pageSize, rows) && Numbered(c, rows, 1) && 0 <= startCursor <= |rows|
  }

  /**
   Fetches page after page until one is short. Rows whose indexes do not ascend can keep it fetching for ever, so the call
   is looked at after `rounds` pages.
   */
  method FetchPages(c: Crypto, fetchPage: FetchPage, pageSize: nat, startCursor: int, rounds: nat, ghost top: int, ghost rows: seq<LeafRow>)
    returns (r: Answer<seq<LeafRow>>)
    ensures Honest(c, fetchPage, pageSize, rows, startCursor) ==> r.Pending? || r == Answered(Success(rows[startCursor..]))
    ensures Honest(c, fetchPage, pageSize, rows, startCursor) && rounds > |rows| - startCursor ==> r.Answered?
    ensures Ascends(c, fetchPage, pageSize, top) && rounds > top - startCursor && rounds > 0 ==> r.Answered?
  {
    hide Ascends, Honest;
    ghost var honest, ascends := Honest(c, fetchPage, pageSize, rows, startCursor), Ascends(c, fetchPage, pageSize, top);
    var leaves := [];
    var cursor := startCursor;
    if honest {
      StartsWithin(c, fetchPage, pageSize, rows, startCursor);
    }
    for i := 0 to rounds
      invariant honest ==> startCursor + i <= cursor <= |rows| && leaves == rows[startCursor..cursor]
      invariant ascends ==> startCursor + i <= cursor && (i > 0 ==> cursor <= top)
    {
      var page := fetchPage(cursor, pageSize);
      if honest {
        HonestPage(c, fetchPage, pageSize, rows, startCursor, cursor);
      }
      if ascends && page.Success? && page.value != [] {
        PageAscends(c, fetchPage, pageSize, top, cursor);
      }
      if page.Failure? {
        return Answered(page);
      }
      leaves := leaves + page.value;
      if |page.value| < pageSize {
        return Answered(Success(leaves));
      }
      if |page.value| == 0 {
        return Answered(Failure("TypeError"));
      }
      cursor := c.num(page.value[|page.value| - 1].stateIndex);
    }
    r := Pending;
  }

  lemma StartsWithin(c: Crypto, fetchPage: FetchPage, pageSize: nat, rows: seq<LeafRow>, start: int)
    requires Honest(c, fetchPage, pageSize, rows, start)
    ensures 0 <= start <= |rows| && pageSize >= 1
  {
  }

  lemma PageAscends(c: Crypto, fetchPage: FetchPage, pageSize: nat, top: int, cursor: int)
    requires Ascends(c, fetchPage, pageSize, top) && fetchPage(cursor, pageSize).Success? && fetchPage(cursor, pageSize).value != []
    ensures cursor < c.num(fetchPage(cursor, pageSize).value[|fetchPage(cursor, pageSize).value| - 1].stateIndex) <= top
  {
  }

  /** What a page adds: a short one all the rest, a full one the rows up to its last index. */
  lemma HonestPage(c: Crypto, fetchPage: FetchPage, pageSize: nat, rows: seq<LeafRow>, start: nat, cursor: nat)
    requires Honest(c, fetchPage, pageSize, rows, start) && start <= cursor <= |rows|
    ensures fetchPage(cursor, pageSize).Success?
    ensures |fetchPage(cursor, pageSize).value| < pageSize ==>
      rows[start..cursor] + fetchPage(cursor, pageSize).value == rows[start..]
    ensures |fetchPage(cursor, pageSize).value| >= pageSize ==>
      && cursor + pageSize <= |rows| && fetchPage(cursor, pageSize).value != []
      && c.num(fetchPage(cursor, pageSize).value[|fetchPage(cursor, pageSize).value| - 1].stateIndex) == cursor + pageSize
      && rows[start..cursor] + fetchPage(cursor, pageSize).value == rows[start..cursor + pageSize]
  {
    var page := rows[cursor..Upper(cursor + pageSize, |rows|)];
    assert fetchPage(cursor, pageSize) == Success(page);
    if |page| >= pageSize {
      assert page[|page| - 1] == rows[cursor + pageSize - 1];
    }
  }

  /**
   Whatever the pages hold, a result is numbered without a gap; and for an indexer with contiguous rows it is all the
   rows after the cursor, whatever the page size. An indexer whose rows ascend always gets an answer.
   */
  method CollectPages(c: Crypto, fetchPage: FetchPage, pageSize: nat, startCursor: int, startExpectedIndex: int, rounds: nat,
                      ghost top: int, ghost rows: seq<LeafRow>)
    returns (r: Answer<seq<LeafRow>>)
    ensures r.Succeeds() ==> Numbered(c, r.result.value, startExpectedIndex) && (startCursor == 0 ==> Numbered(c, r.result.value, 1))
    ensures Honest(c, fetchPage, pageSize, rows, startCursor) && startExpectedIndex == startCursor + 1 ==>
      r.Pending? || r == Answered(Success(rows[startCursor..]))
    ensures Honest(c, fetchPage, pageSize, rows, startCursor) && rounds > |rows| - startCursor ==> r.Answered?
    ensures Ascends(c, fetchPage, pageSize, top) && rounds > top - startCursor && rounds > 0 ==> r.Answered?
  {
    hide Ascends, Honest;
    r := FetchPages(c, fetchPage, pageSize, startCursor, rounds, top, rows);
    if !r.Succeeds() {
      return;
    }
    if Honest(c, fetchPage, pageSize, rows, startCursor) {
      HonestRest(c, fetchPage, pageSize, rows, startCursor);
    }
    var leaves := r.result.value;
    for i := 0 to |leaves|
      invariant forall j :: 0 <= j < i ==> c.num(leaves[j].stateIndex) == startExpectedIndex + j
    {
      if c.num(leaves[i].stateIndex) != startExpectedIndex + i {
        return Answered(Failure("PAGINATION_GAP"));
      }
    }
    if startCursor == 0 {
      var ok := AssertContiguousSignupIndexes(c, leaves);
      if !ok {
        return Answered(Failure("PAGINATION_GAP"));
      }
    }
  }

  lemma HonestRest(c: Crypto, fetchPage: FetchPage, pageSize: nat, rows: seq<LeafRow>, start: int)
    requires Honest(c, fetchPage, pageSize, rows, start)
    ensures Numbered(c, rows[start..], start + 1)
  {
  }

  method CanAppendLeaves(c: Crypto, previous: seq<LeafRow>, extra: seq<LeafRow>) returns (ok: bool)
    ensures Numbered(c, previous, 1) ==> (ok <==> Numbered(c, previous + extra, 1))
  {
    if |extra| == 0 {
      assert previous + extra == previous;
      return true;
    }
    var expectedNext := if |previous| == 0 then 1 else c.num(previous[|previous| - 1].stateIndex) + 1;
    for i := 0 to |extra|
      invariant forall j :: 0 <= j < i ==> c.num(extra[j].stateIndex) == expectedNext + j
    {
      if c.num(extra[i].stateIndex) != expectedNext + i {
        assert (previous + extra)[|previous| + i] == extra[i];
        return false;
      }
    }
    ok := true;
  }

  /** The observed row, if any, is the cached last one, character by character. */
  predicate LastLeafMatches(previous: seq<LeafRow>, observed: Option<LeafRow>) {
    |previous| == 0 || observed == Some(previous[|previous| - 1])
  }

  /** The state index of the first row with the requested key, compared as strings. */
  method FindLeafIndex(c: Crypto, rows: seq<LeafRow>, publicKeyX: string, publicKeyY: string) returns (r: Result<int>)
    ensures r.Failure? <==> forall i :: 0 <= i < |rows| ==> rows[i].publicKeyX != publicKeyX || rows[i].publicKeyY != publicKeyY
    ensures r.Success? && Numbered(c, rows, 1) ==>
      1 <= r.value <= |rows| && rows[r.value - 1].publicKeyX == publicKeyX && rows[r.value - 1].publicKeyY == publicKeyY
    ensures r.Success? && Numbered(c, rows, 1) ==>
      forall i :: 0 <= i < r.value - 1 ==> rows[i].publicKeyX != publicKeyX || rows[i].publicKeyY != publicKeyY
  {
    for i := 0 to |rows|
      invariant forall j :: 0 <= j < i ==> rows[j].publicKeyX != publicKeyX || rows[j].publicKeyY != publicKeyY
    {
      if rows[i].publicKeyX == publicKeyX && rows[i].publicKeyY == publicKeyY {
        return Success(c.num(rows[i].stateIndex));
      }
    }
    r := Failure("VOTER_NOT_IN_SNAPSHOT");
  }

  predicate ProvenanceChanged(previous: Provenance, next: Provenance) {
    previous.blockNumber != next.blockNumber || previous.blockHash != next.blockHash
  }
}
