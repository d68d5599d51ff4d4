/** The message chain hash and the split of a log into batches. */
module MessageLog {
  import opened DomainObjects
  import opened Field
  import opened Merkle
  import opened Powers
  import opened Voting

  function MessageHash(h: Hashes, p: Published): int {
    h.hash12(p.message.data + [p.encryptionPublicKey.x, p.encryptionPublicKey.y])
  }

  /** The hash of a log continued from a starting value, oldest message first. */
  function ChainFrom(h: Hashes, start: int, log: seq<Published>): int {
    if log == [] then start
    else h.hash2([ChainFrom(h, start, log[..|log| - 1]), MessageHash(h, log[|log| - 1])])
  }

  function Chain(h: Hashes, log: seq<Published>): int {
    ChainFrom(h, NOTHING_UP_MY_SLEEVE, log)
  }

  lemma {:induction false} ChainJoin(h: Hashes, start: int, a: seq<Published>, b: seq<Published>)
    ensures ChainFrom(h, ChainFrom(h, start, a), b) == ChainFrom(h, start, a + b)
  {
    if b == [] {
      assert a + b == a;
    } else {
      assert (a + b)[..|a + b| - 1] == a + b[..|b| - 1];
      ChainJoin(h, start, a, b[..|b| - 1]);
    }
  }

  /** All messages carry as many data elements; in the source it is ten. */
  ghost predicate SameSize(log: seq<Published>, size: nat) {
    forall i :: 0 <= i < |log| ==> |log[i].message.data| == size
  }

  lemma MessageHashBinds(h: Hashes, p: Published, q: Published)
    requires Injective(h.hash12) && |p.message.data| == |q.message.data| && MessageHash(h, p) == MessageHash(h, q)
    ensures p == q
  {
    var n := |p.message.data|;
    var ps := p.message.data + [p.encryptionPublicKey.x, p.encryptionPublicKey.y];
    var qs := q.message.data + [q.encryptionPublicKey.x, q.encryptionPublicKey.y];
    assert ps == qs;
    assert p.message.data == ps[..n] == qs[..n] == q.message.data;
    assert ps[n] == p.encryptionPublicKey.x && ps[n + 1] == p.encryptionPublicKey.y;
    assert qs[n] == q.encryptionPublicKey.x && qs[n + 1] == q.encryptionPublicKey.y;
  }

  lemma LinkBinds(h: Hashes, x: int, m: int, y: int, n: int)
    requires Injective(h.hash2)
    ensures h.hash2([x, m]) == h.hash2([y, n]) <==> x == y && m == n
  {
    if h.hash2([x, m]) == h.hash2([y, n]) {
      assert [x, m] == [y, n];
      assert [x, m][0] == [y, n][0] && [x, m][1] == [y, n][1];
    }
  }

  /** With injective hashes a chain hash fixes where the chain started and every message and key in it. */
  lemma {:induction false} ChainBinds(h: Hashes, start: int, a: seq<Published>, start': int, b: seq<Published>, size: nat)
    requires Injective(h.hash2) && Injective(h.hash12) && |a| == |b| && SameSize(a, size) && SameSize(b, size)
    ensures ChainFrom(h, start, a) == ChainFrom(h, start', b) <==> start == start' && a == b
    decreases |a|
  {
    hide Injective, MessageHash;
    if a != [] && ChainFrom(h, start, a) == ChainFrom(h, start', b) {
      var n := |a| - 1;
      LinkBinds(h, ChainFrom(h, start, a[..n]), MessageHash(h, a[n]), ChainFrom(h, start', b[..n]), MessageHash(h, b[n]));
      ChainBinds(h, start, a[..n], start', b[..n], size);
      MessageHashBinds(h, a[n], b[n]);
      assert a == a[..n] + [a[n]] && b == b[..n] + [b[n]];
    }
  }

  /** How many batches a log of n messages is closed into. */
  function NumBatches(n: nat, b: nat): nat
    requires b >= 1
  {
    if n % b == 0 then n / b else n / b + 1
  }

  /** One past the last message of the first k batches. */
  function BatchEnd(n: nat, b: nat, k: nat): (e: nat)
    ensures e <= n
  {
    if k * b <= n then k * b else n
  }

  /** Every batch before the last one is full. */
  lemma FullBatches(n: nat, b: nat, k: nat)
    requires b >= 1 && k <= n / b
    ensures BatchEnd(n, b, k) == k * b <= n
    ensures k < NumBatches(n, b) ==> k * b < n
  {
    RoundDown(n, b);
    MulMonotonic(b, k, n / b);
    if k < n / b {
      MulMonotonic(b, k + 1, n / b);
      assert (k + 1) * b == k * b + b;
    }
  }

  /** The last batch ends with the log. */
  lemma LastBatch(n: nat, b: nat)
    requires b >= 1
    ensures BatchEnd(n, b, NumBatches(n, b)) == n <= NumBatches(n, b) * b
    ensures NumBatches(n, b) <= n
    ensures n >= 1 ==> NumBatches(n, b) >= 1
  {
    RoundDown(n, b);
    var q := n / b;
    assert (q + 1) * b == q * b + b;
    MulAtLeast(b, q);
  }

  /** The source's count, with a single batch also for an empty log. */
  lemma SourceBatchCount(n: nat, b: nat)
    requires b >= 1
    ensures (if n <= b then 1 else if n % b > 0 then n / b + 1 else n / b) == if n == 0 then 1 else NumBatches(n, b)
  {
    if 0 < n <= b {
      if n == b {
        DivDigit(1, 0, b);
      } else {
        DivDigit(0, n, b);
      }
    }
  }

  /** Appending a message closes a batch exactly when the count reaches a multiple of the batch size. */
  lemma NextBatch(n: nat, b: nat)
    requires b >= 1
    ensures (n + 1) / b == if (n + 1) % b == 0 then n / b + 1 else n / b
    ensures (n + 1) % b == 0 ==> (n / b + 1) * b == n + 1
  {
    var q, r := n / b, n % b;
    RoundDown(n, b);
    assert q * b + b == (q + 1) * b;
    if r + 1 < b {
      DivDigit(q, r + 1, b);
    } else {
      DivDigit(q + 1, 0, b);
    }
  }
}
