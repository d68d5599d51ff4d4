/** deepEqual of apps/backend/src/eligibility/zkpassport.ts, on the values that JSON text can hold. */
module JsonEquality {
  import opened Nullifiers

  datatype Json =
    | Null
    | Bool(value: bool)
    | Number(number: int)
    | Text(text: string)
    | List(items: seq<Json>)
    | Object(fields: seq<Field>)

  datatype Field = Field(key: string, content: Json)

  /** `typeof` gives "object", and it is not null. */
  predicate HasKeys(a: Json) { a.List? || a.Object? }

  /** Object.keys: the indexes of an array, the keys of an object in the order they were set. */
  function Keys(a: Json): (keys: seq<string>)
    requires HasKeys(a)
    ensures |keys| == if a.List? then |a.items| else |a.fields|
  {
    match a
    case List(items) => seq(|items|, i requires 0 <= i < |items| => DecimalString(i))
    case Object(fields) => seq(|fields|, i requires 0 <= i < |fields| => fields[i].key)
  }

  /** The value under the i-th key. */
  function ValueAt(a: Json, i: nat): (v: Json)
    requires HasKeys(a) && i < |Keys(a)|
    ensures v < a
  {
    if a.List? then a.items[i] else assert a.fields[i] < a; a.fields[i].content
  }

  predicate Unique(keys: seq<string>) { forall i, j :: 0 <= i < j < |keys| ==> keys[i] != keys[j] }

  /** No object has a key twice. */
  predicate WellFormed(a: Json)
    decreases a
  {
    HasKeys(a) ==> Unique(Keys(a)) && forall i :: 0 <= i < |Keys(a)| ==> WellFormed(ValueAt(a, i))
  }

  type Parsed = a: Json | WellFormed(a) witness Null

  function Position(keys: seq<string>, k: string): (i: nat)
    requires k in keys
    ensures i < |keys| && keys[i] == k
  {
    if keys[0] == k then 0 else 1 + Position(keys[1..], k)
  }

  /** a[k]. */
  function Get(a: Json, k: string): (v: Json)
    requires HasKeys(a) && k in Keys(a)
    ensures v < a
  {
    ValueAt(a, Position(Keys(a), k))
  }

  /** Two sorted lists of keys are the same when each key is there as often. */
  predicate DeepEqual(a: Json, b: Json)
    decreases a
  {
    a == b
    || (HasKeys(a) && HasKeys(b) && multiset(Keys(a)) == multiset(Keys(b))
        && forall k :: k in Keys(a) ==> k in Keys(b) && DeepEqual(Get(a, k), Get(b, k)))
  }

  // ----- what it compares

  /** A value with arrays read as objects keyed by the index, and the order of the keys forgotten. */
  datatype Tree = Leaf(value: Json) | Node(children: map<string, Tree>)

  ghost function AsTree(a: Json): Tree
    decreases a, 1
  {
    if HasKeys(a) then Node(Children(a)) else Leaf(a)
  }

  ghost function Children(a: Json): map<string, Tree>
    requires HasKeys(a)
    decreases a, 0
  {
    map k | k in Keys(a) :: AsTree(Get(a, k))
  }

  lemma {:induction false} UniqueOnce(keys: seq<string>, k: string)
    requires Unique(keys)
    ensures multiset(keys)[k] == if k in keys then 1 else 0
  {
    if keys != [] {
      assert keys == [keys[0]] + keys[1..];
      assert forall i :: 0 < i < |keys| ==> keys[1..][i - 1] == keys[i];
      UniqueOnce(keys[1..], k);
    }
  }

  lemma SameKeys(xs: seq<string>, ys: seq<string>)
    requires Unique(xs) && Unique(ys)
    ensures multiset(xs) == multiset(ys) <==> forall k :: k in xs <==> k in ys
  {
    if forall k :: k in xs <==> k in ys {
      forall k
        ensures multiset(xs)[k] == multiset(ys)[k]
      {
        UniqueOnce(xs, k);
        UniqueOnce(ys, k);
      }
    } else {
      assert forall k :: k in xs <==> k in multiset(xs);
      assert forall k :: k in ys <==> k in multiset(ys);
    }
  }

  /** Two values pass exactly when they are the same tree: the same up to the order of keys, and up to arrays and objects keyed by index. */
  lemma {:induction false} DeepEqualIff(a: Json, b: Json)
    requires WellFormed(a) && WellFormed(b)
    ensures DeepEqual(a, b) <==> AsTree(a) == AsTree(b)
    decreases a
  {
    if a != b && HasKeys(a) && HasKeys(b) {
      SameKeys(Keys(a), Keys(b));
      forall k | k in Keys(a) && k in Keys(b)
        ensures DeepEqual(Get(a, k), Get(b, k)) <==> AsTree(Get(a, k)) == AsTree(Get(b, k))
      {
        DeepEqualIff(Get(a, k), Get(b, k));
      }
      SameChildrenIff(a, b);
    }
  }

  lemma SameChildrenIff(a: Json, b: Json)
    requires HasKeys(a) && HasKeys(b)
    ensures AsTree(a) == AsTree(b) <==>
              && (forall k :: k in Keys(a) <==> k in Keys(b))
              && forall k :: k in Keys(a) && k in Keys(b) ==> AsTree(Get(a, k)) == AsTree(Get(b, k))
  {
    hide Keys, Get;
    NodesOf(a);
    NodesOf(b);
    var x, y := Children(a), Children(b);
    if (forall k :: k in Keys(a) <==> k in Keys(b))
       && forall k :: k in Keys(a) && k in Keys(b) ==> AsTree(Get(a, k)) == AsTree(Get(b, k)) {
      assert x == y;
    }
    if x == y {
      forall k
        ensures k in Keys(a) <==> k in Keys(b)
      {
        assert k in x <==> k in y;
      }
    }
  }

  lemma NodesOf(a: Json)
    requires HasKeys(a)
    ensures AsTree(a) == Node(Children(a))
    ensures forall k :: k in Keys(a) <==> k in Children(a)
    ensures forall k :: k in Keys(a) ==> Children(a)[k] == AsTree(Get(a, k))
  {
  }

  /** So an array passes for an object that is not one. */
  lemma ListPassesForObject(item: Json)
    requires WellFormed(item)
    ensures WellFormed(List([item])) && WellFormed(Object([Field("0", item)]))
    ensures DeepEqual(List([item]), Object([Field("0", item)])) && List([item]) != Object([Field("0", item)])
  {
    var a, b := List([item]), Object([Field("0", item)]);
    assert Keys(a) == ["0"] == Keys(b);
    assert Get(a, "0") == item == Get(b, "0");
  }
}
