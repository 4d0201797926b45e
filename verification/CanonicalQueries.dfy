/** The canonical query of a monitor and the equality that decides whether its source changed. */
module CanonicalQueries {
  import opened Basics

  datatype SellerType = Private | Company

  /** One property of the `extraParams` object; properties keep their insertion order. */
  datatype Param = Param(key: string, values: seq<string>)

  ghost predicate DistinctKeys(params: seq<Param>) {
    forall i, j | 0 <= i < j < |params| :: params[i].key != params[j].key
  }

  type ExtraParams = params: seq<Param> | DistinctKeys(params) witness []

  datatype CanonicalQuery = CanonicalQuery(
    host: string,
    category: Option<string>,
    query: Option<string>,
    region: Option<string>,
    sellerType: Option<SellerType>,
    sort: Option<string>,
    operation: Option<string>,
    pathFilters: seq<string>,
    extraParams: ExtraParams)

  // ----- the default order of `Array.prototype.sort`

  predicate Before(a: string, b: string) {
    b != [] && (a == [] || a[0] < b[0] || (a[0] == b[0] && Before(a[1..], b[1..])))
  }

  lemma {:induction false} BeforeTotal(a: string, b: string)
    ensures a == b || Before(a, b) || Before(b, a)
  {
    if a != [] && b != [] && a[0] == b[0] {
      BeforeTotal(a[1..], b[1..]);
      assert a == [a[0]] + a[1..] && b == [b[0]] + b[1..];
    }
  }

  lemma {:induction false} BeforeTransitive(a: string, b: string, c: string)
    requires Before(a, b) && Before(b, c)
    ensures Before(a, c)
  {
    if a != [] && a[0] == b[0] == c[0] {
      BeforeTransitive(a[1..], b[1..], c[1..]);
    }
  }

  lemma {:induction false} BeforeIrreflexive(a: string)
    ensures !Before(a, a)
  {
    if a != [] {
      BeforeIrreflexive(a[1..]);
    }
  }

  ghost predicate Ascending(keys: seq<string>) {
    forall i, j | 0 <= i < j < |keys| :: Before(keys[i], keys[j])
  }

  function Insert(key: string, keys: seq<string>): (r: seq<string>)
    ensures Elements(r) == Elements(keys) + {key}
    ensures |r| == |keys| + 1
  {
    if keys == [] || Before(key, keys[0]) then
      assert ([key] + keys)[0] == key;
      assert forall k | k in keys :: k in [key] + keys;
      [key] + keys
    else
      var tail := Insert(key, keys[1..]);
      assert keys == [keys[0]] + keys[1..];
      assert Elements([keys[0]] + tail) == {keys[0]} + Elements(tail) by { ElementsCons(keys[0], tail); }
      assert Elements(keys) == {keys[0]} + Elements(keys[1..]) by { ElementsCons(keys[0], keys[1..]); }
      [keys[0]] + tail
  }

  lemma ElementsCons(x: string, xs: seq<string>)
    ensures Elements([x] + xs) == {x} + Elements(xs)
  {
    assert ([x] + xs)[0] == x;
    forall y | y in xs ensures y in [x] + xs {}
  }

  function Keys(params: seq<Param>): set<string> {
    set p | p in params :: p.key
  }

  /** `Object.keys(params).sort()` */
  function SortedKeys(params: seq<Param>): (r: seq<string>)
    ensures Elements(r) == Keys(params)
    ensures |r| == |params|
  {
    if params == [] then [] else
      var rest := SortedKeys(params[1..]);
      assert params == [params[0]] + params[1..];
      assert Keys(params) == {params[0].key} + Keys(params[1..]);
      Insert(params[0].key, rest)
  }

  lemma {:induction false} InsertAscending(key: string, keys: seq<string>)
    requires Ascending(keys) && key !in keys
    ensures Ascending(Insert(key, keys))
  {
    if keys == [] {
    } else if Before(key, keys[0]) {
      forall j | 0 <= j < |keys| ensures Before(key, keys[j]) {
        if j > 0 { BeforeTransitive(key, keys[0], keys[j]); }
      }
    } else {
      BeforeTotal(key, keys[0]);
      var tail := Insert(key, keys[1..]);
      InsertAscending(key, keys[1..]);
      forall k | k in tail ensures Before(keys[0], k) {
        assert k in Elements(tail);
      }
    }
  }

  lemma {:induction false} SortedKeysAscending(params: seq<Param>)
    requires DistinctKeys(params)
    ensures Ascending(SortedKeys(params))
  {
    if params != [] {
      SortedKeysAscending(params[1..]);
      var rest := SortedKeys(params[1..]);
      assert params[0].key !in Keys(params[1..]);
      assert params[0].key !in Elements(rest);
      InsertAscending(params[0].key, rest);
    }
  }

  /** An ascending list is determined by its elements. */
  lemma {:induction false} AscendingUnique(a: seq<string>, b: seq<string>)
    requires Ascending(a) && Ascending(b) && Elements(a) == Elements(b)
    ensures a == b
  {
    if a == [] {
      NonEmpty(b);
    } else {
      assert a[0] in Elements(a);
      assert b != [] && b[0] in Elements(b);
      Smallest(a, b[0]);
      Smallest(b, a[0]);
      if Before(a[0], b[0]) && Before(b[0], a[0]) {
        BeforeTransitive(a[0], b[0], a[0]);
        BeforeIrreflexive(a[0]);
        assert false;
      }
      TailElements(a);
      TailElements(b);
      AscendingUnique(a[1..], b[1..]);
      assert a == [a[0]] + a[1..] && b == [b[0]] + b[1..];
    }
  }

  lemma NonEmpty(b: seq<string>)
    ensures b != [] ==> Elements(b) != {}
  {
    if b != [] {
      assert b[0] in Elements(b);
    }
  }

  lemma Smallest(a: seq<string>, x: string)
    requires Ascending(a) && x in a
    ensures a[0] == x || Before(a[0], x)
  {
  }

  lemma TailElements(a: seq<string>)
    requires Ascending(a) && a != []
    ensures Elements(a[1..]) == Elements(a) - {a[0]}
  {
    BeforeIrreflexive(a[0]);
    assert a == [a[0]] + a[1..];
    ElementsCons(a[0], a[1..]);
    assert a[0] !in a[1..];
  }

  // ----- equality

  function Lookup(params: seq<Param>, key: string): seq<string> {
    if params == [] then []
    else if params[0].key == key then params[0].values
    else Lookup(params[1..], key)
  }

  predicate ExtraParamsEqual(left: seq<Param>, right: seq<Param>) {
    var leftKeys := SortedKeys(left);
    leftKeys == SortedKeys(right)
    && forall i | 0 <= i < |leftKeys| :: Lookup(left, leftKeys[i]) == Lookup(right, leftKeys[i])
  }

  predicate CanonicalQueryEquals(left: CanonicalQuery, right: CanonicalQuery) {
    && left.host == right.host
    && left.category == right.category
    && left.query == right.query
    && left.region == right.region
    && left.sellerType == right.sellerType
    && left.sort == right.sort
    && left.operation == right.operation
    && left.pathFilters == right.pathFilters
    && ExtraParamsEqual(left.extraParams, right.extraParams)
  }

  /** The object as a finite map, its insertion order forgotten. */
  function ToMap(params: seq<Param>): map<string, seq<string>> {
    map key | key in Keys(params) :: Lookup(params, key)
  }

  /** Two parameter objects are equal exactly when they are the same map. */
  lemma ExtraParamsEqualIsMapEquality(left: ExtraParams, right: ExtraParams)
    ensures ExtraParamsEqual(left, right) <==> ToMap(left) == ToMap(right)
  {
    SortedKeysAscending(left);
    SortedKeysAscending(right);
    assert Elements(SortedKeys(left)) == ToMap(left).Keys && Elements(SortedKeys(right)) == ToMap(right).Keys;
    if ToMap(left) == ToMap(right) {
      AscendingUnique(SortedKeys(left), SortedKeys(right));
      forall key | key in SortedKeys(left) ensures Lookup(left, key) == Lookup(right, key) {
        assert key in Elements(SortedKeys(left));
        assert ToMap(left)[key] == ToMap(right)[key];
      }
    }
    if ExtraParamsEqual(left, right) {
      forall key | key in Keys(left) ensures Lookup(left, key) == Lookup(right, key) {
        assert key in Elements(SortedKeys(left));
      }
    }
  }

  /** The query without the insertion order of its extra parameters. */
  ghost function Meaning(query: CanonicalQuery): (CanonicalQuery, map<string, seq<string>>) {
    (query.(extraParams := []), ToMap(query.extraParams))
  }

  lemma CanonicalQueryEqualsIsMeaning(left: CanonicalQuery, right: CanonicalQuery)
    ensures CanonicalQueryEquals(left, right) <==> Meaning(left) == Meaning(right)
  {
    ExtraParamsEqualIsMapEquality(left.extraParams, right.extraParams);
  }
}
