/** The JSON-LD response tree and JavaScript object-assignment semantics for it. */
module Json {

  import opened Wrappers

  /** A JSON-LD value as the engine builds it. `JUndefined` is a property assigned `undefined`:
      the key is present on the object, and JSON serialisation leaves it out. */
  datatype Json =
    | JNull
    | JUndefined
    | JNum(n: int)
    | JStr(s: string)
    | JArr(items: seq<Json>)
    | JObj(fields: seq<(string, Json)>)

  /** The keys of an object literal, in insertion order. */
  function Keys(fields: seq<(string, Json)>): seq<string> {
    seq(|fields|, i requires 0 <= i < |fields| => fields[i].0)
  }

  predicate Distinct<T(==)>(s: seq<T>) {
    forall i, j :: 0 <= i < j < |s| ==> s[i] != s[j]
  }

  /** No key occurs twice. */
  predicate UniqueKeys(fields: seq<(string, Json)>) {
    Distinct(Keys(fields))
  }

  lemma KeysHead(fields: seq<(string, Json)>)
    requires fields != []
    ensures Keys(fields) == [fields[0].0] + Keys(fields[1..])
  {
  }

  lemma DistinctSnoc<T>(s: seq<T>, x: T)
    ensures Distinct(s) && x !in s ==> Distinct(s + [x])
  {
    if Distinct(s) && x !in s {
      forall i, j | 0 <= i < j < |s + [x]| ensures (s + [x])[i] != (s + [x])[j] {
        if j == |s| {
          assert (s + [x])[i] == s[i];
        }
      }
    }
  }

  function Get(fields: seq<(string, Json)>, k: string): Option<Json> {
    if fields == [] then None
    else if fields[0].0 == k then Some(fields[0].1)
    else Get(fields[1..], k)
  }

  /** `obj[k] = v`: an existing key keeps its position and takes the new value; a new key goes last. */
  function Put(fields: seq<(string, Json)>, k: string, v: Json): (r: seq<(string, Json)>)
    ensures Get(r, k) == Some(v)
    ensures forall k' :: k' != k ==> Get(r, k') == Get(fields, k')
    ensures k in Keys(fields) ==> Keys(r) == Keys(fields)
    ensures k !in Keys(fields) ==> Keys(r) == Keys(fields) + [k]
    ensures UniqueKeys(fields) ==> UniqueKeys(r)
  {
    DistinctSnoc(Keys(fields), k);
    if fields == [] then [(k, v)]
    else
      KeysHead(fields);
      if fields[0].0 == k then
        var r := [(k, v)] + fields[1..];
        assert r[1..] == fields[1..];
        KeysHead(r);
        r
      else
        var rest := Put(fields[1..], k, v);
        var r := [fields[0]] + rest;
        assert r[1..] == rest;
        KeysHead(r);
        r
  }

  /** A key has a value exactly when it is one of the keys. */
  lemma {:induction false} GetIffKey(fields: seq<(string, Json)>, k: string)
    ensures Get(fields, k).Some? <==> k in Keys(fields)
    decreases |fields|
  {
    if fields != [] {
      KeysHead(fields);
      GetIffKey(fields[1..], k);
    }
  }

  /** With unique keys, the value at a position is the value of its key. */
  lemma {:induction false} GetAt(fields: seq<(string, Json)>, i: nat)
    requires UniqueKeys(fields) && i < |fields|
    ensures Get(fields, fields[i].0) == Some(fields[i].1)
    decreases |fields|
  {
    if i > 0 {
      KeysHead(fields);
      assert Keys(fields)[0] != Keys(fields)[i];
      assert UniqueKeys(fields[1..]) by {
        assert forall a, b :: 0 <= a < b < |fields| - 1 ==> Keys(fields[1..])[a] == Keys(fields)[a + 1] && Keys(fields[1..])[b] == Keys(fields)[b + 1];
      }
      GetAt(fields[1..], i - 1);
    }
  }

  /** Assigning a key moves no existing key. */
  lemma PutKeepsFront(a: seq<(string, Json)>, k: string, v: Json)
    ensures |Put(a, k, v)| >= |a| && forall i :: 0 <= i < |a| ==> Put(a, k, v)[i].0 == a[i].0
  {
    var r := Put(a, k, v);
    assert |Keys(r)| == |r| && |Keys(a)| == |a|;
    forall i | 0 <= i < |a| ensures r[i].0 == a[i].0 {
      assert Keys(r)[i] == r[i].0 && Keys(a)[i] == a[i].0;
    }
  }

  /** Dropping the first field keeps the keys unique, and its key occurs no more. */
  lemma UniqueKeysTail(b: seq<(string, Json)>)
    requires UniqueKeys(b) && b != []
    ensures UniqueKeys(b[1..]) && b[0].0 !in Keys(b[1..])
  {
    KeysHead(b);
    assert forall x :: 0 <= x < |b| - 1 ==> Keys(b[1..])[x] == Keys(b)[x + 1];
    assert forall x :: 0 <= x < |b| - 1 ==> Keys(b[1..])[x] != Keys(b)[0];
  }

  /** The keys of `ks` that are not in `seen`, each once, in the order they first occur. */
  function NewKeys(seen: seq<string>, ks: seq<string>): seq<string>
    decreases |ks|
  {
    if ks == [] then []
    else if ks[0] in seen then NewKeys(seen, ks[1..])
    else [ks[0]] + NewKeys(seen + [ks[0]], ks[1..])
  }

  /** Assigning `k` onto `a` and then the keys `rest` gives the key order of assigning `k` and
      `rest` together. */
  lemma NewKeysPut(a: seq<(string, Json)>, k: string, v: Json, rest: seq<string>)
    ensures Keys(Put(a, k, v)) + NewKeys(Keys(Put(a, k, v)), rest) == Keys(a) + NewKeys(Keys(a), [k] + rest)
  {
    assert ([k] + rest)[1..] == rest;
  }

  /** `{...a, ...b}`: every field of `b`, in order, assigned onto `a`. The keys of `a` keep their
      places at the front, followed by the keys only `b` has in the order `b` first lists them;
      a key of `b` takes `b`'s value and any other key keeps `a`'s. */
  function Spread(a: seq<(string, Json)>, b: seq<(string, Json)>): (r: seq<(string, Json)>)
    ensures |r| >= |a| && forall i :: 0 <= i < |a| ==> r[i].0 == a[i].0
    ensures UniqueKeys(a) ==> UniqueKeys(r)
    ensures UniqueKeys(b) ==> forall k :: Get(r, k) == if Get(b, k).Some? then Get(b, k) else Get(a, k)
    ensures Keys(r) == Keys(a) + NewKeys(Keys(a), Keys(b))
    decreases |b|
  {
    if b == [] then a
    else
      var a1 := Put(a, b[0].0, b[0].1);
      PutKeepsFront(a, b[0].0, b[0].1);
      var r := Spread(a1, b[1..]);
      KeysHead(b);
      NewKeysPut(a, b[0].0, b[0].1, Keys(b[1..]));
      if UniqueKeys(b) then
        UniqueKeysTail(b);
        GetIffKey(b[1..], b[0].0);
        r
      else
        r
  }

  /** The fields of an object; any other value spreads as nothing. */
  function Fields(j: Json): seq<(string, Json)> {
    if j.JObj? then j.fields else []
  }
}
