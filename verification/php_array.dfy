/**
 * PHP values as the client handles them, and PHP's ordered arrays with string
 * keys: key lookup, the left-biased array union `+`, the offset read that
 * yields null for a missing key, and `isset`.
 */
module PhpArray {
  import opened Wrappers

  datatype Value =
    | Null
    | Bool(b: bool)
    | Int(i: int)
    | Str(s: string)
    | Arr(entries: seq<(string, Value)>)

  /** The entries of a PHP array, in insertion order. */
  type Entries = seq<(string, Value)>

  function Keys(e: Entries): set<string>
  {
    set p | p in e :: p.0
  }

  /** A PHP array never holds the same key twice. */
  ghost predicate UniqueKeys(e: Entries)
  {
    forall i, j | 0 <= i < j < |e| :: e[i].0 != e[j].0
  }

  /** The value stored under key k, if any (the first entry with that key). */
  function Get(e: Entries, k: string): (r: Option<Value>)
    ensures r.Some? <==> k in Keys(e)
    ensures r.Some? ==> (k, r.value) in e
    ensures UniqueKeys(e) ==> forall i | 0 <= i < |e| && e[i].0 == k :: r == Some(e[i].1)
  {
    if |e| == 0 then None
    else if e[0].0 == k then Some(e[0].1)
    else
      assert forall i | 1 <= i < |e| :: e[i] == e[1..][i - 1];
      Get(e[1..], k)
  }

  /** The entries of e whose keys are not in ks, in their original order. */
  function Drop(e: Entries, ks: set<string>): (r: Entries)
    ensures forall p :: p in r <==> p in e && p.0 !in ks
    ensures Keys(r) == Keys(e) - ks
    ensures forall k | k !in ks :: Get(r, k) == Get(e, k)
    ensures UniqueKeys(e) ==> UniqueKeys(r)
  {
    if |e| == 0 then []
    else if e[0].0 in ks then Drop(e[1..], ks)
    else [e[0]] + Drop(e[1..], ks)
  }

  lemma {:induction false} GetAppend(a: Entries, b: Entries, k: string)
    ensures Get(a + b, k) == if k in Keys(a) then Get(a, k) else Get(b, k)
    decreases |a|
  {
    if |a| == 0 {
      assert a + b == b;
    } else {
      assert (a + b)[0] == a[0];
      assert (a + b)[1..] == a[1..] + b;
      if a[0].0 != k {
        GetAppend(a[1..], b, k);
      }
    }
  }

  lemma UniqueAppend(a: Entries, b: Entries)
    requires UniqueKeys(a) && UniqueKeys(b)
    requires Keys(a) !! Keys(b)
    ensures UniqueKeys(a + b)
  {
    forall i, j | 0 <= i < j < |a + b|
      ensures (a + b)[i].0 != (a + b)[j].0
    {
      if j < |a| {
        assert (a + b)[i] == a[i] && (a + b)[j] == a[j];
      } else if |a| <= i {
        assert (a + b)[i] == b[i - |a|] && (a + b)[j] == b[j - |a|];
      } else {
        assert (a + b)[i] == a[i] && a[i] in a && a[i].0 in Keys(a);
        assert (a + b)[j] == b[j - |a|] && b[j - |a|] in b && b[j - |a|].0 in Keys(b);
      }
    }
  }

  /**
   * PHP's array union `a + b`: every entry of a in place, then the entries of
   * b whose keys a lacks. On a shared key the left operand wins.
   */
  function Union(a: Entries, b: Entries): (r: Entries)
    ensures a <= r
    ensures Keys(r) == Keys(a) + Keys(b)
    ensures forall k :: Get(r, k) == if k in Keys(a) then Get(a, k) else Get(b, k)
    ensures UniqueKeys(a) && UniqueKeys(b) ==> UniqueKeys(r)
  {
    var d := Drop(b, Keys(a));
    assert forall k :: Get(a + d, k) == if k in Keys(a) then Get(a, k) else Get(d, k) by {
      forall k { GetAppend(a, d, k); }
    }
    assert Keys(a + d) == Keys(a) + Keys(d);
    assert UniqueKeys(a) && UniqueKeys(b) ==> UniqueKeys(a + d) by {
      if UniqueKeys(a) && UniqueKeys(b) { UniqueAppend(a, d); }
    }
    a + d
  }

  /** The array as a Dafny map: the key-value view, forgetting the order. */
  function ToMap(e: Entries): (m: map<string, Value>)
    ensures m.Keys == Keys(e)
    ensures forall k | k in m :: Get(e, k) == Some(m[k])
  {
    if |e| == 0 then map[]
    else
      assert Keys(e) == {e[0].0} + Keys(e[1..]);
      ToMap(e[1..])[e[0].0 := e[0].1]
  }

  /** An array that reads like a where a has the key and like b elsewhere has the map view of b + a. */
  lemma MergeAt(u: Entries, a: Entries, b: Entries, k: string)
    requires forall k :: Get(u, k) == if k in Keys(a) then Get(a, k) else Get(b, k)
    requires k in Keys(u)
    ensures k in ToMap(b) + ToMap(a) && ToMap(u)[k] == (ToMap(b) + ToMap(a))[k]
  {
    assert Get(u, k) == Some(ToMap(u)[k]);
    if k in Keys(a) {
      assert Get(a, k) == Some(ToMap(a)[k]);
    } else {
      assert Get(b, k) == Some(ToMap(b)[k]);
    }
  }

  /** PHP's left-biased `a + b` is Dafny's right-biased map union taken the other way round. */
  lemma UnionToMap(a: Entries, b: Entries)
    ensures ToMap(Union(a, b)) == ToMap(b) + ToMap(a)
  {
    var l, r := ToMap(Union(a, b)), ToMap(b) + ToMap(a);
    assert l.Keys == Keys(a) + Keys(b) == r.Keys;
    forall k | k in l
      ensures l[k] == r[k]
    {
      MergeAt(Union(a, b), a, b, k);
    }
    MapsAgree(l, r);
  }

  lemma MapsAgree(l: map<string, Value>, r: map<string, Value>)
    requires l.Keys == r.Keys
    requires forall k | k in l :: l[k] == r[k]
    ensures l == r
  {
  }

  /**
   * `$v[$k]` as the client reads it: the stored value, or null when v is not
   * an array or has no entry for k.
   */
  function Offset(v: Value, k: string): (r: Value)
    ensures r != Null ==> v.Arr? && (k, r) in v.entries
    ensures v.Arr? && k in Keys(v.entries) ==> Get(v.entries, k) == Some(r)
  {
    if v.Arr? && Get(v.entries, k).Some? then Get(v.entries, k).value else Null
  }

  /** `isset($v[$k])`: v is an array whose entry for k exists and is not null. */
  predicate Isset(v: Value, k: string)
  {
    Offset(v, k) != Null
  }

  /** Only an array can pass `isset`, and only through a present key with a non-null value. */
  lemma IssetMeaning(v: Value, k: string)
    ensures Isset(v, k) <==> v.Arr? && k in Keys(v.entries) && Get(v.entries, k).value != Null
  {
  }
}
