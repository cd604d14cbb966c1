/**
 * The part of PHP's data model the engine relies on: dynamically typed values,
 * ordered arrays (key order is insertion order, assigning an existing key keeps
 * its position), `empty()`, `strtoupper()` and `untrailingslashit()`.
 */
module Php {
  import opened Wrappers

  /** A PHP value, as far as the engine distinguishes values. */
  datatype Value =
    | Null
    | Bool(b: bool)
    | Int(i: int)
    | Str(s: string)
    | List(items: seq<Value>)
    | Obj(className: string, id: nat)

  /** PHP's `empty()` on a value that is set. */
  predicate IsEmpty(v: Value) {
    match v
    case Null => true
    case Bool(b) => !b
    case Int(i) => i == 0
    case Str(s) => s == "" || s == "0"
    case List(items) => items == []
    case Obj(_, _) => false
  }

  predicate Distinct<T(==)>(s: seq<T>) {
    forall i, j :: 0 <= i < j < |s| ==> s[i] != s[j]
  }

  /** The elements of `s` that are not in `drop`, in their order. */
  function FilterOut<T(==)>(s: seq<T>, drop: set<T>): (r: seq<T>)
    ensures forall i :: 0 <= i < |r| ==> r[i] in s && r[i] !in drop
    ensures forall i :: 0 <= i < |s| && s[i] !in drop ==> s[i] in r
    ensures |r| <= |s|
  {
    if s == [] then []
    else (if s[0] in drop then [] else [s[0]]) + FilterOut(s[1..], drop)
  }

  lemma {:induction false} FilterOutTwice<T>(s: seq<T>, a: set<T>, b: set<T>)
    ensures FilterOut(FilterOut(s, a), b) == FilterOut(s, a + b)
  {
    if s != [] {
      FilterOutTwice(s[1..], a, b);
      var rest := FilterOut(s[1..], a);
      if s[0] in a {
        assert FilterOut(s, a) == rest;
      } else {
        var fa := FilterOut(s, a);
        assert fa == [s[0]] + rest;
        assert fa != [] && fa[0] == s[0] && fa[1..] == rest;
        assert FilterOut(fa, b) == (if s[0] in b then [] else [s[0]]) + FilterOut(rest, b);
      }
    }
  }

  lemma {:induction false} FilterOutDistinct<T>(s: seq<T>, drop: set<T>)
    requires Distinct(s)
    ensures Distinct(FilterOut(s, drop))
  {
    if s != [] {
      assert Distinct(s[1..]) by {
        forall i, j | 0 <= i < j < |s[1..]| ensures s[1..][i] != s[1..][j] {
          assert s[1..][i] == s[i + 1] && s[1..][j] == s[j + 1];
        }
      }
      FilterOutDistinct(s[1..], drop);
      assert s[0] !in s[1..] by {
        forall i | 0 <= i < |s[1..]| ensures s[1..][i] != s[0] {
          assert s[1..][i] == s[i + 1];
        }
      }
    }
  }

  // ---------------------------------------------------------------------
  // Ordered arrays
  // ---------------------------------------------------------------------

  /** A PHP array as its list of (key, value) entries in iteration order. */
  type Entries<K, V> = seq<(K, V)>

  function Keys<K(==), V>(a: Entries<K, V>): (ks: seq<K>)
    ensures |ks| == |a|
    ensures forall i :: 0 <= i < |a| ==> ks[i] == a[i].0
  {
    if a == [] then [] else [a[0].0] + Keys(a[1..])
  }

  /** `isset($a[$k])` for an array whose values are never null, or `array_key_exists`. */
  predicate HasKey<K(==), V>(a: Entries<K, V>, k: K) {
    k in Keys(a)
  }

  /** `$a[$k]`. */
  function Get<K(==), V>(a: Entries<K, V>, k: K): V
    requires HasKey(a, k)
  {
    if a[0].0 == k then a[0].1 else Get(a[1..], k)
  }

  /** `isset($a[$k]) ? $a[$k] : $d`. */
  function GetOr<K(==), V>(a: Entries<K, V>, k: K, d: V): V {
    if HasKey(a, k) then Get(a, k) else d
  }

  /** `$a[$k] = $v`: replaces the value in place, or appends a new entry. */
  function Put<K(==), V>(a: Entries<K, V>, k: K, v: V): Entries<K, V> {
    if a == [] then [(k, v)]
    else if a[0].0 == k then [(k, v)] + a[1..]
    else [a[0]] + Put(a[1..], k, v)
  }

  /** `unset($a[$k])`. */
  function Remove<K(==), V>(a: Entries<K, V>, k: K): Entries<K, V> {
    if a == [] then []
    else if a[0].0 == k then Remove(a[1..], k)
    else [a[0]] + Remove(a[1..], k)
  }

  /** `array_merge($a, $b)` for string keys: each entry of `$b` is assigned in turn. */
  function Merge<K(==), V>(a: Entries<K, V>, b: Entries<K, V>): Entries<K, V>
    decreases |b|
  {
    if b == [] then a else Merge(Put(a, b[0].0, b[0].1), b[1..])
  }

  /** `array_intersect_key($a, array_flip($ks))`: the entries of `$a` whose key is in `ks`. */
  function IntersectKeys<K(==), V>(a: Entries<K, V>, ks: seq<K>): Entries<K, V> {
    if a == [] then []
    else (if a[0].0 in ks then [a[0]] else []) + IntersectKeys(a[1..], ks)
  }

  /** Sum of `f` over the values of an array. */
  function Sum<K(==), V>(a: Entries<K, V>, f: V -> nat): nat {
    if a == [] then 0 else f(a[0].1) + Sum(a[1..], f)
  }

  lemma {:induction false} KeysPut<K, V>(a: Entries<K, V>, k: K, v: V)
    ensures Keys(Put(a, k, v)) == if HasKey(a, k) then Keys(a) else Keys(a) + [k]
  {
    if a != [] && a[0].0 != k {
      KeysPut(a[1..], k, v);
      assert Keys(a) == [a[0].0] + Keys(a[1..]);
    }
  }

  lemma {:induction false} GetPut<K, V>(a: Entries<K, V>, k: K, v: V, k': K)
    ensures HasKey(Put(a, k, v), k') <==> k' == k || HasKey(a, k')
    ensures HasKey(Put(a, k, v), k') ==> Get(Put(a, k, v), k') == if k' == k then v else Get(a, k')
  {
    KeysPut(a, k, v);
    if a != [] && a[0].0 != k {
      GetPut(a[1..], k, v, k');
    }
  }

  lemma {:induction false} PutPut<K, V>(a: Entries<K, V>, k: K, v1: V, v2: V)
    ensures Put(Put(a, k, v1), k, v2) == Put(a, k, v2)
  {
    if a != [] && a[0].0 != k {
      PutPut(a[1..], k, v1, v2);
    }
  }

  lemma {:induction false} PutEntries<K, V>(a: Entries<K, V>, k: K, v: V)
    ensures forall e :: e in Put(a, k, v) ==> e in a || e == (k, v)
  {
    if a != [] && a[0].0 != k {
      PutEntries(a[1..], k, v);
    }
  }

  lemma DistinctPut<K, V>(a: Entries<K, V>, k: K, v: V)
    requires Distinct(Keys(a))
    ensures Distinct(Keys(Put(a, k, v)))
  {
    KeysPut(a, k, v);
    if !HasKey(a, k) {
      DistinctSnoc(Keys(a), k);
    }
  }

  lemma DistinctSnoc<T>(s: seq<T>, x: T)
    requires Distinct(s) && x !in s
    ensures Distinct(s + [x])
  {
    var t := s + [x];
    forall i, j | 0 <= i < j < |t| ensures t[i] != t[j] {
      assert t[i] == s[i];
      if j < |s| {
        assert t[j] == s[j];
      } else {
        assert t[j] == x;
      }
    }
  }

  /** Replacing one value changes the sum by the difference of the two values. */
  lemma {:induction false} SumPut<K, V>(a: Entries<K, V>, k: K, v: V, f: V -> nat)
    ensures Sum(Put(a, k, v), f) + (if HasKey(a, k) then f(Get(a, k)) else 0) == Sum(a, f) + f(v)
  {
    if a != [] && a[0].0 != k {
      SumPut(a[1..], k, v, f);
      assert Keys(a) == [a[0].0] + Keys(a[1..]);
    }
  }

  lemma {:induction false} KeysRemove<K, V>(a: Entries<K, V>, k: K)
    ensures Keys(Remove(a, k)) == FilterOut(Keys(a), {k})
  {
    if a != [] {
      KeysRemove(a[1..], k);
      assert Keys(a) == [a[0].0] + Keys(a[1..]);
    }
  }

  lemma {:induction false} GetRemove<K, V>(a: Entries<K, V>, k: K, k': K)
    ensures HasKey(Remove(a, k), k') <==> k' != k && HasKey(a, k')
    ensures HasKey(Remove(a, k), k') ==> Get(Remove(a, k), k') == Get(a, k')
  {
    KeysRemove(a, k);
    if a != [] {
      GetRemove(a[1..], k, k');
    }
  }

  lemma {:induction false} RemoveEntries<K, V>(a: Entries<K, V>, k: K)
    ensures forall e :: e in Remove(a, k) ==> e in a && e.0 != k
  {
    if a != [] {
      RemoveEntries(a[1..], k);
    }
  }

  /** `$a` with the value of every key that `$b` also has taken from `$b`, in the order of `$a`. */
  function Override<K(==), V>(a: Entries<K, V>, b: Entries<K, V>): (r: Entries<K, V>)
    ensures |r| == |a|
    ensures forall i :: 0 <= i < |a| ==> r[i] == (a[i].0, GetOr(b, a[i].0, a[i].1))
  {
    seq(|a|, i requires 0 <= i < |a| => (a[i].0, GetOr(b, a[i].0, a[i].1)))
  }

  /** Assigning to a key that is present replaces its value where it stands. */
  lemma {:induction false} PutExisting<K, V>(a: Entries<K, V>, k: K, v: V)
    requires HasKey(a, k) && Distinct(Keys(a))
    ensures |Put(a, k, v)| == |a|
    ensures forall i :: 0 <= i < |a| ==> Put(a, k, v)[i] == if a[i].0 == k then (k, v) else a[i]
  {
    assert Keys(a) == [a[0].0] + Keys(a[1..]);
    if a[0].0 != k {
      assert Distinct(Keys(a[1..])) by {
        forall p, q | 0 <= p < q < |Keys(a[1..])| ensures Keys(a[1..])[p] != Keys(a[1..])[q] {
          assert Keys(a)[p + 1] != Keys(a)[q + 1];
        }
      }
      PutExisting(a[1..], k, v);
      forall i | 0 <= i < |a| ensures Put(a, k, v)[i] == if a[i].0 == k then (k, v) else a[i] {
        if i > 0 { assert a[1..][i - 1] == a[i]; }
      }
    } else {
      forall i | 1 <= i < |a| ensures a[i].0 != k {
        assert Keys(a)[0] != Keys(a)[i];
      }
    }
  }

  /**
   * `array_merge( $a, $b )` where every key of `$b` is already in `$a`: the
   * keys keep the order of `$a`, and `$b` wins where it has the key.
   */
  lemma {:induction false} MergeOverride<K, V>(a: Entries<K, V>, b: Entries<K, V>)
    requires Distinct(Keys(a)) && Distinct(Keys(b))
    requires forall i :: 0 <= i < |b| ==> HasKey(a, b[i].0)
    ensures Merge(a, b) == Override(a, b)
    decreases |b|
  {
    if b != [] {
      var a' := Put(a, b[0].0, b[0].1);
      var b' := b[1..];
      PutExisting(a, b[0].0, b[0].1);
      KeysPut(a, b[0].0, b[0].1);
      assert Keys(b) == [b[0].0] + Keys(b');
      assert Distinct(Keys(b')) by {
        forall p, q | 0 <= p < q < |Keys(b')| ensures Keys(b')[p] != Keys(b')[q] {
          assert Keys(b)[p + 1] != Keys(b)[q + 1];
        }
      }
      assert !HasKey(b', b[0].0) by {
        forall i | 0 <= i < |b'| ensures Keys(b')[i] != b[0].0 {
          assert Keys(b)[0] != Keys(b)[i + 1];
        }
      }
      forall i | 0 <= i < |b'| ensures HasKey(a', b'[i].0) {
        assert b'[i] == b[i + 1];
        assert Keys(a') == Keys(a);
      }
      MergeOverride(a', b');
      forall i | 0 <= i < |a| ensures Override(a', b')[i] == Override(a, b)[i] {
        assert a'[i].0 == a[i].0;
      }
    }
  }

  /** `unset` distributes over the two halves of an array. */
  lemma {:induction false} RemoveAppend<K, V>(a: Entries<K, V>, b: Entries<K, V>, k: K)
    ensures Remove(a + b, k) == Remove(a, k) + Remove(b, k)
  {
    if a == [] {
      assert a + b == b;
    } else {
      assert (a + b)[0] == a[0];
      assert (a + b)[1..] == a[1..] + b;
      RemoveAppend(a[1..], b, k);
    }
  }

  /** Overriding by the entries of `b` whose keys are in `ks`: an entry takes `b`'s value only for a key in `ks` that `b` holds. */
  lemma OverrideIntersectAt<K, V>(a: Entries<K, V>, b: Entries<K, V>, ks: seq<K>, i: nat)
    requires i < |a|
    ensures Override(a, IntersectKeys(b, ks))[i] ==
            (a[i].0, if a[i].0 in ks then GetOr(b, a[i].0, a[i].1) else a[i].1)
  {
    GetIntersectKeys(b, ks, a[i].0);
  }

  /** Merging in only entries whose keys `a` already holds overrides `a` in place. */
  lemma MergeIntersectOverride<K, V>(a: Entries<K, V>, b: Entries<K, V>, ks: seq<K>)
    requires Distinct(Keys(a)) && Distinct(Keys(b))
    requires forall k :: k in ks ==> k in Keys(a)
    ensures Merge(a, IntersectKeys(b, ks)) == Override(a, IntersectKeys(b, ks))
  {
    var given := IntersectKeys(b, ks);
    DistinctIntersectKeys(b, ks);
    forall i | 0 <= i < |given| ensures HasKey(a, given[i].0) {
      assert Keys(given)[i] == given[i].0;
      GetIntersectKeys(b, ks, given[i].0);
    }
    MergeOverride(a, given);
  }

  /** In an array with distinct keys, each entry is what its key reads. */
  lemma {:induction false} GetAt<K, V>(a: Entries<K, V>, i: nat)
    requires Distinct(Keys(a)) && i < |a|
    ensures HasKey(a, a[i].0) && Get(a, a[i].0) == a[i].1
  {
    assert Keys(a)[i] == a[i].0;
    if i > 0 {
      assert Keys(a) == [a[0].0] + Keys(a[1..]);
      assert Keys(a)[0] != Keys(a)[i];
      assert Distinct(Keys(a[1..])) by {
        forall p, q | 0 <= p < q < |Keys(a[1..])| ensures Keys(a[1..])[p] != Keys(a[1..])[q] {
          assert Keys(a)[p + 1] != Keys(a)[q + 1];
        }
      }
      assert a[1..][i - 1] == a[i];
      GetAt(a[1..], i - 1);
    }
  }

  lemma {:induction false} GetIntersectKeys<K, V>(a: Entries<K, V>, ks: seq<K>, k: K)
    ensures HasKey(IntersectKeys(a, ks), k) <==> HasKey(a, k) && k in ks
    ensures HasKey(IntersectKeys(a, ks), k) ==> Get(IntersectKeys(a, ks), k) == Get(a, k)
  {
    if a != [] {
      GetIntersectKeys(a[1..], ks, k);
      var rest := IntersectKeys(a[1..], ks);
      assert Keys(a) == [a[0].0] + Keys(a[1..]);
      if a[0].0 in ks {
        assert IntersectKeys(a, ks) == [a[0]] + rest;
        assert Keys([a[0]] + rest) == [a[0].0] + Keys(rest);
      } else {
        assert IntersectKeys(a, ks) == rest;
      }
    }
  }

  lemma {:induction false} DistinctIntersectKeys<K, V>(a: Entries<K, V>, ks: seq<K>)
    requires Distinct(Keys(a))
    ensures Distinct(Keys(IntersectKeys(a, ks)))
  {
    if a != [] {
      assert Keys(a) == [a[0].0] + Keys(a[1..]);
      assert Distinct(Keys(a[1..])) by {
        forall i, j | 0 <= i < j < |a[1..]| ensures Keys(a[1..])[i] != Keys(a[1..])[j] {
          assert Keys(a)[i + 1] == Keys(a[1..])[i] && Keys(a)[j + 1] == Keys(a[1..])[j];
        }
      }
      DistinctIntersectKeys(a[1..], ks);
      var rest := IntersectKeys(a[1..], ks);
      forall k | HasKey(rest, k) ensures k != a[0].0 {
        GetIntersectKeys(a[1..], ks, k);
        assert a[0].0 !in Keys(a[1..]) by {
          forall i | 0 <= i < |a[1..]| ensures Keys(a[1..])[i] != a[0].0 {
            assert Keys(a)[i + 1] == Keys(a[1..])[i] && Keys(a)[0] == a[0].0;
          }
        }
      }
      if a[0].0 in ks {
        assert IntersectKeys(a, ks) == [a[0]] + rest;
        assert Keys(IntersectKeys(a, ks)) == [a[0].0] + Keys(rest);
        assert !HasKey(rest, a[0].0);
      }
    }
  }

  /**
   * Merging arrays whose keys are distinct: a key is in the merge when it is in
   * either array, and the second array's value wins.
   */
  lemma {:induction false} GetMerge<K, V>(a: Entries<K, V>, b: Entries<K, V>, k: K)
    requires Distinct(Keys(b))
    ensures HasKey(Merge(a, b), k) <==> HasKey(a, k) || HasKey(b, k)
    ensures HasKey(Merge(a, b), k) ==>
              Get(Merge(a, b), k) == if HasKey(b, k) then Get(b, k) else Get(a, k)
    decreases |b|
  {
    if b != [] {
      var a' := Put(a, b[0].0, b[0].1);
      assert Keys(b) == [b[0].0] + Keys(b[1..]);
      assert Distinct(Keys(b[1..])) by {
        forall i, j | 0 <= i < j < |b[1..]| ensures Keys(b[1..])[i] != Keys(b[1..])[j] {
          assert Keys(b)[i + 1] == Keys(b[1..])[i] && Keys(b)[j + 1] == Keys(b[1..])[j];
        }
      }
      assert b[0].0 !in Keys(b[1..]) by {
        forall i | 0 <= i < |b[1..]| ensures Keys(b[1..])[i] != b[0].0 {
          assert Keys(b)[i + 1] == Keys(b[1..])[i] && Keys(b)[0] == b[0].0;
        }
      }
      GetMerge(a', b[1..], k);
      GetPut(a, b[0].0, b[0].1, k);
    }
  }

  /** Merging keys that are all present already keeps the key order. */
  lemma {:induction false} KeysMerge<K, V>(a: Entries<K, V>, b: Entries<K, V>)
    requires forall i :: 0 <= i < |b| ==> HasKey(a, b[i].0)
    ensures Keys(Merge(a, b)) == Keys(a)
    decreases |b|
  {
    if b != [] {
      var a' := Put(a, b[0].0, b[0].1);
      KeysPut(a, b[0].0, b[0].1);
      forall i | 0 <= i < |b[1..]| ensures HasKey(a', b[1..][i].0) {
        assert b[1..][i] == b[i + 1];
      }
      KeysMerge(a', b[1..]);
    }
  }

  // ---------------------------------------------------------------------
  // Strings
  // ---------------------------------------------------------------------

  /** `strtoupper` on one character: ASCII letters only, as in the "C" locale. */
  function ToUpperChar(c: char): char {
    if 'a' <= c <= 'z' then (c as int - 32) as char else c
  }

  function StrToUpper(s: string): string {
    seq(|s|, i requires 0 <= i < |s| => ToUpperChar(s[i]))
  }

  predicate IsSlash(c: char) {
    c == '/' || c == '\\'
  }

  /** `untrailingslashit`: strips every trailing forward and backward slash. */
  function Untrailingslashit(s: string): (r: string)
    ensures r <= s
    ensures r == [] || !IsSlash(r[|r| - 1])
    ensures forall i :: |r| <= i < |s| ==> IsSlash(s[i])
  {
    if s != [] && IsSlash(s[|s| - 1]) then Untrailingslashit(s[..|s| - 1]) else s
  }

  /**
   * The first index holding `x`, or none: `array_search( $x, $s, true )` on a
   * list, and `strpos` for a one-character needle on a string.
   */
  function IndexOf<T(==)>(s: seq<T>, x: T): (r: Option<nat>)
    ensures r.None? <==> x !in s
    ensures r.Some? ==> r.value < |s| && s[r.value] == x && x !in s[..r.value]
  {
    if s == [] then None
    else if s[0] == x then Some(0)
    else match IndexOf(s[1..], x)
      case None => None
      case Some(i) =>
        assert s[1..][..i] == s[1..i + 1];
        assert s[..i + 1] == [s[0]] + s[1..i + 1];
        Some(i + 1)
  }

  /** A prefix one longer is the shorter prefix plus the next element. */
  lemma SliceSnoc<T>(s: seq<T>, i: nat)
    requires i < |s|
    ensures s[..i + 1] == s[..i] + [s[i]]
  {
  }
}
