/** The LINQ and `List<T>` operations the services apply to their lists,
    stated over sequences. */
module Seqs {
  import opened Runtime

  /** `s.Where(p).ToList()`: the elements satisfying `p`, in their original order,
      each as often as it occurs in `s`. */
  function Where<T(==,!new)>(s: seq<T>, p: T -> bool): (r: seq<T>)
    ensures |r| <= |s|
    ensures forall i :: 0 <= i < |r| ==> p(r[i])
    ensures forall x :: multiset(r)[x] == if p(x) then multiset(s)[x] else 0
    ensures (forall i :: 0 <= i < |s| ==> p(s[i])) ==> r == s
  {
    if s == [] then []
    else
      assert s == [s[0]] + s[1..];
      (if p(s[0]) then [s[0]] else []) + Where(s[1..], p)
  }

  /** `r` is obtained from `s` by deleting elements, keeping the order of the rest. */
  predicate IsSubsequence<T(==,!new)>(r: seq<T>, s: seq<T>)
    decreases |s|
  {
    if r == [] then true
    else if s == [] then false
    else (r[0] == s[0] && IsSubsequence(r[1..], s[1..])) || IsSubsequence(r, s[1..])
  }

  lemma {:induction false} WhereIsSubsequence<T(!new)>(s: seq<T>, p: T -> bool)
    ensures IsSubsequence(Where(s, p), s)
    decreases |s|
  {
    if s != [] {
      WhereIsSubsequence(s[1..], p);
      var rest := Where(s[1..], p);
      if p(s[0]) {
        assert Where(s, p) == [s[0]] + rest;
        assert ([s[0]] + rest)[1..] == rest;
      } else {
        assert Where(s, p) == rest;
      }
    }
  }

  lemma {:induction false} SubsequenceMultiset<T(!new)>(r: seq<T>, s: seq<T>)
    requires IsSubsequence(r, s)
    ensures multiset(r) <= multiset(s)
    decreases |s|
  {
    if r != [] {
      assert s == [s[0]] + s[1..];
      if r[0] == s[0] && IsSubsequence(r[1..], s[1..]) {
        SubsequenceMultiset(r[1..], s[1..]);
        assert r == [r[0]] + r[1..];
      } else {
        SubsequenceMultiset(r, s[1..]);
      }
    }
  }

  /** `Where` is the only order-preserving selection from `s` that keeps every
      element satisfying `p`, with its multiplicity, and nothing else. */
  lemma {:induction false} WhereUnique<T(!new)>(s: seq<T>, p: T -> bool, r: seq<T>)
    requires IsSubsequence(r, s)
    requires forall x :: multiset(r)[x] == if p(x) then multiset(s)[x] else 0
    ensures r == Where(s, p)
    decreases |s|
  {
    if s == [] {
      assert r == [];
    } else {
      var a := s[0];
      assert s == [a] + s[1..];
      if p(a) {
        if !(r != [] && r[0] == a && IsSubsequence(r[1..], s[1..])) {
          assert IsSubsequence(r, s[1..]);
          SubsequenceMultiset(r, s[1..]);
          assert false;
        }
        assert r == [a] + r[1..];
        WhereUnique(s[1..], p, r[1..]);
      } else {
        if r != [] && r[0] == a {
          assert false;
        }
        assert IsSubsequence(r, s[1..]);
        WhereUnique(s[1..], p, r);
      }
    }
  }

  /** `s.FindIndex(p)`: the position of the first element satisfying `p`,
      the basis of `FirstOrDefault`. */
  function FirstIndex<T>(s: seq<T>, p: T -> bool): (r: Option<nat>)
    ensures r.Some? ==> r.value < |s| && p(s[r.value])
    ensures r.Some? ==> forall j :: 0 <= j < r.value ==> !p(s[j])
    ensures r.None? <==> forall j :: 0 <= j < |s| ==> !p(s[j])
  {
    if s == [] then None
    else if p(s[0]) then Some(0)
    else match FirstIndex(s[1..], p)
      case None => None
      case Some(k) => Some(k + 1)
  }

  /** `s.FirstOrDefault(p)` for reference elements: `null` when nothing matches. */
  function FirstWhere<T>(s: seq<T>, p: T -> bool): (r: Option<T>)
    ensures r.None? <==> forall j :: 0 <= j < |s| ==> !p(s[j])
    ensures r.Some? ==> exists i :: 0 <= i < |s| && s[i] == r.value && p(s[i])
                                    && forall j :: 0 <= j < i ==> !p(s[j])
  {
    match FirstIndex(s, p)
    case None => None
    case Some(i) => Some(s[i])
  }

  /** `list.RemoveAt(i)`. */
  function RemoveAt<T>(s: seq<T>, i: nat): (r: seq<T>)
    requires i < |s|
    ensures |r| == |s| - 1
    ensures forall j :: 0 <= j < i ==> r[j] == s[j]
    ensures forall j :: i <= j < |r| ==> r[j] == s[j + 1]
  {
    s[..i] + s[i + 1..]
  }

  /** `s.Max(key)`; `Max` throws on an empty sequence, so `s` is not empty here. */
  function MaxOf<T>(s: seq<T>, key: T -> int): (r: int)
    requires |s| > 0
    ensures forall i :: 0 <= i < |s| ==> key(s[i]) <= r
    ensures exists i :: 0 <= i < |s| && key(s[i]) == r
  {
    if |s| == 1 then key(s[0])
    else
      var m := MaxOf(s[1..], key);
      assert forall i :: 1 <= i < |s| ==> s[i] == s[1..][i - 1];
      if key(s[0]) >= m then key(s[0]) else m
  }

  /** No two elements of `s` carry the same key. */
  predicate DistinctKeys<T>(s: seq<T>, key: T -> int) {
    forall i, j :: 0 <= i < j < |s| ==> key(s[i]) != key(s[j])
  }

  /** The keys occurring in `s`. */
  function KeySet<T>(s: seq<T>, key: T -> int): set<int> {
    set i | 0 <= i < |s| :: key(s[i])
  }

  /** Appending an element whose key exceeds the largest key keeps the keys
      distinct and adds exactly that key. */
  lemma AppendAboveMaxKeepsDistinct<T>(s: seq<T>, x: T, key: T -> int)
    requires |s| > 0 && DistinctKeys(s, key)
    requires key(x) == MaxOf(s, key) + 1
    ensures DistinctKeys(s + [x], key)
    ensures key(x) !in KeySet(s, key)
    ensures KeySet(s + [x], key) == KeySet(s, key) + {key(x)}
  {
    var t := s + [x];
    forall k | k in KeySet(t, key) ensures k in KeySet(s, key) + {key(x)} {
      var i :| 0 <= i < |t| && key(t[i]) == k;
      if i < |s| { assert t[i] == s[i]; }
    }
    forall k | k in KeySet(s, key) ensures k in KeySet(t, key) {
      var i :| 0 <= i < |s| && key(s[i]) == k;
      assert t[i] == s[i];
    }
    assert t[|s|] == x;
  }

  /** Removing one element keeps the keys distinct and loses exactly its key. */
  lemma RemoveAtKeepsDistinct<T>(s: seq<T>, i: nat, key: T -> int)
    requires i < |s| && DistinctKeys(s, key)
    ensures DistinctKeys(RemoveAt(s, i), key)
    ensures KeySet(RemoveAt(s, i), key) == KeySet(s, key) - {key(s[i])}
  {
    var r := RemoveAt(s, i);
    forall k | k in KeySet(s, key) - {key(s[i])} ensures k in KeySet(r, key) {
      var j :| 0 <= j < |s| && key(s[j]) == k;
      if j < i { assert r[j] == s[j]; } else { assert r[j - 1] == s[j]; }
    }
  }

  /** Removing an element and appending one with the same key keeps the keys
      distinct and the set of keys unchanged. */
  lemma ReplaceKeepsDistinct<T>(s: seq<T>, i: nat, x: T, key: T -> int)
    requires i < |s| && DistinctKeys(s, key)
    requires key(x) == key(s[i])
    ensures DistinctKeys(RemoveAt(s, i) + [x], key)
    ensures KeySet(RemoveAt(s, i) + [x], key) == KeySet(s, key)
  {
    var r := RemoveAt(s, i);
    RemoveAtKeepsDistinct(s, i, key);
    var t := r + [x];
    forall k | k in KeySet(t, key) ensures k in KeySet(s, key) {
      var j :| 0 <= j < |t| && key(t[j]) == k;
      if j < |r| { assert t[j] == r[j]; assert k in KeySet(r, key); }
    }
    forall k | k in KeySet(s, key) ensures k in KeySet(t, key) {
      if k == key(x) { assert t[|r|] == x; }
      else {
        assert k in KeySet(r, key);
        var j :| 0 <= j < |r| && key(r[j]) == k;
        assert t[j] == r[j];
      }
    }
    forall a, b | 0 <= a < b < |t| ensures key(t[a]) != key(t[b]) {
      if b == |r| {
        assert t[a] == r[a] && key(r[a]) in KeySet(r, key);
      } else {
        assert t[a] == r[a] && t[b] == r[b];
      }
    }
  }
}
