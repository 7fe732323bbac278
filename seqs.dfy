/** Sequence helpers for the array operations the handlers use (`includes`, `filter`, `Set`). */
module Seqs {

  /** No element occurs twice. */
  predicate NoDup<T(==)>(s: seq<T>) {
    forall i, j :: 0 <= i < j < |s| ==> s[i] != s[j]
  }

  /** Cutting a duplicate-free list leaves a duplicate-free tail sharing nothing with the head. */
  lemma NoDupSplit<T>(s: seq<T>, n: nat)
    requires NoDup(s) && n <= |s|
    ensures NoDup(s[n..])
    ensures forall x :: x in s[..n] ==> x !in s[n..]
  {
    forall x | x in s[..n] ensures x !in s[n..] {
      var a :| 0 <= a < n && s[..n][a] == x;
      forall b | 0 <= b < |s| - n ensures s[n..][b] != x {
        assert s[n..][b] == s[n + b] && s[a] == x;
      }
    }
    forall i, j | 0 <= i < j < |s| - n ensures s[n..][i] != s[n..][j] {
      assert s[n..][i] == s[n + i] && s[n..][j] == s[n + j];
    }
  }

  /** `s` lists the elements of `keys`, each exactly once. */
  predicate Enumerates<T(==)>(s: seq<T>, keys: set<T>) {
    NoDup(s) && (forall x :: x in s ==> x in keys) && (forall x :: x in keys ==> x in s)
  }

  /** `s.filter(y => y !== x)`: every occurrence of `x` removed, the rest in order. */
  function Without<T(==,!new)>(s: seq<T>, x: T): (r: seq<T>)
    ensures forall y :: y in r <==> y in s && y != x
    ensures |r| <= |s|
  {
    if s == [] then [] else (if s[0] == x then [] else [s[0]]) + Without(s[1..], x)
  }

  /** Filtering distributes over concatenation, so the survivors keep their relative order. */
  lemma {:induction false} WithoutAppend<T(!new)>(a: seq<T>, b: seq<T>, x: T)
    ensures Without(a + b, x) == Without(a, x) + Without(b, x)
  {
    if a == [] {
      assert a + b == b;
    } else {
      assert (a + b)[0] == a[0] && (a + b)[1..] == a[1..] + b;
      WithoutAppend(a[1..], b, x);
    }
  }

  /** Removing an absent element changes nothing. */
  lemma {:induction false} WithoutAbsent<T(!new)>(s: seq<T>, x: T)
    requires x !in s
    ensures Without(s, x) == s
  {
    if s != [] {
      WithoutAbsent(s[1..], x);
    }
  }

  /** Removing keeps a duplicate-free list duplicate-free, and removes exactly one element of it. */
  lemma {:induction false} WithoutNoDup<T(!new)>(s: seq<T>, x: T)
    requires NoDup(s)
    ensures NoDup(Without(s, x))
    ensures |Without(s, x)| == if x in s then |s| - 1 else |s|
  {
    if s != [] {
      assert NoDup(s[1..]) by {
        forall i, j | 0 <= i < j < |s[1..]| ensures s[1..][i] != s[1..][j] {
          assert s[1..][i] == s[i + 1] && s[1..][j] == s[j + 1];
        }
      }
      WithoutNoDup(s[1..], x);
      assert s[0] !in s[1..] by {
        forall k | 0 <= k < |s[1..]| ensures s[1..][k] != s[0] {
          assert s[1..][k] == s[k + 1];
        }
      }
      var tail := Without(s[1..], x);
      if s[0] != x {
        assert Without(s, x) == [s[0]] + tail;
        assert s[0] !in tail;
        forall i, j | 0 <= i < j < |[s[0]] + tail|
          ensures ([s[0]] + tail)[i] != ([s[0]] + tail)[j]
        {
          if i > 0 {
            assert ([s[0]] + tail)[i] == tail[i - 1];
          }
          assert ([s[0]] + tail)[j] == tail[j - 1];
        }
        assert x in s <==> x in s[1..];
      } else {
        assert Without(s, x) == tail;
        assert x !in s[1..];
        WithoutAbsent(s[1..], x);
      }
    }
  }

  /** Appending an element that was not there and then filtering it out gives the list back. */
  lemma AppendThenWithout<T(!new)>(s: seq<T>, x: T)
    requires x !in s
    ensures Without(s + [x], x) == s
  {
    WithoutAppend(s, [x], x);
    WithoutAbsent(s, x);
    assert Without([x], x) == [];
  }

  /** The lists of `ls`, concatenated in order. */
  function Flatten<T>(ls: seq<seq<T>>): seq<T> {
    if ls == [] then [] else ls[0] + Flatten(ls[1..])
  }

  lemma {:induction false} FlattenMember<T>(ls: seq<seq<T>>, x: T)
    ensures x in Flatten(ls) <==> exists k :: 0 <= k < |ls| && x in ls[k]
  {
    if ls != [] {
      FlattenMember(ls[1..], x);
      if x in Flatten(ls[1..]) {
        var k :| 0 <= k < |ls[1..]| && x in ls[1..][k];
        assert x in ls[k + 1];
      }
      if exists k :: 0 <= k < |ls| && x in ls[k] {
        var k :| 0 <= k < |ls| && x in ls[k];
        if k > 0 {
          assert x in ls[1..][k - 1];
        }
      }
    }
  }

  lemma {:induction false} FlattenAppend<T>(a: seq<seq<T>>, b: seq<seq<T>>)
    ensures Flatten(a + b) == Flatten(a) + Flatten(b)
  {
    if a == [] {
      assert a + b == b;
    } else {
      assert (a + b)[0] == a[0] && (a + b)[1..] == a[1..] + b;
      FlattenAppend(a[1..], b);
    }
  }

  /** The elements of `s` that belong to `sel`, in the order of `s`: a query result read off an enumeration. */
  function Keep<T(!new)>(s: seq<T>, sel: set<T>): (r: seq<T>)
    ensures forall x :: x in r <==> x in s && x in sel
    ensures |r| <= |s|
  {
    if s == [] then [] else (if s[0] in sel then [s[0]] else []) + Keep(s[1..], sel)
  }

  lemma {:induction false} KeepAppend<T(!new)>(a: seq<T>, b: seq<T>, sel: set<T>)
    ensures Keep(a + b, sel) == Keep(a, sel) + Keep(b, sel)
  {
    if a == [] {
      assert a + b == b;
    } else {
      assert (a + b)[0] == a[0] && (a + b)[1..] == a[1..] + b;
      KeepAppend(a[1..], b, sel);
    }
  }

  lemma {:induction false} KeepNoDup<T(!new)>(s: seq<T>, sel: set<T>)
    requires NoDup(s)
    ensures NoDup(Keep(s, sel))
  {
    if s != [] {
      assert NoDup(s[1..]) by {
        forall i, j | 0 <= i < j < |s[1..]| ensures s[1..][i] != s[1..][j] {
          assert s[1..][i] == s[i + 1] && s[1..][j] == s[j + 1];
        }
      }
      KeepNoDup(s[1..], sel);
      assert s[0] !in s[1..] by {
        forall k | 0 <= k < |s[1..]| ensures s[1..][k] != s[0] {
          assert s[1..][k] == s[k + 1];
        }
      }
      var tail := Keep(s[1..], sel);
      if s[0] in sel {
        assert Keep(s, sel) == [s[0]] + tail;
        forall i, j | 0 <= i < j < |[s[0]] + tail|
          ensures ([s[0]] + tail)[i] != ([s[0]] + tail)[j]
        {
          if i > 0 {
            assert ([s[0]] + tail)[i] == tail[i - 1];
          }
          assert ([s[0]] + tail)[j] == tail[j - 1];
        }
      } else {
        assert Keep(s, sel) == tail;
      }
    }
  }

  /** Keeping every element leaves the list as it was. */
  lemma {:induction false} KeepAll<T(!new)>(s: seq<T>, sel: set<T>)
    requires forall x :: x in s ==> x in sel
    ensures Keep(s, sel) == s
  {
    if s != [] {
      KeepAll(s[1..], sel);
    }
  }

  /** Deleting every key of a snapshot from a collection, one batch operation at a time. */
  method DeleteKeys<K, V>(m: map<K, V>, keys: seq<K>) returns (r: map<K, V>)
    ensures r == m - (set k | k in keys)
  {
    r := m;
    for i := 0 to |keys|
      invariant forall k :: k in r <==> k in m && k !in keys[..i]
      invariant forall k :: k in r ==> r[k] == m[k]
    {
      assert keys[..i + 1] == keys[..i] + [keys[i]];
      r := r - {keys[i]};
    }
    assert keys[..|keys|] == keys;
  }
}
