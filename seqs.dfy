/** Sequence operations shared by the pages: `Array.prototype.filter`, the
    order-preserving subsequence relation, and the add-or-remove toggle that
    both the tag selection (Home) and the event subscriptions (Eventos) use. */
module Seqs {

  /** `s.filter(p)`. */
  function Filter<T(!new)>(s: seq<T>, p: T -> bool): (r: seq<T>)
    ensures |r| <= |s|
    ensures forall x :: x in r <==> x in s && p(x)
  {
    if s == [] then [] else if p(s[0]) then [s[0]] + Filter(s[1..], p) else Filter(s[1..], p)
  }

  /** Every element that passes is kept as many times as it occurs, and every
      other element is dropped. */
  lemma {:induction false} FilterCount<T(!new)>(s: seq<T>, p: T -> bool, x: T)
    ensures multiset(Filter(s, p))[x] == if p(x) then multiset(s)[x] else 0
  {
    if s != [] {
      assert s == [s[0]] + s[1..];
      FilterCount(s[1..], p, x);
    }
  }

  lemma FilterCons<T(!new)>(x: T, s: seq<T>, p: T -> bool)
    ensures Filter([x] + s, p) == if p(x) then [x] + Filter(s, p) else Filter(s, p)
  {
    assert ([x] + s)[1..] == s;
  }

  lemma {:induction false} FilterConcat<T(!new)>(a: seq<T>, b: seq<T>, p: T -> bool)
    ensures Filter(a + b, p) == Filter(a, p) + Filter(b, p)
  {
    if a != [] {
      var x, rest := a[0], a[1..];
      assert a + b == [x] + (rest + b);
      assert a == [x] + rest;
      FilterCons(x, rest + b, p);
      FilterCons(x, rest, p);
      FilterConcat(rest, b, p);
      if p(x) {
        assert [x] + (Filter(rest, p) + Filter(b, p)) == ([x] + Filter(rest, p)) + Filter(b, p);
      }
    } else {
      assert a + b == b;
    }
  }

  /** Filtering keeps everything when every element passes. */
  lemma {:induction false} FilterKeepsAll<T(!new)>(s: seq<T>, p: T -> bool)
    requires forall i :: 0 <= i < |s| ==> p(s[i])
    ensures Filter(s, p) == s
  {
    if s != [] {
      FilterKeepsAll(s[1..], p);
    }
  }

  /** `a` is `b` with some elements left out, order kept. */
  predicate IsSubsequence<T(==,!new)>(a: seq<T>, b: seq<T>)
    decreases |b|
  {
    if a == [] then true
    else if b == [] then false
    else (a[0] == b[0] && IsSubsequence(a[1..], b[1..])) || IsSubsequence(a, b[1..])
  }

  lemma SubsequenceOfCons<T(!new)>(a: seq<T>, x: T, b: seq<T>)
    requires IsSubsequence(a, b)
    ensures IsSubsequence(a, [x] + b)
  {
    assert ([x] + b)[1..] == b;
  }

  /** A filtered sequence is a subsequence of its input. */
  lemma {:induction false} FilterIsSubsequence<T(!new)>(s: seq<T>, p: T -> bool)
    ensures IsSubsequence(Filter(s, p), s)
  {
    if s != [] {
      FilterIsSubsequence(s[1..], p);
      if p(s[0]) {
        assert ([s[0]] + Filter(s[1..], p))[1..] == Filter(s[1..], p);
      } else {
        assert s == [s[0]] + s[1..];
        SubsequenceOfCons(Filter(s[1..], p), s[0], s[1..]);
      }
    }
  }

  /** Filtering by a stronger condition yields a subsequence of filtering by a
      weaker one. */
  lemma {:induction false} FilterMonotone<T(!new)>(s: seq<T>, p: T -> bool, q: T -> bool)
    requires forall x :: p(x) ==> q(x)
    ensures IsSubsequence(Filter(s, p), Filter(s, q))
  {
    if s != [] {
      FilterMonotone(s[1..], p, q);
      var fp, fq := Filter(s[1..], p), Filter(s[1..], q);
      if p(s[0]) {
        assert ([s[0]] + fp)[1..] == fp;
        assert ([s[0]] + fq)[1..] == fq;
      } else if q(s[0]) {
        SubsequenceOfCons(fp, s[0], fq);
      }
    }
  }

  /** The elements that differ from `x`, order kept: `s.filter(y => y !== x)`. */
  function RemoveAll<T(==,!new)>(s: seq<T>, x: T): (r: seq<T>)
    ensures x !in r
    ensures forall y :: y != x ==> (y in r <==> y in s)
  {
    Filter(s, Differs(x))
  }

  function Differs<T(==,!new)>(x: T): T -> bool
  {
    y => y != x
  }

  predicate NoDuplicates<T(==,!new)>(s: seq<T>)
  {
    forall i, j :: 0 <= i < j < |s| ==> s[i] != s[j]
  }

  /** Removing from a duplicate-free sequence leaves one. */
  lemma {:induction false} FilterNoDuplicates<T(!new)>(s: seq<T>, p: T -> bool)
    requires NoDuplicates(s)
    ensures NoDuplicates(Filter(s, p))
  {
    if s != [] {
      assert NoDuplicates(s[1..]) by {
        forall i, j | 0 <= i < j < |s| - 1 ensures s[1..][i] != s[1..][j] {
          assert s[1..][i] == s[i + 1] && s[1..][j] == s[j + 1];
        }
      }
      FilterNoDuplicates(s[1..], p);
      var rest := Filter(s[1..], p);
      if p(s[0]) {
        assert s[0] !in s[1..] by {
          forall k | 0 <= k < |s| - 1 ensures s[1..][k] != s[0] {
            assert s[1..][k] == s[k + 1];
          }
        }
        var r := [s[0]] + rest;
        forall i, j | 0 <= i < j < |r| ensures r[i] != r[j] {
          if i == 0 {
            assert r[j] == rest[j - 1];
            assert r[j] in rest;
          } else {
            assert r[i] == rest[i - 1] && r[j] == rest[j - 1];
          }
        }
      }
    }
  }

  /** `s.includes(x) ? s.filter(y => y !== x) : [...s, x]`. */
  function Toggle<T(==,!new)>(s: seq<T>, x: T): seq<T>
  {
    if x in s then RemoveAll(s, x) else s + [x]
  }

  /** Toggling flips the membership of the toggled element and of no other. */
  lemma ToggleMembership<T(!new)>(s: seq<T>, x: T)
    ensures x in Toggle(s, x) <==> x !in s
    ensures forall y :: y != x ==> (y in Toggle(s, x) <==> y in s)
  {
  }

  /** Toggling an absent element appends it at the end; toggling a present one
      removes every occurrence and keeps the order of the rest. */
  lemma ToggleShape<T(!new)>(s: seq<T>, x: T)
    ensures x !in s ==> Toggle(s, x) == s + [x]
    ensures x in s ==> IsSubsequence(Toggle(s, x), s) && |Toggle(s, x)| < |s|
  {
    if x in s {
      FilterIsSubsequence(s, Differs(x));
      var r := Toggle(s, x);
      assert |r| <= |s|;
      if |r| == |s| {
        FilterLengthEqual(s, Differs(x));
        assert false;
      }
    }
  }

  /** A filter that keeps the length keeps every element. */
  lemma {:induction false} FilterLengthEqual<T(!new)>(s: seq<T>, p: T -> bool)
    requires |Filter(s, p)| == |s|
    ensures forall i :: 0 <= i < |s| ==> p(s[i])
  {
    if s != [] {
      if !p(s[0]) {
        assert false;
      }
      FilterLengthEqual(s[1..], p);
      forall i | 0 < i < |s| ensures p(s[i]) {
        assert s[i] == s[1..][i - 1];
      }
    }
  }

  /** Toggling never creates duplicates. */
  lemma ToggleNoDuplicates<T(!new)>(s: seq<T>, x: T)
    requires NoDuplicates(s)
    ensures NoDuplicates(Toggle(s, x))
  {
    if x in s {
      FilterNoDuplicates(s, Differs(x));
    } else {
      var r := s + [x];
      forall i, j | 0 <= i < j < |r| ensures r[i] != r[j] {
        if j == |s| {
          assert r[i] == s[i];
        } else {
          assert r[i] == s[i] && r[j] == s[j];
        }
      }
    }
  }

  /** Toggling the same element twice restores membership exactly. */
  lemma ToggleTwiceSameMembers<T(!new)>(s: seq<T>, x: T)
    ensures forall y :: y in Toggle(Toggle(s, x), x) <==> y in s
  {
    ToggleMembership(s, x);
    ToggleMembership(Toggle(s, x), x);
  }

  /** Toggling the same element twice restores a duplicate-free sequence
      exactly when the element was absent or was the last one. */
  lemma ToggleTwiceRestores<T(!new)>(s: seq<T>, x: T)
    requires NoDuplicates(s)
    ensures Toggle(Toggle(s, x), x) == s <==> x !in s || s[|s| - 1] == x
  {
    var t := Toggle(s, x);
    if x !in s {
      assert t == s + [x];
      assert x in t;
      var u := RemoveAll(t, x);
      FilterConcat(s, [x], Differs(x));
      FilterKeepsAll(s, Differs(x));
      assert Filter([x], Differs(x)) == [];
      assert u == s;
    } else {
      assert x !in t;
      assert Toggle(t, x) == t + [x];
      if s[|s| - 1] == x {
        var init := s[..|s| - 1];
        assert s == init + [x];
        assert forall i :: 0 <= i < |init| ==> Differs(x)(init[i]) by {
          forall i | 0 <= i < |init| ensures init[i] != x {
            assert init[i] == s[i] && s[|s| - 1] == x;
          }
        }
        FilterConcat(init, [x], Differs(x));
        FilterKeepsAll(init, Differs(x));
        assert Filter([x], Differs(x)) == [];
        assert t == init;
      } else {
        assert (t + [x])[|t|] == x;
      }
    }
  }
}
