/** Sorting by a strict order, as the standard library's sort does it: what comes out is sorted, a
    permutation, and, when no two elements tie, the only such list. */
module Sorting {

  /** A strict order. */
  ghost predicate Strict<T(!new)>(less: (T, T) -> bool) {
    && (forall a :: !less(a, a))
    && (forall a, b, c :: less(a, b) && less(b, c) ==> less(a, c))
  }

  /** A strict order in which only equals tie. */
  ghost predicate Total<T(!new)>(less: (T, T) -> bool) {
    Strict(less) && forall a, b :: less(a, b) || less(b, a) || a == b
  }

  ghost predicate Sorted<T>(s: seq<T>, less: (T, T) -> bool) {
    forall i, j :: 0 <= i < j < |s| ==> !less(s[j], s[i])
  }

  // Puts x before the first element it is less than, that is after all it ties with.
  function Insert<T>(x: T, s: seq<T>, less: (T, T) -> bool): (r: seq<T>)
    ensures multiset(r) == multiset(s) + multiset{x}
  {
    if s == [] then [x]
    else if less(x, s[0]) then
      assert s == [s[0]] + s[1..];
      [x] + s
    else
      assert s == [s[0]] + s[1..];
      [s[0]] + Insert(x, s[1..], less)
  }

  function Sort<T>(s: seq<T>, less: (T, T) -> bool): (r: seq<T>)
    ensures multiset(r) == multiset(s)
  {
    if s == [] then [] else
      assert s == s[..|s| - 1] + [s[|s| - 1]];
      Insert(s[|s| - 1], Sort(s[..|s| - 1], less), less)
  }

  lemma {:induction false} InsertKeeps<T(!new)>(x: T, s: seq<T>, less: (T, T) -> bool)
    requires Total(less) && Sorted(s, less)
    ensures Sorted(Insert(x, s, less), less)
  {
    if s != [] && !less(x, s[0]) {
      InsertKeeps(x, s[1..], less);
      var rest := Insert(x, s[1..], less);
      forall k | 0 <= k < |rest|
        ensures !less(rest[k], s[0])
      {
        assert rest[k] in multiset(rest);
        assert rest[k] == x || rest[k] in s[1..];
        if rest[k] in s[1..] {
          var i :| 0 <= i < |s[1..]| && s[1..][i] == rest[k];
          assert s[i + 1] == rest[k];
        }
      }
    } else if s != [] {
      forall k | 0 <= k < |s|
        ensures !less(s[k], x)
      {
        assert k > 0 ==> !less(s[k], s[0]);
        assert less(x, s[0]);
      }
    }
  }

  lemma {:induction false} SortSorts<T(!new)>(s: seq<T>, less: (T, T) -> bool)
    requires Total(less)
    ensures Sorted(Sort(s, less), less)
  {
    if s != [] {
      SortSorts(s[..|s| - 1], less);
      InsertKeeps(s[|s| - 1], Sort(s[..|s| - 1], less), less);
    }
  }

  lemma HeadsAgree<T(!new)>(a: seq<T>, b: seq<T>, less: (T, T) -> bool)
    requires Total(less) && Sorted(a, less) && Sorted(b, less) && multiset(a) == multiset(b) && a != []
    ensures b != [] && a[0] == b[0]
  {
    assert a[0] in multiset(a);
    assert a[0] in multiset(b);
    var j :| 0 <= j < |b| && b[j] == a[0];
    assert b[0] in multiset(b);
    assert b[0] in multiset(a);
    var i :| 0 <= i < |a| && a[i] == b[0];
    assert i > 0 ==> !less(a[i], a[0]);
    assert j > 0 ==> !less(b[j], b[0]);
  }

  lemma TailMultiset<T>(a: seq<T>)
    requires a != []
    ensures multiset(a[1..]) == multiset(a) - multiset{a[0]}
  {
    assert a == [a[0]] + a[1..];
  }

  // With no ties there is one sorted list of given elements.
  lemma {:induction false} SortedUnique<T(!new)>(a: seq<T>, b: seq<T>, less: (T, T) -> bool)
    requires Total(less) && Sorted(a, less) && Sorted(b, less) && multiset(a) == multiset(b)
    ensures a == b
    decreases |a|
  {
    if a == [] {
      assert |multiset(b)| == |multiset(a)|;
    } else {
      HeadsAgree(a, b, less);
      TailMultiset(a);
      TailMultiset(b);
      hide Total;
      SortedUnique(a[1..], b[1..], less);
      assert a == [a[0]] + a[1..] && b == [b[0]] + b[1..];
    }
  }

  // ---------- strings ----------

  /** Lexicographic order. */
  predicate Before(s: string, t: string) {
    if t == "" then false
    else if s == "" then true
    else s[0] < t[0] || (s[0] == t[0] && Before(s[1..], t[1..]))
  }

  /** s and t agree up to i, where s ends or has the smaller character. */
  ghost predicate DiffersAt(s: string, t: string, i: nat) {
    i <= |s| && i < |t| && s[..i] == t[..i] && (i == |s| || s[i] < t[i])
  }

  // The order is that of the first difference.
  lemma {:induction false} BeforeExactly(s: string, t: string)
    ensures Before(s, t) <==> exists i: nat :: DiffersAt(s, t, i)
    decreases |s|
  {
    if s == "" || t == "" || s[0] != t[0] {
      if t != "" && Before(s, t) { assert DiffersAt(s, t, 0); }
    } else {
      BeforeExactly(s[1..], t[1..]);
      if i: nat :| DiffersAt(s[1..], t[1..], i) {
        assert s[..i + 1] == [s[0]] + s[1..][..i] && t[..i + 1] == [t[0]] + t[1..][..i];
        assert DiffersAt(s, t, i + 1);
      }
      if i: nat :| DiffersAt(s, t, i) {
        assert i > 0;
        assert s[1..][..i - 1] == s[..i][1..] && t[1..][..i - 1] == t[..i][1..];
        assert DiffersAt(s[1..], t[1..], i - 1);
      }
    }
  }

  lemma {:induction false} BeforeIrreflexive(s: string)
    ensures !Before(s, s)
  {
    if s != "" { BeforeIrreflexive(s[1..]); }
  }

  lemma {:induction false} BeforeTransitive(s: string, t: string, u: string)
    requires Before(s, t) && Before(t, u)
    ensures Before(s, u)
  {
    if s != "" && s[0] == t[0] == u[0] { BeforeTransitive(s[1..], t[1..], u[1..]); }
  }

  lemma {:induction false} BeforeTotal(s: string, t: string)
    ensures Before(s, t) || Before(t, s) || s == t
  {
    if s != "" && t != "" && s[0] == t[0] {
      BeforeTotal(s[1..], t[1..]);
      assert s == [s[0]] + s[1..] && t == [t[0]] + t[1..];
    }
  }

  lemma StringsTotal()
    ensures Total((s: string, t: string) => Before(s, t))
  {
    var less := (s: string, t: string) => Before(s, t);
    forall s: string
      ensures !less(s, s)
    {
      BeforeIrreflexive(s);
    }
    forall s: string, t: string, u: string | less(s, t) && less(t, u)
      ensures less(s, u)
    {
      BeforeTransitive(s, t, u);
    }
    forall s: string, t: string
      ensures less(s, t) || less(t, s) || s == t
    {
      BeforeTotal(s, t);
    }
  }

  function SortStrings(s: seq<string>): (r: seq<string>)
    ensures multiset(r) == multiset(s)
  {
    Sort(s, (a: string, b: string) => Before(a, b))
  }

  // Sorted strings depend only on which strings there are, and how many of each.
  lemma SortStringsCanonical(s: seq<string>, t: seq<string>)
    ensures SortStrings(s) == SortStrings(t) <==> multiset(s) == multiset(t)
  {
    var less := (a: string, b: string) => Before(a, b);
    StringsTotal();
    SortSorts(s, less);
    SortSorts(t, less);
    assert SortStrings(s) == Sort(s, less) && SortStrings(t) == Sort(t, less);
    if multiset(s) == multiset(t) {
      SortedUnique(SortStrings(s), SortStrings(t), less);
    }
  }

  // The members of a set in order.
  method SortedKeys(keys: set<string>) returns (s: seq<string>)
    ensures forall k :: k in s <==> k in keys
    ensures forall i, j :: 0 <= i < j < |s| ==> s[i] != s[j] && Before(s[i], s[j])
  {
    var rest := keys;
    s := [];
    while rest != {}
      invariant rest <= keys && multiset(s) == multiset(keys - rest)
      decreases |rest|
    {
      var k :| k in rest;
      assert keys - (rest - {k}) == (keys - rest) + {k};
      s := s + [k];
      rest := rest - {k};
    }
    assert keys - rest == keys;
    s := SortStrings(s);
    StringsSorted(s, keys);
  }

  lemma StringsSorted(s: seq<string>, keys: set<string>)
    requires multiset(s) == multiset(keys) && exists t :: s == SortStrings(t)
    ensures forall k :: k in s <==> k in keys
    ensures forall i, j :: 0 <= i < j < |s| ==> s[i] != s[j] && Before(s[i], s[j])
  {
    var less := (a: string, b: string) => Before(a, b);
    var t :| s == SortStrings(t);
    StringsTotal();
    SortSorts(t, less);
    assert s == Sort(t, less);
    forall k
      ensures k in s <==> k in keys
    {
      assert k in multiset(s) <==> k in multiset(keys);
    }
    forall i, j | 0 <= i < j < |s|
      ensures s[i] != s[j] && Before(s[i], s[j])
    {
      SetNoRepeat(s, keys, i, j);
      assert !less(s[j], s[i]);
      BeforeTotal(s[i], s[j]);
    }
  }

  lemma SetNoRepeat(s: seq<string>, keys: set<string>, i: nat, j: nat)
    requires multiset(s) == multiset(keys) && i < j < |s|
    ensures s[i] != s[j]
  {
    assert s == s[..j] + s[j..];
    assert s[..j][i] == s[i] && s[j..][0] == s[j];
    assert s[i] in multiset(s[..j]) && s[j] in multiset(s[j..]);
    assert multiset(s)[s[i]] == multiset(keys)[s[i]] <= 1;
  }
}
