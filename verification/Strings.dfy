/** Lists of strings kept without duplicates (internal/fact/strings.go). */
module Strings {

  /** The elements of s, each where it occurs first. */
  function Firsts(s: seq<string>): (r: seq<string>)
    ensures forall x :: x in r <==> x in s
    ensures forall i, j :: 0 <= i < j < |r| ==> r[i] != r[j]
  {
    if s == [] then [] else
      var r := Firsts(s[..|s| - 1]);
      var x := s[|s| - 1];
      assert s == s[..|s| - 1] + [x];
      if x in s[..|s| - 1] then r else r + [x]
  }

  lemma FirstsSnoc(s: seq<string>, x: string)
    ensures Firsts(s + [x]) == if x in s then Firsts(s) else Firsts(s) + [x]
  {
    assert (s + [x])[..|s|] == s;
  }

  // A list without duplicates is its own first occurrences.
  lemma {:induction false} FirstsOfDistinct(s: seq<string>)
    requires forall i, j :: 0 <= i < j < |s| ==> s[i] != s[j]
    ensures Firsts(s) == s
  {
    if s != [] {
      FirstsOfDistinct(s[..|s| - 1]);
      assert s == s[..|s| - 1] + [s[|s| - 1]];
    }
  }

  // First occurrences keep their order.
  lemma {:induction false} FirstsInOrder(s: seq<string>, i: nat, j: nat)
    requires i < j < |s| && s[i] !in s[..i] && s[j] !in s[..j]
    ensures exists a, b :: 0 <= a < b < |Firsts(s)| && Firsts(s)[a] == s[i] && Firsts(s)[b] == s[j]
    decreases |s|
  {
    var init := s[..|s| - 1];
    FirstsSnoc(init, s[|s| - 1]);
    assert s == init + [s[|s| - 1]];
    if j < |init| {
      assert init[..i] == s[..i] && init[..j] == s[..j];
      FirstsInOrder(init, i, j);
      var a, b :| 0 <= a < b < |Firsts(init)| && Firsts(init)[a] == s[i] && Firsts(init)[b] == s[j];
      assert Firsts(s)[a] == s[i] && Firsts(s)[b] == s[j];
    } else {
      assert init == s[..j] && s[i] == init[i] && s[i] in Firsts(init);
      var a :| 0 <= a < |Firsts(init)| && Firsts(init)[a] == s[i];
      assert Firsts(s)[a] == s[i] && Firsts(s)[|Firsts(init)|] == s[j];
    }
  }

  function AppendUnique(s: seq<string>, x: string): seq<string> {
    if x in s then s else s + [x]
  }

  method UnionStrings(a: seq<string>, b: seq<string>) returns (result: seq<string>)
    ensures result == Firsts(a + b)
  {
    var seen: set<string> := {};
    result := [];
    for i := 0 to |a|
      invariant result == Firsts(a[..i])
      invariant forall x :: x in seen <==> x in a[..i]
    {
      assert a[..i + 1] == a[..i] + [a[i]];
      FirstsSnoc(a[..i], a[i]);
      if a[i] !in seen {
        seen := seen + {a[i]};
        result := result + [a[i]];
      }
    }
    assert a[..|a|] == a && a + b[..0] == a;
    for i := 0 to |b|
      invariant result == Firsts(a + b[..i])
      invariant forall x :: x in seen <==> x in a + b[..i]
    {
      assert a + b[..i + 1] == a + b[..i] + [b[i]];
      FirstsSnoc(a + b[..i], b[i]);
      if b[i] !in seen {
        seen := seen + {b[i]};
        result := result + [b[i]];
      }
    }
    assert b[..|b|] == b;
  }
}
