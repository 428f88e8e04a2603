/**
 The read set's fingerprint (internal/federate/federate.go): mounts as id@length:branch, sorted
 and joined. A cursor pinned to one read set must not pass for another's.
*/
module Fingerprint {
  import opened Decimal
  import opened Sorting

  /** A mount's 12-character repo id and the branch it is pinned to, any string. */
  datatype Read = Read(id: string, branch: string)

  function Part(r: Read): string {
    r.id + ("@" + (Itoa(|r.branch|) + (":" + r.branch)))
  }

  function Parts(mounts: seq<Read>): seq<string> {
    seq(|mounts|, i requires 0 <= i < |mounts| => Part(mounts[i]))
  }

  function Join(parts: seq<string>): string {
    if parts == [] then "" else if |parts| == 1 then parts[0] else parts[0] + ("," + Join(parts[1..]))
  }

  function Fingerprint(mounts: seq<Read>): string {
    Join(SortStrings(Parts(mounts)))
  }

  /** What follows the first part. */
  function After(parts: seq<string>): string {
    if |parts| <= 1 then "" else "," + Join(parts[1..])
  }

  ghost predicate Ids(mounts: seq<Read>) {
    forall i :: 0 <= i < |mounts| ==> '@' !in mounts[i].id
  }

  // Two strings cut at the same first occurrence of a character.
  lemma CutSame(a: string, b: string, c: char, x: string, y: string)
    requires c !in a && c !in b && a + ([c] + x) == b + ([c] + y)
    ensures a == b && x == y
  {
    var s := a + ([c] + x);
    assert s[|a|] == c && s[|b|] == c;
    assert (forall k :: 0 <= k < |a| ==> s[k] == a[k]) && (forall k :: 0 <= k < |b| ==> s[k] == b[k]);
    assert s[..|a|] == a && s[..|b|] == b;
    assert s[|a| + 1..] == x && s[|b| + 1..] == y;
  }

  lemma NoColon(n: nat)
    ensures ':' !in Itoa(n)
  {
  }

  // A part ends where its own length says, whatever its branch holds.
  lemma PartPrefix(r: Read, q: Read, x: string, y: string)
    requires '@' !in r.id && '@' !in q.id && Part(r) + x == Part(q) + y
    ensures r == q && x == y
  {
    var rest := Itoa(|r.branch|) + (":" + r.branch) + x;
    var rest2 := Itoa(|q.branch|) + (":" + q.branch) + y;
    assert Part(r) + x == r.id + (['@'] + rest) && Part(q) + y == q.id + (['@'] + rest2);
    CutSame(r.id, q.id, '@', rest, rest2);
    NoColon(|r.branch|);
    NoColon(|q.branch|);
    assert rest == Itoa(|r.branch|) + ([':'] + (r.branch + x)) && rest2 == Itoa(|q.branch|) + ([':'] + (q.branch + y));
    CutSame(Itoa(|r.branch|), Itoa(|q.branch|), ':', r.branch + x, q.branch + y);
    AtoiItoa(|r.branch|);
    AtoiItoa(|q.branch|);
    assert (r.branch + x)[..|r.branch|] == r.branch && (q.branch + y)[..|q.branch|] == q.branch;
    assert (r.branch + x)[|r.branch|..] == x && (q.branch + y)[|q.branch|..] == y;
  }

  lemma JoinFirst(parts: seq<string>)
    requires parts != []
    ensures Join(parts) == parts[0] + After(parts)
  {
    assert parts[0] + "" == parts[0];
  }

  lemma PartNotEmpty(r: Read)
    ensures Part(r) != ""
  {
  }

  // The joined parts can be taken apart in one way only.
  lemma {:induction false} JoinInjective(a: seq<Read>, b: seq<Read>)
    requires Ids(a) && Ids(b) && Join(Parts(a)) == Join(Parts(b))
    ensures a == b
    decreases |a|
  {
    var pa, pb := Parts(a), Parts(b);
    if a == [] || b == [] {
      if a != [] { JoinFirst(pa); PartNotEmpty(a[0]); }
      if b != [] { JoinFirst(pb); PartNotEmpty(b[0]); }
    } else {
      JoinFirst(pa);
      JoinFirst(pb);
      PartPrefix(a[0], b[0], After(pa), After(pb));
      assert pa[1..] == Parts(a[1..]) && pb[1..] == Parts(b[1..]);
      assert |a| == 1 || |b| == 1 ==> After(pa) == After(pb) == "";
      if |a| > 1 {
        assert After(pa)[1..] == Join(pa[1..]) && After(pb)[1..] == Join(pb[1..]);
        JoinInjective(a[1..], b[1..]);
      }
      assert a == [a[0]] + a[1..] && b == [b[0]] + b[1..];
    }
  }

  lemma PartInjective(r: Read, q: Read)
    requires '@' !in r.id && '@' !in q.id && Part(r) == Part(q)
    ensures r == q
  {
    assert Part(r) + "" == Part(q) + "";
    PartPrefix(r, q, "", "");
  }

  lemma {:induction false} PartsCount(s: seq<Read>, r: Read)
    requires Ids(s) && '@' !in r.id
    ensures multiset(Parts(s))[Part(r)] == multiset(s)[r]
  {
    if s != [] {
      var init, last := s[..|s| - 1], s[|s| - 1];
      PartsCount(init, r);
      assert Parts(s) == Parts(init) + [Part(last)] && s == init + [last];
      if Part(last) == Part(r) { PartInjective(last, r); }
    }
  }

  // The reads a sequence of parts came from.
  lemma {:induction false} Unparted(parts: seq<string>, from: seq<Read>) returns (s: seq<Read>)
    requires Ids(from) && forall p :: p in parts ==> exists r :: r in from && Part(r) == p
    ensures Parts(s) == parts && Ids(s)
    decreases |parts|
  {
    if parts == [] {
      s := [];
    } else {
      var init := parts[..|parts| - 1];
      assert parts[|parts| - 1] in parts && forall p :: p in init ==> p in parts;
      var r :| r in from && Part(r) == parts[|parts| - 1];
      s := Unparted(init, from);
      assert Parts(s + [r]) == Parts(s) + [Part(r)];
      s := s + [r];
    }
  }

  lemma SortedParts(a: seq<Read>) returns (s: seq<Read>)
    requires Ids(a)
    ensures Ids(s) && Parts(s) == SortStrings(Parts(a))
  {
    var parts := SortStrings(Parts(a));
    forall p | p in parts
      ensures exists r :: r in a && Part(r) == p
    {
      assert p in multiset(parts) && p in multiset(Parts(a));
      var i :| 0 <= i < |a| && Parts(a)[i] == p;
      assert a[i] in a;
    }
    s := Unparted(parts, a);
  }

  lemma PartsMultiset(a: seq<Read>, b: seq<Read>)
    requires Ids(a) && Ids(b) && multiset(Parts(a)) == multiset(Parts(b))
    ensures multiset(a) == multiset(b)
  {
    forall r
      ensures multiset(a)[r] == multiset(b)[r]
    {
      if '@' !in r.id {
        PartsCount(a, r);
        PartsCount(b, r);
      } else {
        assert r !in a && r !in b;
      }
    }
  }

  lemma PartsOfMultiset(a: seq<Read>, b: seq<Read>)
    requires Ids(a) && Ids(b) && multiset(a) == multiset(b)
    ensures multiset(Parts(a)) == multiset(Parts(b))
  {
    forall p
      ensures multiset(Parts(a))[p] == multiset(Parts(b))[p]
    {
      if i :| 0 <= i < |a| && Part(a[i]) == p {
        PartsCount(a, a[i]);
        PartsCount(b, a[i]);
      } else if j :| 0 <= j < |b| && Part(b[j]) == p {
        PartsCount(a, b[j]);
        PartsCount(b, b[j]);
      } else {
        assert p !in Parts(a) && p !in Parts(b);
      }
    }
  }

  // Two read sets have one fingerprint exactly when they hold the same mounts on the same
  // branches, however ordered: whatever the branch names contain.
  lemma FingerprintInjective(a: seq<Read>, b: seq<Read>)
    requires Ids(a) && Ids(b)
    ensures Fingerprint(a) == Fingerprint(b) <==> multiset(a) == multiset(b)
  {
    if Fingerprint(a) == Fingerprint(b) {
      var sa := SortedParts(a);
      var sb := SortedParts(b);
      JoinInjective(sa, sb);
      SortStringsCanonical(Parts(a), Parts(b));
      PartsMultiset(a, b);
    }
    if multiset(a) == multiset(b) {
      PartsOfMultiset(a, b);
      SortStringsCanonical(Parts(a), Parts(b));
    }
  }
}
