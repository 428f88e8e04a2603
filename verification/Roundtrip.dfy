/**
 Taking a concept document's generated sections off again (internal/okf/roundtrip.go). They are
 peeled from the end, in the reverse of the order they were appended in (internal/okf/concept.go).
*/
module Roundtrip {

  /** The sections a concept document may end with, in this order. */
  const SECTIONS: nat := 4

  function Heading(i: nat): string
    requires i < SECTIONS
  {
    if i == 0 then "\n# Related\n" else if i == 1 then "\n# Citations\n" else if i == 2 then "\n# Cited by\n" else "\n# History\n"
  }

  /** What opens a top-level heading. */
  const TOP := "\n# "

  // ---------- searching ----------

  predicate Occurs(s: string, h: string, i: nat) {
    i + |h| <= |s| && s[i..i + |h|] == h
  }

  ghost predicate Contains(s: string, h: string) {
    exists i :: Occurs(s, h, i)
  }

  /** Where h last occurs in s, looking no further than i; -1 when nowhere. */
  function LastFrom(s: string, h: string, i: nat): (r: int)
    ensures -1 <= r <= i
    ensures r >= 0 ==> Occurs(s, h, r)
    ensures forall j: nat :: r < j <= i ==> !Occurs(s, h, j)
  {
    if Occurs(s, h, i) then i else if i == 0 then -1 else LastFrom(s, h, i - 1)
  }

  function LastIndex(s: string, h: string): (r: int)
    ensures -1 <= r <= |s|
    ensures r >= 0 ==> Occurs(s, h, r)
    ensures forall j: nat :: r < j ==> !Occurs(s, h, j)
  {
    LastFrom(s, h, |s|)
  }

  function ContainsFrom(s: string, h: string, i: nat): (r: bool)
    requires i <= |s|
    ensures r <==> exists j: nat :: i <= j && Occurs(s, h, j)
    decreases |s| - i
  {
    Occurs(s, h, i) || (i < |s| && ContainsFrom(s, h, i + 1))
  }

  function TrimNewlines(s: string): string {
    if s != "" && s[|s| - 1] == '\n' then TrimNewlines(s[..|s| - 1]) else s
  }

  // ---------- the document ----------

  /** The generated sections: each absent, or present with its contents. */
  type Sections = seq<Section>
  datatype Section = Absent | Present(content: string)

  /** The first n sections, written out. */
  function Text(secs: Sections, n: nat): string
    requires n <= |secs| && n <= SECTIONS
  {
    if n == 0 then ""
    else Text(secs, n - 1) + (if secs[n - 1].Present? then Heading(n - 1) + secs[n - 1].content else "")
  }

  /** A section's contents are lines, none of them a top-level heading. */
  ghost predicate Plain(content: string) {
    content != "" && content[|content| - 1] == '\n' && !Contains("\n" + content, TOP)
  }

  ghost predicate PlainSections(secs: Sections) {
    |secs| == SECTIONS && forall i :: 0 <= i < |secs| && secs[i].Present? ==> Plain(secs[i].content)
  }

  // ---------- peeling ----------

  /** What is left of b when the last n headings have been looked for, from the end. */
  function Peel(b: string, n: nat): (r: string)
    requires n <= SECTIONS
    ensures r <= b
  {
    if n == 0 then b
    else
      var h := Heading(n - 1);
      var j := LastIndex(b, h);
      if j < 0 || ContainsFrom(b[j + |h|..], TOP, 0) then Peel(b, n - 1)
      else Peel(b[..j], n - 1)
  }

  lemma PeelStep(b: string, n: nat)
    requires 0 < n <= SECTIONS
    ensures var h := Heading(n - 1);
            var j := LastIndex(b, h);
            Peel(b, n) == if j < 0 || ContainsFrom(b[j + |h|..], TOP, 0) then Peel(b, n - 1) else Peel(b[..j], n - 1)
  {
  }

  function Stripped(body: string): string {
    var r := Peel(body, SECTIONS);
    if |r| == |body| then body else TrimNewlines(r) + "\n"
  }

  lemma PeelCut(body: string, cut: nat, n: nat)
    requires cut <= |body| && 0 < n <= SECTIONS
    ensures var h := Heading(n - 1);
            var j := LastIndex(body[..cut], h);
            && (j >= 0 ==> j + |h| <= cut)
            && Peel(body[..cut], n)
            == if j < 0 || ContainsFrom(body[j + |h|..cut], TOP, 0) then Peel(body[..cut], n - 1) else Peel(body[..j], n - 1)
  {
    hide Peel, Heading, ContainsFrom, LastFrom;
    PeelStep(body[..cut], n);
    var h := Heading(n - 1);
    var j := LastIndex(body[..cut], h);
    if j >= 0 {
      assert body[..cut][j + |h|..] == body[j + |h|..cut];
      assert body[..cut][..j] == body[..j];
    }
  }

  lemma PeelNone(b: string)
    ensures Peel(b, 0) == b
  {
  }

  method StripGenerated(body: string) returns (r: string)
    ensures r == Stripped(body)
  {
    hide Peel, Heading, ContainsFrom, LastIndex, Occurs, TrimNewlines;
    var cut := |body|;
    var i := SECTIONS;
    assert body[..cut] == body;
    while i > 0
      invariant 0 <= i <= SECTIONS && cut <= |body|
      invariant Peel(body, SECTIONS) == Peel(body[..cut], i)
    {
      PeelCut(body, cut, i);
      i := i - 1;
      var h := Heading(i);
      var j := LastIndex(body[..cut], h);
      if j < 0 { continue; }
      if ContainsFrom(body[j + |h|..cut], TOP, 0) { continue; }
      cut := j;
    }
    PeelNone(body[..cut]);
    if cut == |body| { return body; }
    r := TrimNewlines(body[..cut]) + "\n";
  }

  // ---------- what the headings look like ----------

  /** A heading is one line: it starts and ends with a newline and holds no other. */
  predicate OneLine(h: string) {
    |h| > |TOP| && h[..|TOP|] == TOP && h[|h| - 1] == '\n' && forall i :: 0 < i < |h| - 1 ==> h[i] != '\n'
  }

  lemma HeadingsOneLine(i: nat)
    requires i < SECTIONS
    ensures OneLine(Heading(i))
  {
  }

  // No heading starts another.
  lemma HeadingsDiffer(i: nat, k: nat)
    requires i < SECTIONS && k < SECTIONS && i != k
    ensures exists d :: 0 <= d < |Heading(i)| && d < |Heading(k)| && Heading(i)[d] != Heading(k)[d]
  {
    assert Heading(0)[3] == 'R' && Heading(1)[3] == 'C' && Heading(2)[3] == 'C' && Heading(3)[3] == 'H';
    assert Heading(1)[6] == 'a' && Heading(2)[6] == 'e';
  }

  // ---------- where headings can occur ----------

  lemma OccursTop(s: string, h: string, i: nat)
    requires OneLine(h) && Occurs(s, h, i)
    ensures Occurs(s, TOP, i) && s[i] == '\n'
  {
    assert s[i..i + |TOP|] == s[i..i + |h|][..|TOP|];
    assert s[i] == s[i..i + |h|][0];
  }

  // Past its own heading's start, a plain section holds no heading's start.
  lemma NoneInside(b: string, h: string, c: string, g: string, q: nat)
    requires OneLine(h) && OneLine(g) && Plain(c) && q > |b|
    ensures !Occurs(b + (h + c), g, q)
  {
    var s := b + (h + c);
    var e := |b| + |h| - 1;
    assert forall k :: |b| <= k <= e ==> s[k] == h[k - |b|];
    assert s[e..] == "\n" + c;
    if Occurs(s, g, q) {
      OccursTop(s, g, q);
      if q >= e {
        assert s[q..q + |TOP|] == s[e..][q - e..q - e + |TOP|];
        assert Occurs("\n" + c, TOP, q - e);
      }
      assert false;
    }
  }

  // A present section is found where it starts, and accepted.
  lemma PresentFound(b: string, h: string, c: string)
    requires OneLine(h) && Plain(c)
    ensures LastIndex(b + (h + c), h) == |b|
    ensures (b + (h + c))[|b| + |h|..] == c && !ContainsFrom(c, TOP, 0)
    ensures (b + (h + c))[..|b|] == b
  {
    var s := b + (h + c);
    assert s[|b|..|b| + |h|] == h && Occurs(s, h, |b|);
    forall l: nat | l > |b|
      ensures !Occurs(s, h, l)
    {
      NoneInside(b, h, c, h, l);
    }
    forall j: nat
      ensures !Occurs(c, TOP, j)
    {
      NotInTail(c, j);
    }
  }

  lemma NotInTail(c: string, j: nat)
    requires !Contains("\n" + c, TOP)
    ensures !Occurs(c, TOP, j)
  {
    assert !Occurs("\n" + c, TOP, j + 1);
    if j + |TOP| <= |c| {
      assert ("\n" + c)[j + 1..j + 1 + |TOP|] == c[j..j + |TOP|];
    }
  }

  // A one-line heading holds no two newlines in a row.
  lemma NoTwoNewlines(g: string, m: nat, s: string, q: nat)
    requires OneLine(g) && 0 < m < |g| && q + |g| <= |s| && forall d :: 0 <= d < |g| ==> s[q + d] == g[d]
    ensures s[q + m - 1] != '\n' || s[q + m] != '\n'
  {
    assert s[q + m] == g[m] && s[q + (m - 1)] == g[m - 1];
    assert g[..|TOP|][1] == g[1];
  }

  // A heading does not straddle the end of b, nor stand where another starts.
  lemma NoneAcross(b: string, k: nat, c: string, i: nat, q: nat)
    requires b != "" && b[|b| - 1] == '\n' && k < SECTIONS && i < SECTIONS && k != i && Plain(c)
    requires Occurs(b + (Heading(k) + c), Heading(i), q)
    ensures Occurs(b, Heading(i), q)
  {
    hide Heading;
    var h, g := Heading(k), Heading(i);
    var s := b + (h + c);
    HeadingsOneLine(k);
    HeadingsOneLine(i);
    assert forall d :: 0 <= d < |g| ==> s[q + d] == s[q..q + |g|][d] == g[d];
    assert forall d :: |b| <= d < |b| + |h| ==> s[d] == h[d - |b|];
    assert s[|b| - 1] == '\n' && s[|b|] == '\n';
    if q > |b| {
      NoneInside(b, h, c, g, q);
    } else if q == |b| {
      HeadingsDiffer(i, k);
    } else if q + |g| <= |b| {
      assert s[q..q + |g|] == b[q..q + |g|];
    } else {
      NoTwoNewlines(g, |b| - q, s, q);
    }
  }

  lemma {:induction false} TextEnds(a: string, secs: Sections, n: nat)
    requires a != "" && a[|a| - 1] == '\n' && PlainSections(secs) && n <= |secs|
    ensures a + Text(secs, n) != "" && (a + Text(secs, n))[|a + Text(secs, n)| - 1] == '\n'
  {
    if n > 0 {
      TextEnds(a, secs, n - 1);
      if secs[n - 1].Present? {
        assert a + Text(secs, n) == a + Text(secs, n - 1) + (Heading(n - 1) + secs[n - 1].content);
      } else {
        assert Text(secs, n) == Text(secs, n - 1);
      }
    }
  }

  // Before its own section, a heading occurs in the authored text only.
  lemma {:induction false} OccursInAuthored(a: string, secs: Sections, n: nat, i: nat, q: nat)
    requires a != "" && a[|a| - 1] == '\n' && PlainSections(secs) && n <= i < SECTIONS
    requires Occurs(a + Text(secs, n), Heading(i), q)
    ensures Occurs(a, Heading(i), q)
    decreases n
  {
    hide Heading, Plain;
    if n == 0 {
      assert a + Text(secs, 0) == a;
    } else {
      var b := a + Text(secs, n - 1);
      if secs[n - 1].Present? {
        assert a + Text(secs, n) == b + (Heading(n - 1) + secs[n - 1].content);
        TextEnds(a, secs, n - 1);
        NoneAcross(b, n - 1, secs[n - 1].content, i, q);
      } else {
        assert Text(secs, n) == Text(secs, n - 1);
      }
      OccursInAuthored(a, secs, n - 1, i, q);
    }
  }

  /** The first present section, or n. */
  function FirstPresent(secs: Sections, n: nat): (f: nat)
    requires n <= |secs|
    ensures f <= n && (f < n ==> secs[f].Present?) && forall i :: 0 <= i < f ==> secs[i].Absent?
  {
    if n == 0 then 0
    else
      var f := FirstPresent(secs, n - 1);
      if f < n - 1 then f else if secs[n - 1].Present? then n - 1 else n
  }

  // The sections that follow the authored text start with a top-level heading.
  lemma {:induction false} SectionsTop(a: string, secs: Sections, n: nat) returns (t: nat)
    requires PlainSections(secs) && n <= |secs| && FirstPresent(secs, n) < n
    ensures t >= |a| && Occurs(a + Text(secs, n), TOP, t)
    decreases n
  {
    hide Heading, Plain;
    var b := a + Text(secs, n - 1);
    if FirstPresent(secs, n - 1) < n - 1 {
      t := SectionsTop(a, secs, n - 1);
      assert a + Text(secs, n) == b + (if secs[n - 1].Present? then Heading(n - 1) + secs[n - 1].content else "");
      OccursLonger(b, if secs[n - 1].Present? then Heading(n - 1) + secs[n - 1].content else "", t);
    } else {
      t := |b|;
      assert a + Text(secs, n) == b + (Heading(n - 1) + secs[n - 1].content);
      TopAtHeading(b, n - 1, secs[n - 1].content);
    }
  }

  lemma OccursLonger(b: string, more: string, t: nat)
    requires Occurs(b, TOP, t)
    ensures Occurs(b + more, TOP, t)
  {
    assert (b + more)[t..t + |TOP|] == b[t..t + |TOP|];
  }

  lemma TopAtHeading(b: string, i: nat, c: string)
    requires i < SECTIONS
    ensures Occurs(b + (Heading(i) + c), TOP, |b|)
  {
    hide Heading;
    HeadingsOneLine(i);
    var s := b + (Heading(i) + c);
    assert s[|b|..|b| + |TOP|] == Heading(i)[..|TOP|];
  }

  lemma {:induction false} NoText(secs: Sections, n: nat)
    requires n <= |secs| && |secs| == SECTIONS && FirstPresent(secs, n) == n
    ensures Text(secs, n) == ""
  {
    if n > 0 { NoText(secs, n - 1); }
  }

  /** Heading i's last occurrence in the authored text, if it has one, has a top-level heading
      below it. */
  ghost predicate Settled(a: string, i: nat)
    requires i < SECTIONS
  {
    var j := LastIndex(a, Heading(i));
    j < 0 || ContainsFrom(a[j + |Heading(i)|..], TOP, 0)
  }

  /** Cut short: what is left ends before a heading the author wrote. */
  ghost predicate CutShort(r: string, a: string) {
    exists i: nat, j: nat :: i < SECTIONS && Occurs(a, Heading(i), j) && |r| <= j && r <= a
  }

  // An absent section whose heading lies before a present one is passed over.
  lemma AbsentPassed(a: string, secs: Sections, n: nat)
    requires a != "" && a[|a| - 1] == '\n' && PlainSections(secs) && 0 < n <= |secs|
    requires secs[n - 1].Absent? && FirstPresent(secs, n - 1) < n - 1
    ensures Peel(a + Text(secs, n), n) == Peel(a + Text(secs, n - 1), n - 1)
  {
    hide Peel, ContainsFrom, LastIndex, FirstPresent, Plain, Heading;
    var b := a + Text(secs, n - 1);
    assert Text(secs, n) == Text(secs, n - 1);
    PeelStep(b, n);
    var j := LastIndex(b, Heading(n - 1));
    if j >= 0 {
      OccursInAuthored(a, secs, n - 1, n - 1, j);
      var t := SectionsTop(a, secs, n - 1);
      TopAfter(b, j + |Heading(n - 1)|, t);
    }
  }

  lemma TopAfter(b: string, k: nat, t: nat)
    requires k <= t && k <= |b| && Occurs(b, TOP, t)
    ensures ContainsFrom(b[k..], TOP, 0)
  {
    assert b[k..][t - k..t - k + |TOP|] == b[t..t + |TOP|];
    assert Occurs(b[k..], TOP, t - k);
  }

  lemma PeelPresent(b: string, n: nat, c: string)
    requires 0 < n <= SECTIONS && Plain(c)
    ensures Peel(b + (Heading(n - 1) + c), n) == Peel(b, n - 1)
  {
    hide Peel, ContainsFrom, LastIndex, Plain, Heading;
    HeadingsOneLine(n - 1);
    PresentFound(b, Heading(n - 1), c);
    PeelStep(b + (Heading(n - 1) + c), n);
  }

  lemma PeelAuthored(a: string, n: nat)
    requires 0 < n <= SECTIONS
    ensures Settled(a, n - 1) ==> Peel(a, n) == Peel(a, n - 1)
    ensures !Settled(a, n - 1) ==> CutShort(Peel(a, n), a) && Peel(a, n) != a
  {
    hide Peel, ContainsFrom, Heading;
    PeelStep(a, n);
    var j := LastIndex(a, Heading(n - 1));
    if !Settled(a, n - 1) {
      HeadingsOneLine(n - 1);
      assert Peel(a, n) <= a[..j];
      assert Occurs(a, Heading(n - 1), j) && |Peel(a, n)| <= j;
    }
  }

  /** The first n headings are settled in the authored text. */
  ghost predicate AllSettled(a: string, n: nat)
    requires n <= SECTIONS
  {
    forall i :: 0 <= i < n ==> Settled(a, i)
  }

  lemma AllSettledNext(a: string, n: nat)
    requires 0 < n <= SECTIONS
    ensures AllSettled(a, n) <==> AllSettled(a, n - 1) && Settled(a, n - 1)
  {
    hide Settled;
  }

  // While no section has been met, peeling goes on in the authored text itself.
  lemma PeelBackFirst(a: string, secs: Sections, n: nat)
    requires |secs| == SECTIONS && 0 < n <= |secs| && FirstPresent(secs, n) == n && FirstPresent(secs, n - 1) == n - 1
    requires Peel(a + Text(secs, n - 1), n - 1) == a <==> AllSettled(a, n - 1)
    requires Peel(a + Text(secs, n - 1), n - 1) == a || CutShort(Peel(a + Text(secs, n - 1), n - 1), a)
    ensures Peel(a + Text(secs, n), n) == a <==> AllSettled(a, n)
    ensures Peel(a + Text(secs, n), n) == a || CutShort(Peel(a + Text(secs, n), n), a)
  {
    hide Peel, Settled, CutShort, AllSettled, FirstPresent, Heading;
    NoText(secs, n);
    NoText(secs, n - 1);
    assert a + "" == a;
    PeelAuthored(a, n);
    AllSettledNext(a, n);
  }

  lemma FirstPresentStep(secs: Sections, n: nat)
    requires 0 < n <= |secs|
    ensures FirstPresent(secs, n) == if FirstPresent(secs, n - 1) < n - 1 then FirstPresent(secs, n - 1)
                                     else if secs[n - 1].Present? then n - 1 else n
    ensures FirstPresent(secs, n - 1) <= n - 1
  {
  }

  lemma PeelPresentSection(a: string, secs: Sections, n: nat)
    requires PlainSections(secs) && 0 < n <= |secs| && secs[n - 1].Present?
    ensures Peel(a + Text(secs, n), n) == Peel(a + Text(secs, n - 1), n - 1)
  {
    hide Peel, Heading, Plain;
    assert a + Text(secs, n) == a + Text(secs, n - 1) + (Heading(n - 1) + secs[n - 1].content);
    PeelPresent(a + Text(secs, n - 1), n, secs[n - 1].content);
  }

  lemma PeelBackNone(a: string, secs: Sections)
    requires |secs| == SECTIONS
    ensures Peel(a + Text(secs, 0), 0) == a && AllSettled(a, FirstPresent(secs, 0))
  {
    assert a + Text(secs, 0) == a;
  }

  lemma {:induction false} PeelBack(a: string, secs: Sections, n: nat)
    requires a != "" && a[|a| - 1] == '\n' && PlainSections(secs) && n <= |secs|
    ensures Peel(a + Text(secs, n), n) == a <==> AllSettled(a, FirstPresent(secs, n))
    ensures Peel(a + Text(secs, n), n) == a || CutShort(Peel(a + Text(secs, n), n), a)
    decreases n
  {
    hide Peel, Settled, CutShort, AllSettled, Heading, FirstPresent, Text;
    if n == 0 {
      PeelBackNone(a, secs);
    } else {
      PeelBack(a, secs, n - 1);
      FirstPresentStep(secs, n);
      if secs[n - 1].Present? {
        PeelPresentSection(a, secs, n);
      } else if FirstPresent(secs, n - 1) < n - 1 {
        AbsentPassed(a, secs, n);
      } else {
        PeelBackFirst(a, secs, n);
      }
    }
  }

  // ---------- the round trip ----------

  lemma {:induction false} TrimBounds(s: string, k: nat)
    ensures |TrimNewlines(s)| <= |s|
    ensures k < |s| && s[k] != '\n' ==> |TrimNewlines(s)| > k
    decreases |s|
  {
    if s != "" && s[|s| - 1] == '\n' {
      TrimBounds(s[..|s| - 1], k);
    }
  }

  /** What stripping should leave: the authored text, its trailing newlines reduced to one when
      sections were taken off. */
  function Authored(a: string, secs: Sections): string
    requires |secs| == SECTIONS
  {
    if FirstPresent(secs, |secs|) == |secs| then a else TrimNewlines(a) + "\n"
  }

  lemma HashAt(a: string, i: nat, j: nat)
    requires i < SECTIONS && Occurs(a, Heading(i), j)
    ensures j + 1 < |a| && a[j + 1] == '#'
  {
    hide Heading;
    HeadingsOneLine(i);
    OccursTop(a, Heading(i), j);
    assert a[j..j + |TOP|][1] == a[j + 1];
  }

  lemma CutShortDiffers(r: string, a: string, body: string, secs: Sections)
    requires |secs| == SECTIONS && CutShort(r, a) && |body| >= |a|
    ensures |r| < |body| && TrimNewlines(r) + "\n" != Authored(a, secs)
  {
    hide TrimNewlines, FirstPresent, Occurs, Heading;
    var i: nat, j: nat :| i < SECTIONS && Occurs(a, Heading(i), j) && |r| <= j && r <= a;
    HashAt(a, i, j);
    TrimmedShorter(r, a, j);
  }

  lemma TrimmedShorter(r: string, a: string, j: nat)
    requires |r| <= j && j + 1 < |a| && a[j + 1] != '\n'
    ensures TrimNewlines(r) + "\n" != a && TrimNewlines(r) + "\n" != TrimNewlines(a) + "\n"
  {
    hide TrimNewlines;
    TrimBounds(a, j + 1);
    TrimBounds(r, 0);
    var x, y := TrimNewlines(r), TrimNewlines(a);
    assert |x| <= j && |y| > j + 1;
    assert |x + "\n"| == |x| + 1 && |y + "\n"| == |y| + 1;
  }

  // Stripping a document takes exactly its generated sections off, if and only if each heading
  // that comes before the first section present is settled in the authored text: wherever the author
  // wrote it last, a top-level heading follows.
  lemma StripRestores(a: string, secs: Sections)
    requires a != "" && a[|a| - 1] == '\n' && PlainSections(secs)
    ensures Stripped(a + Text(secs, |secs|)) == Authored(a, secs) <==> AllSettled(a, FirstPresent(secs, |secs|))
  {
    var body := a + Text(secs, |secs|);
    PeelBack(a, secs, |secs|);
    hide Peel, AllSettled, CutShort, Heading, TrimNewlines, Plain;
    var r := Peel(body, SECTIONS);
    if r == a {
      if FirstPresent(secs, |secs|) == |secs| {
        NoText(secs, |secs|);
        assert body == a;
      } else {
        TextGrows(a, secs, |secs|);
      }
    } else {
      CutShortDiffers(r, a, body, secs);
    }
  }

  lemma {:induction false} TextGrows(a: string, secs: Sections, n: nat)
    requires n <= |secs| && |secs| == SECTIONS && FirstPresent(secs, n) < n
    ensures |Text(secs, n)| > 0
  {
    if FirstPresent(secs, n - 1) < n - 1 { TextGrows(a, secs, n - 1); } else { HeadingsOneLine(n - 1); }
  }

  // A fact's body ends with one newline, so a document that strips at all comes back as it was
  // authored whenever no generated heading is written in it.
  lemma CleanBodyRestored(a: string, secs: Sections)
    requires |a| >= 2 && a[|a| - 1] == '\n' && a[|a| - 2] != '\n' && PlainSections(secs)
    requires forall i :: 0 <= i < SECTIONS ==> !Contains(a, Heading(i))
    ensures Stripped(a + Text(secs, |secs|)) == a
  {
    hide Peel, Stripped, Settled, Contains, TrimNewlines, Occurs, Heading, Plain;
    StripRestores(a, secs);
    forall i | 0 <= i < FirstPresent(secs, |secs|)
      ensures Settled(a, i)
    {
      UnwrittenSettled(a, i);
    }
    TrimOne(a);
  }

  lemma UnwrittenSettled(a: string, i: nat)
    requires i < SECTIONS && !Contains(a, Heading(i))
    ensures Settled(a, i)
  {
    hide ContainsFrom, Occurs, Heading, LastIndex;
  }

  lemma TrimOne(a: string)
    requires |a| >= 2 && a[|a| - 1] == '\n' && a[|a| - 2] != '\n'
    ensures TrimNewlines(a) + "\n" == a
  {
    var b := a[..|a| - 1];
    assert b[|b| - 1] != '\n' && TrimNewlines(b) == b;
    assert TrimNewlines(a) == b;
  }
}
