/**
 Naming the hub pages (internal/okf/hubs.go): one file per qualifying key, free of collisions.
*/
module Hubs {
  import opened Decimal
  import opened Sorting
  import opened Strings

  const RESERVED := "index.md"
  const DOMAIN_MIN := 2
  const ENTITY_MIN := 3

  /** The i-th name tried for a slug: base.md, base-2.md, base-3.md, ... */
  function Name(base: string, i: nat): string {
    if i <= 1 then base + ".md" else base + ("-" + (Itoa(i) + ".md"))
  }

  lemma NameInjective(base: string, i: nat, j: nat)
    requires 1 <= i < j
    ensures Name(base, i) != Name(base, j)
  {
    if Name(base, i) == Name(base, j) {
      var tail := "-" + (Itoa(j) + ".md");
      assert Name(base, j)[|base|..] == tail;
      if i > 1 {
        assert Name(base, i)[|base|..] == "-" + (Itoa(i) + ".md");
        SuffixCut(Itoa(i), Itoa(j));
        ItoaInjective(i, j);
      }
      assert false;
    }
  }

  lemma SuffixCut(x: string, y: string)
    requires "-" + (x + ".md") == "-" + (y + ".md")
    ensures x == y
  {
    assert ("-" + (x + ".md"))[1..] == x + ".md" && ("-" + (y + ".md"))[1..] == y + ".md";
    assert (x + ".md")[..|x|] == x && (y + ".md")[..|y|] == y;
  }

  lemma SubsetSize<T>(a: set<T>, b: set<T>)
    requires a <= b
    ensures |a| <= |b|
  {
    if a != {} {
      var x :| x in a;
      SubsetSize(a - {x}, b - {x});
    }
  }

  /** The name is the first of the slug's that is free: all before it are taken. */
  ghost predicate FirstFree(name: string, base: string, used: set<string>) {
    name !in used && exists n: nat :: n >= 1 && name == Name(base, n) && forall i :: 1 <= i < n ==> Name(base, i) in used
  }

  // Tries names until one is free. One of the first |used| + 1 must be: they are all different.
  method FreeName(base: string, used: set<string>) returns (fname: string)
    ensures FirstFree(fname, base, used)
  {
    fname := base + ".md";
    var i := 2;
    ghost var tried: set<string> := {};
    while fname in used
      invariant i >= 2 && fname == Name(base, i - 1)
      invariant forall j :: 1 <= j < i - 1 ==> Name(base, j) in used
      invariant forall t :: t in tried ==> exists j :: 1 <= j < i - 1 && t == Name(base, j)
      invariant tried <= used && |tried| == i - 2
      decreases |used| - |tried|
    {
      if fname in tried {
        var j :| 1 <= j < i - 1 && fname == Name(base, j);
        NameInjective(base, j, i - 1);
        assert false;
      }
      ghost var before := tried;
      tried := tried + {fname};
      SubsetSize(tried, used);
      fname := base + ("-" + (Itoa(i) + ".md"));
      forall t | t in tried
        ensures exists j :: 1 <= j < i && t == Name(base, j)
      {
        if t in before {
          var j :| 1 <= j < i - 1 && t == Name(base, j);
          assert j < i;
        } else {
          assert t == Name(base, i - 1);
        }
      }
      i := i + 1;
    }
    assert forall j :: 1 <= j < i - 1 ==> Name(base, j) in used;
  }

  /** The names in use: the reserved one and those given out. */
  ghost predicate InUse(used: set<string>, out: map<string, string>) {
    forall f :: f in used <==> f == RESERVED || exists k :: k in out && out[k] == f
  }

  /** A key gets a page when enough facts carry it and its slug is not empty. */
  predicate Qualifies(k: string, counts: map<string, nat>, slug: string -> string, min: nat) {
    k in counts && counts[k] >= min && slug(k) != ""
  }

  /** Pages for the qualifying ones of some keys, no two alike, none reserved. */
  ghost predicate Assigned(out: map<string, string>, keys: set<string>, counts: map<string, nat>, slug: string -> string, min: nat) {
    && (forall k :: k in out <==> k in keys && Qualifies(k, counts, slug, min))
    && (forall k, l :: k in out && l in out && k != l ==> out[k] != out[l])
    && (forall k :: k in out ==> out[k] != RESERVED)
    && (forall k :: k in out ==> exists n: nat :: n >= 1 && out[k] == Name(slug(k), n))
  }

  method AssignPaths(keys: seq<string>, counts: map<string, nat>, slug: string -> string, min: nat) returns (out: map<string, string>)
    requires forall k :: k in keys <==> k in counts
    requires forall i, j :: 0 <= i < j < |keys| ==> keys[i] != keys[j]
    ensures Assigned(out, counts.Keys, counts, slug, min)
  {
    var used := {RESERVED};
    out := map[];
    ghost var done: set<string> := {};
    for i := 0 to |keys|
      invariant (forall k :: k in done <==> k in keys[..i]) && Assigned(out, done, counts, slug, min)
      invariant InUse(used, out)
    {
      var k := keys[i];
      assert keys[..i + 1] == keys[..i] + [k] && k !in done;
      ghost var before := done;
      done := done + {k};
      if counts[k] < min { continue; }
      var base := slug(k);
      if base == "" { continue; }
      var fname := FreeName(base, used);
      AssignedNext(out, before, counts, slug, min, k, fname, used);
      used := used + {fname};
      out := out[k := fname];
    }
    assert keys[..|keys|] == keys;
    assert done == counts.Keys;
  }

  lemma AssignedNext(out: map<string, string>, done: set<string>, counts: map<string, nat>, slug: string -> string, min: nat,
                     k: string, fname: string, used: set<string>)
    requires Assigned(out, done, counts, slug, min) && k !in done && Qualifies(k, counts, slug, min)
    requires FirstFree(fname, slug(k), used)
    requires InUse(used, out)
    ensures Assigned(out[k := fname], done + {k}, counts, slug, min)
    ensures InUse(used + {fname}, out[k := fname])
  {
    var next := out[k := fname];
    forall l | l in out
      ensures out[l] != fname
    {
      assert out[l] in used;
    }
    forall f
      ensures f in used + {fname} <==> f == RESERVED || exists l :: l in next && next[l] == f
    {
      if f in used && f != RESERVED {
        var l :| l in out && out[l] == f;
        assert l in next && next[l] == f;
      }
      if f == fname { assert next[k] == f; }
    }
  }

  // ---------- tags ----------

  /** A fact's tags, trimmed, blanks and repeats dropped, in the order written. */
  function Tags(written: seq<string>, trim: string -> string): seq<string> {
    Firsts(NotBlank(written, trim))
  }

  function NotBlank(written: seq<string>, trim: string -> string): seq<string> {
    if written == [] then [] else
      var t := trim(written[|written| - 1]);
      NotBlank(written[..|written| - 1], trim) + if t == "" then [] else [t]
  }

  /** x is one of these once trimmed, and not blank. */
  ghost predicate Written(written: seq<string>, trim: string -> string, x: string) {
    x != "" && exists i :: 0 <= i < |written| && trim(written[i]) == x
  }

  lemma {:induction false} TagsWritten(written: seq<string>, trim: string -> string, x: string)
    ensures x in Tags(written, trim) <==> Written(written, trim, x)
    decreases |written|
  {
    if written != [] {
      var init := written[..|written| - 1];
      TagsWritten(init, trim, x);
      if i :| 0 <= i < |written| && trim(written[i]) == x {
        assert i < |init| ==> trim(init[i]) == x;
      }
    }
  }

  method DedupeStable(written: seq<string>, trim: string -> string) returns (out: seq<string>)
    ensures out == Tags(written, trim)
  {
    var seen: set<string> := {};
    out := [];
    for i := 0 to |written|
      invariant out == Firsts(NotBlank(written[..i], trim))
      invariant forall x :: x in seen <==> x in NotBlank(written[..i], trim)
    {
      assert written[..i + 1][..i] == written[..i];
      var v := trim(written[i]);
      if v == "" {
        assert NotBlank(written[..i + 1], trim) == NotBlank(written[..i], trim);
        continue;
      }
      FirstsSnoc(NotBlank(written[..i], trim), v);
      if v in seen { continue; }
      seen := seen + {v};
      out := out + [v];
    }
    assert written[..|written|] == written;
  }

  /** How many of the facts carry a tag. */
  function Carriers(tags: seq<seq<string>>, k: string): nat {
    if tags == [] then 0 else Carriers(tags[..|tags| - 1], k) + if k in tags[|tags| - 1] then 1 else 0
  }

  lemma {:induction false} CarriersSome(tags: seq<seq<string>>, k: string)
    ensures Carriers(tags, k) > 0 <==> exists i :: 0 <= i < |tags| && k in tags[i]
  {
    if tags != [] {
      CarriersSome(tags[..|tags| - 1], k);
      if i :| 0 <= i < |tags| && k in tags[i] {
        assert i < |tags| - 1 ==> k in tags[..|tags| - 1][i];
      }
    }
  }

  method CountTags(tags: seq<seq<string>>) returns (counts: map<string, nat>)
    requires forall i, j, k :: 0 <= i < |tags| && 0 <= j < k < |tags[i]| ==> tags[i][j] != tags[i][k]
    ensures forall k :: (k in counts <==> Carriers(tags, k) > 0) && (k in counts ==> counts[k] == Carriers(tags, k))
  {
    counts := map[];
    for i := 0 to |tags|
      invariant Counts(counts, tags[..i])
    {
      ghost var before := counts;
      assert tags[..i + 1][..i] == tags[..i];
      for j := 0 to |tags[i]|
        invariant forall k :: k in counts <==> k in before || k in tags[i][..j]
        invariant forall k :: k in counts ==> counts[k] == (if k in before then before[k] else 0) + (if k in tags[i][..j] then 1 else 0)
      {
        var t := tags[i][j];
        assert tags[i][..j + 1] == tags[i][..j] + [t] && t !in tags[i][..j];
        counts := counts[t := (if t in counts then counts[t] else 0) + 1];
      }
      assert tags[i][..|tags[i]|] == tags[i];
    }
    assert tags[..|tags|] == tags;
  }

  ghost predicate Counts(counts: map<string, nat>, tags: seq<seq<string>>) {
    forall k :: (k in counts <==> Carriers(tags, k) > 0) && (k in counts ==> counts[k] == Carriers(tags, k))
  }

  /** The pages of one axis: exactly the tags enough facts carry. */
  ghost predicate Planned(pages: map<string, string>, tags: seq<seq<string>>, slug: string -> string, min: nat) {
    && (forall k :: k in pages <==> Carriers(tags, k) >= min && slug(k) != "")
    && (forall k, l :: k in pages && l in pages && k != l ==> pages[k] != pages[l])
    && (forall k :: k in pages ==> pages[k] != RESERVED && exists n: nat :: n >= 1 && pages[k] == Name(slug(k), n))
  }

  // Which hub pages there are, decided from the facts alone.
  method PlanHubs(tags: seq<seq<string>>, slug: string -> string, min: nat) returns (pages: map<string, string>)
    requires min > 0
    requires forall i, j, k :: 0 <= i < |tags| && 0 <= j < k < |tags[i]| ==> tags[i][j] != tags[i][k]
    ensures Planned(pages, tags, slug, min)
  {
    var counts := CountTags(tags);
    var keys := SortedKeys(counts.Keys);
    pages := AssignPaths(keys, counts, slug, min);
  }
}
