/**
 The gate every write's references pass (internal/refs/refs.go), and what it makes of the whole
 history: every local reference of every stored version resolves at that version's own commit.

 Paths are compared lower-cased, as they are stored.
*/
module RefGate {
  import opened Wrappers
  import opened Strings
  import opened RefSyntax
  import Learn

  type Path = string
  type Refs = seq<string>

  // ---------- canonical form ----------

  function Canon(raw: string, id: string): string {
    if Local(raw, id) then QualifyKbPath(id, Target(raw, id)) else raw
  }

  function CanonAll(refs: Refs, id: string): Refs {
    seq(|refs|, i requires 0 <= i < |refs| => Canon(refs[i], id))
  }

  /** What Canonicalize returns. */
  function Canonical(refs: Refs, id: string): Refs {
    if id == "" then refs else Firsts(CanonAll(refs, id))
  }

  method Canonicalize(refs: Refs, id: string) returns (out: Refs, changed: bool)
    ensures out == Canonical(refs, id)
    ensures changed <==> out != refs
  {
    hide Local, Target, Firsts, QualifyKbPath;
    FirstsOfDistinct([]);
    if id == "" || |refs| == 0 {
      assert CanonAll(refs, id) == [] || id == "";
      return refs, false;
    }
    out := [];
    var seen: set<string> := {};
    assert CanonAll(refs, id)[..0] == [];
    for i := 0 to |refs|
      invariant out == Firsts(CanonAll(refs, id)[..i])
      invariant forall x :: x in seen <==> x in CanonAll(refs, id)[..i]
    {
      var canon := refs[i];
      if Local(refs[i], id) { canon := QualifyKbPath(id, Target(refs[i], id)); }
      assert CanonAll(refs, id)[..i + 1] == CanonAll(refs, id)[..i] + [canon];
      FirstsSnoc(CanonAll(refs, id)[..i], canon);
      if canon in seen { continue; }
      seen := seen + {canon};
      out := out + [canon];
    }
    assert CanonAll(refs, id)[..|refs|] == CanonAll(refs, id);
    if |out| != |refs| { return out, true; }
    for i := 0 to |out|
      invariant out[..i] == refs[..i]
    {
      if out[i] != refs[i] { return out, true; }
    }
    assert out[..|out|] == out && refs[..|refs|] == refs;
    changed := false;
  }

  lemma CanonTwice(raw: string, id: string)
    requires RepoId(id)
    ensures Canon(Canon(raw, id), id) == Canon(raw, id)
    ensures Local(Canon(raw, id), id) <==> Local(raw, id)
    ensures Local(raw, id) ==> Target(Canon(raw, id), id) == Target(raw, id)
  {
    if Local(raw, id) {
      LocalTarget(raw, id);
      CanonicalIsLocal(Target(raw, id), id);
    }
  }

  /** What a ref denotes: a fact of this repo, or itself. */
  datatype Denotation = Fact(path: Path) | Other(raw: string)

  function Denotes(raw: string, id: string): Denotation {
    if Local(raw, id) then Fact(Target(raw, id)) else Other(raw)
  }

  ghost predicate Denoted(refs: Refs, id: string, d: Denotation) {
    exists x :: x in refs && Denotes(x, id) == d
  }

  // Two refs have one canonical form exactly when they denote the same thing.
  lemma CanonDenotes(r1: string, r2: string, id: string)
    requires RepoId(id)
    ensures Canon(r1, id) == Canon(r2, id) <==> Denotes(r1, id) == Denotes(r2, id)
  {
    CanonTwice(r1, id);
    CanonTwice(r2, id);
  }

  // Canonicalizing is idempotent and free of duplicates, keeps what is denoted, each thing once
  // where it is first denoted, and leaves refs that are not local as they were written.
  lemma CanonicalForm(refs: Refs, id: string)
    requires RepoId(id)
    ensures var out := Canonical(refs, id);
            && Canonical(out, id) == out
            && (forall i, j :: 0 <= i < j < |out| ==> Denotes(out[i], id) != Denotes(out[j], id))
            && (forall d :: Denoted(out, id, d) <==> Denoted(refs, id, d))
            && (forall x :: x in refs && !Local(x, id) ==> x in out)
            && (forall x :: x in out ==> if Local(x, id) then x == QualifyKbPath(id, Target(x, id)) else x in refs)
  {
    var all, out := CanonAll(refs, id), Canonical(refs, id);
    forall x | x in out
      ensures Canon(x, id) == x && exists r :: r in refs && Canon(r, id) == x
    {
      assert x in all;
      var i :| 0 <= i < |all| && all[i] == x;
      CanonTwice(refs[i], id);
      assert refs[i] in refs;
    }
    assert CanonAll(out, id) == out;
    FirstsOfDistinct(out);
    forall i, j | 0 <= i < j < |out|
      ensures Denotes(out[i], id) != Denotes(out[j], id)
    {
      CanonDenotes(out[i], out[j], id);
      assert out[i] in out && out[j] in out;
    }
    forall r | r in refs
      ensures Canon(r, id) in out && Denotes(Canon(r, id), id) == Denotes(r, id)
    {
      var i :| 0 <= i < |refs| && refs[i] == r;
      assert all[i] in all;
      CanonTwice(r, id);
    }
    forall d
      ensures Denoted(out, id, d) <==> Denoted(refs, id, d)
    {
      if x :| x in out && Denotes(x, id) == d {
        var r :| r in refs && Canon(r, id) == x;
        CanonTwice(r, id);
        assert Denotes(r, id) == d;
      }
      if r :| r in refs && Denotes(r, id) == d {
        assert Canon(r, id) in out && Denotes(Canon(r, id), id) == d;
      }
    }
  }

  // Refs keep the order in which they first denote something.
  lemma CanonicalInOrder(refs: Refs, id: string, i: nat, j: nat)
    requires RepoId(id) && i < j < |refs|
    requires forall k :: 0 <= k < i ==> Denotes(refs[k], id) != Denotes(refs[i], id)
    requires forall k :: 0 <= k < j ==> Denotes(refs[k], id) != Denotes(refs[j], id)
    ensures exists a, b :: 0 <= a < b < |Canonical(refs, id)| && Canonical(refs, id)[a] == Canon(refs[i], id)
                           && Canonical(refs, id)[b] == Canon(refs[j], id)
  {
    hide Canon, Denotes, Firsts, RepoId;
    var all := CanonAll(refs, id);
    forall k | 0 <= k < i
      ensures all[k] != all[i]
    {
      CanonDenotes(refs[k], refs[i], id);
    }
    forall k | 0 <= k < j
      ensures all[k] != all[j]
    {
      CanonDenotes(refs[k], refs[j], id);
    }
    assert all[i] !in all[..i] && all[j] !in all[..j];
    FirstsInOrder(all, i, j);
    var a, b :| 0 <= a < b < |Firsts(all)| && Firsts(all)[a] == all[i] && Firsts(all)[b] == all[j];
    RepoIdLong(id);
    assert Canonical(refs, id)[a] == Canon(refs[i], id) && Canonical(refs, id)[b] == Canon(refs[j], id);
  }

  lemma RepoIdLong(id: string)
    requires RepoId(id)
    ensures id != ""
  {
  }

  // ---------- the gate ----------

  /** Fact paths, and the refs written or carried there. */
  type RefMap = map<Path, Refs>

  /** The gate's view of the corpus: whether a path resolves at the head, None when that cannot be
      told. No resolver at all is None everywhere. */
  type Resolver = Path -> Option<bool>

  function RefsAt(m: RefMap, p: Path): Refs {
    if p in m then m[p] else []
  }

  ghost predicate InBatch(batch: RefMap, target: Path) {
    exists p :: p in batch && Lower(p) == target
  }

  ghost predicate Carried(prior: RefMap, from: Path, target: Path, id: string) {
    from in prior && exists r :: r in prior[from] && Local(r, id) && Target(r, id) == target
  }

  /** A newly added local ref that names nothing in the batch: the corpus must hold it. */
  ghost predicate Needs(batch: RefMap, prior: RefMap, id: string, from: Path, raw: string) {
    && from in batch && raw in batch[from] && Local(raw, id)
    && !InBatch(batch, Target(raw, id)) && !Carried(prior, from, Target(raw, id), id)
  }

  datatype Verdict = Accepted | Rejected(problems: seq<(Path, string)>) | Unresolvable(target: Path)

  /** The gate lets the batch through: whatever it needs resolves. */
  ghost predicate Accepts(batch: RefMap, prior: RefMap, id: string, resolves: Resolver) {
    forall from, raw :: Needs(batch, prior, id, from, raw) ==> resolves(Target(raw, id)) == Some(true)
  }

  method PathSet(refs: Refs, id: string) returns (paths: set<Path>)
    ensures forall t :: t in paths <==> exists r :: r in refs && Local(r, id) && Target(r, id) == t
  {
    paths := {};
    for i := 0 to |refs|
      invariant forall t :: t in paths <==> exists k :: 0 <= k < i && Local(refs[k], id) && Target(refs[k], id) == t
    {
      if Local(refs[i], id) { paths := paths + {Target(refs[i], id)}; }
    }
  }

  /** The lookups made so far are the resolver's. */
  ghost predicate Memo(checked: map<Path, bool>, resolves: Resolver) {
    forall t :: t in checked ==> resolves(t) == Some(checked[t])
  }

  /** The problems are the needed refs that do not resolve, those of the sources in `done` and of
      the first k refs of `at`. */
  ghost predicate Found(batch: RefMap, prior: RefMap, id: string, resolves: Resolver, done: set<Path>,
                        at: Refs, from: Path, problems: seq<(Path, string)>) {
    && (forall p :: p in problems ==> Needs(batch, prior, id, p.0, p.1) && resolves(Target(p.1, id)) == Some(false))
    && (forall p, raw :: Needs(batch, prior, id, p, raw) && (p in done || (p == from && raw in at)) ==>
          resolves(Target(raw, id)).Some? && (resolves(Target(raw, id)) == Some(false) ==> (p, raw) in problems))
  }

  // The refs of one source in turn; stops where a lookup fails.
  method CheckSource(batch: RefMap, prior: RefMap, id: string, resolves: Resolver, inBatch: set<Path>, from: Path,
                     checked: map<Path, bool>, problems: seq<(Path, string)>, ghost done: set<Path>)
      returns (stuck: Option<Path>, checked': map<Path, bool>, problems': seq<(Path, string)>)
    requires from in batch && (forall t :: t in inBatch <==> InBatch(batch, t))
    requires Memo(checked, resolves) && Found(batch, prior, id, resolves, done, [], from, problems)
    ensures stuck.None? ==> Memo(checked', resolves) && Found(batch, prior, id, resolves, done + {from}, [], from, problems')
    ensures stuck.Some? ==> exists raw :: Needs(batch, prior, id, from, raw) && Target(raw, id) == stuck.value && resolves(stuck.value).None?
  {
    checked', problems' := checked, problems;
    var refs := batch[from];
    var carried := PathSet(RefsAt(prior, from), id);
    for i := 0 to |refs|
      invariant Memo(checked', resolves)
      invariant Found(batch, prior, id, resolves, done, refs[..i], from, problems')
    {
      var raw := refs[i];
      assert refs[..i + 1] == refs[..i] + [raw];
      assert Local(raw, id) && Target(raw, id) !in inBatch && Target(raw, id) !in carried <==> Needs(batch, prior, id, from, raw);
      if !Local(raw, id) || Target(raw, id) in inBatch || Target(raw, id) in carried {
        FoundMore(batch, prior, id, resolves, done, refs[..i], from, problems', raw, []);
        continue;
      }
      var target := Target(raw, id);
      if target !in checked' {
        var ok := resolves(target);
        if ok.None? { return Some(target), checked', problems'; }
        checked' := checked'[target := ok.value];
      }
      if checked'[target] {
        FoundMore(batch, prior, id, resolves, done, refs[..i], from, problems', raw, []);
      } else {
        FoundMore(batch, prior, id, resolves, done, refs[..i], from, problems', raw, [(from, raw)]);
        problems' := problems' + [(from, raw)];
      }
    }
    assert refs[..|refs|] == refs;
    stuck := None;
  }

  lemma FoundMore(batch: RefMap, prior: RefMap, id: string, resolves: Resolver, done: set<Path>, at: Refs, from: Path,
                  problems: seq<(Path, string)>, raw: string, more: seq<(Path, string)>)
    requires Found(batch, prior, id, resolves, done, at, from, problems)
    requires Needs(batch, prior, id, from, raw) ==> resolves(Target(raw, id)).Some?
    requires more == if Needs(batch, prior, id, from, raw) && resolves(Target(raw, id)) == Some(false) then [(from, raw)] else []
    ensures Found(batch, prior, id, resolves, done, at + [raw], from, problems + more)
    ensures problems + [] == problems
  {
    hide Needs;
    forall p | p in problems + more
      ensures Needs(batch, prior, id, p.0, p.1) && resolves(Target(p.1, id)) == Some(false)
    {
      assert p in problems || p in more;
    }
    forall p, r | Needs(batch, prior, id, p, r) && (p in done || (p == from && r in at + [raw]))
      ensures resolves(Target(r, id)).Some? && (resolves(Target(r, id)) == Some(false) ==> (p, r) in problems + more)
    {
      if !(p in done || (p == from && r in at)) {
        assert r == raw;
        assert more == [(from, raw)] ==> (p, r) in more;
      }
    }
  }

  // Rejects a batch exactly when some newly added local ref would not resolve, and names every
  // such ref; looks each path up once.
  method CheckBatch(batch: RefMap, prior: RefMap, id: string, resolves: Resolver, sources: seq<Path>) returns (v: Verdict)
    requires forall p :: p in batch <==> p in sources
    ensures v.Accepted? <==> Accepts(batch, prior, id, resolves)
    ensures v.Rejected? ==> forall from, raw :: (from, raw) in v.problems <==>
              Needs(batch, prior, id, from, raw) && resolves(Target(raw, id)) == Some(false)
    ensures v.Unresolvable? ==> exists from, raw :: Needs(batch, prior, id, from, raw) && Target(raw, id) == v.target && resolves(v.target).None?
  {
    var inBatch: set<Path> := {};
    for i := 0 to |sources|
      invariant forall t :: t in inBatch <==> exists k :: 0 <= k < i && Lower(sources[k]) == t
    {
      inBatch := inBatch + {Lower(sources[i])};
    }
    forall t
      ensures t in inBatch <==> InBatch(batch, t)
    {
      if p :| p in batch && Lower(p) == t {
        var k :| 0 <= k < |sources| && sources[k] == p;
        assert Lower(sources[k]) == t;
      }
    }
    var checked: map<Path, bool> := map[];
    var problems: seq<(Path, string)> := [];
    ghost var done: set<Path> := {};
    hide Needs, InBatch, Found, Memo;
    FoundNone(batch, prior, id, resolves);
    for i := 0 to |sources|
      invariant Memo(checked, resolves)
      invariant Found(batch, prior, id, resolves, done, [], "", problems)
      invariant forall p :: p in done <==> p in sources[..i]
    {
      var stuck;
      FoundAnywhere(batch, prior, id, resolves, done, "", sources[i], problems);
      stuck, checked, problems := CheckSource(batch, prior, id, resolves, inBatch, sources[i], checked, problems, done);
      if stuck.Some? {
        StuckRejects(batch, prior, id, resolves, sources[i], stuck.value);
        return Unresolvable(stuck.value);
      }
      done := done + {sources[i]};
      FoundAnywhere(batch, prior, id, resolves, done, sources[i], "", problems);
      assert sources[..i + 1] == sources[..i] + [sources[i]];
    }
    assert sources[..|sources|] == sources;
    FoundAll(batch, prior, id, resolves, done, problems);
    v := if |problems| == 0 then Accepted else Rejected(problems);
  }

  lemma FoundNone(batch: RefMap, prior: RefMap, id: string, resolves: Resolver)
    ensures Memo(map[], resolves) && Found(batch, prior, id, resolves, {}, [], "", [])
  {
  }

  lemma FoundAnywhere(batch: RefMap, prior: RefMap, id: string, resolves: Resolver, done: set<Path>, from: Path, from2: Path,
                      problems: seq<(Path, string)>)
    requires Found(batch, prior, id, resolves, done, [], from, problems)
    ensures Found(batch, prior, id, resolves, done, [], from2, problems)
  {
    hide Needs;
  }

  lemma StuckRejects(batch: RefMap, prior: RefMap, id: string, resolves: Resolver, from: Path, target: Path)
    requires exists raw :: Needs(batch, prior, id, from, raw) && Target(raw, id) == target && resolves(target).None?
    ensures !Accepts(batch, prior, id, resolves)
  {
    hide Needs;
  }

  lemma FoundAll(batch: RefMap, prior: RefMap, id: string, resolves: Resolver, done: set<Path>, problems: seq<(Path, string)>)
    requires Found(batch, prior, id, resolves, done, [], "", problems) && forall p :: p in batch ==> p in done
    ensures Accepts(batch, prior, id, resolves) <==> |problems| == 0
    ensures forall from, raw :: (from, raw) in problems <==>
              Needs(batch, prior, id, from, raw) && resolves(Target(raw, id)) == Some(false)
  {
    assert forall from, raw :: Needs(batch, prior, id, from, raw) ==> from in batch;
    forall from, raw
      ensures (from, raw) in problems <==> Needs(batch, prior, id, from, raw) && resolves(Target(raw, id)) == Some(false)
    {
      assert Needs(batch, prior, id, from, raw) ==> from in done;
    }
    hide Needs;
    if |problems| > 0 {
      assert problems[0] in problems;
      assert Needs(batch, prior, id, problems[0].0, problems[0].1);
    } else {
      forall from, raw | Needs(batch, prior, id, from, raw)
        ensures resolves(Target(raw, id)) == Some(true)
      {
        assert from in done;
        var answer := resolves(Target(raw, id));
        assert answer.Some? && (answer == Some(false) ==> (from, raw) in problems);
        assert problems == [] && (from, raw) !in problems;
        assert answer.value || answer == Some(false);
      }
    }
  }

  // ---------- no repo id ----------

  /** A repo-relative path, whatever the repo. */
  predicate Schemeless(raw: string) {
    raw != "" && !HasScheme(raw)
  }

  lemma SchemelessIsLocal(raw: string)
    ensures Local(raw, "") <==> Schemeless(raw)
    ensures Schemeless(raw) ==> Target(raw, "") == Lower(raw)
  {
    if IsPrefix(KB_SCHEME, raw) {
      SchemeFound(raw, "kb");
    }
    if IsPrefix(SRC_SCHEME, raw) {
      SchemeFound(raw, "src");
      hide SplitLines, SplitVersion;
    }
  }

  /** A kb:// path of this repo, its id in either case. */
  ghost predicate OwnKb(raw: string, id: string, who: string, rel: string) {
    '/' !in who && RepoId(Lower(who)) && Lower(who) == id && rel != "" && raw == QualifyKbPath(who, rel)
  }

  // A reference is local exactly if it has no scheme, or is a kb:// path of this repo; its target is its
  // path, in lower case.
  lemma LocalExactly(raw: string, id: string)
    ensures Local(raw, id) <==> (raw != "" && !HasScheme(raw)) || exists who, rel :: OwnKb(raw, id, who, rel)
    ensures raw != "" && !HasScheme(raw) ==> Target(raw, id) == Lower(raw)
    ensures forall who, rel :: OwnKb(raw, id, who, rel) ==> Target(raw, id) == Lower(rel)
  {
    hide SplitLines, SplitVersion, HasScheme, Lower;
    if IsPrefix(KB_SCHEME, raw) {
      SchemeFound(raw, "kb");
      KbParsed(raw);
      if ParseKbPath(raw).Qualified? {
        var who, rel :| '/' !in who && RepoId(Lower(who)) && rel != "" && raw == QualifyKbPath(who, rel);
        assert id == Lower(who) ==> OwnKb(raw, id, who, rel);
      }
    } else if IsPrefix(SRC_SCHEME, raw) {
      SchemeFound(raw, "src");
    }
    forall who, rel | OwnKb(raw, id, who, rel) ensures IsPrefix(KB_SCHEME, raw) {
      assert raw[..|KB_SCHEME|] == KB_SCHEME;
    }
  }

  lemma SchemeFound(raw: string, scheme: string)
    requires IsScheme(scheme) && ':' !in scheme && IsPrefix(scheme + ":", raw)
    ensures HasScheme(raw)
  {
    assert raw[..|scheme| + 1] == scheme + ":";
    assert raw[..|scheme|] == scheme && raw[|scheme|] == ':';
    FirstIs(raw, ':', |scheme|);
  }

  // Without a repo id the gate can still reject a batch: if and only if a fact of it carries a new
  // schemeless reference to something outside it.
  lemma NoIdStillGates(batch: RefMap, prior: RefMap)
    ensures (exists resolves :: !Accepts(batch, prior, "", resolves)) <==>
            exists from, raw :: NewPath(batch, prior, from, raw)
  {
    hide Local, Target, HasScheme, InBatch;
    forall raw ensures (Local(raw, "") <==> Schemeless(raw)) && (Schemeless(raw) ==> Target(raw, "") == Lower(raw)) {
      SchemelessIsLocal(raw);
    }
    var never: Resolver := _ => Some(false);
    if from, raw :| NewPath(batch, prior, from, raw) {
      assert Needs(batch, prior, "", from, raw);
      assert !Accepts(batch, prior, "", never);
    }
    if resolves :| !Accepts(batch, prior, "", resolves) {
      var from, raw :| Needs(batch, prior, "", from, raw) && resolves(Target(raw, "")) != Some(true);
      assert NewPath(batch, prior, from, raw);
    }
  }

  /** The fact at `from` carries a schemeless reference to something outside the batch that it did not carry before. */
  ghost predicate NewPath(batch: RefMap, prior: RefMap, from: Path, raw: string) {
    && from in batch && raw in batch[from] && Schemeless(raw) && !InBatch(batch, Lower(raw))
    && (from in prior ==> forall r :: r in prior[from] && Schemeless(r) ==> Lower(r) != Lower(raw))
  }

  // One such batch, and what the gate does instead with a kb:// reference.
  lemma NoIdRejects()
    ensures !Accepts(map["kb/a.md" := ["kb/b.md"]], map[], "", _ => Some(false))
    ensures Accepts(map["kb/a.md" := ["kb://0123456789ab/kb/b.md"]], map[], "", _ => Some(false))
  {
    BareRejected();
    hide Accepts, Local, Target, HasScheme, InBatch, Carried, Schemeless;
    KbLetThrough("kb/a.md", "kb://0123456789ab/kb/b.md");
  }

  // Without a repo id nothing is asked of a kb:// reference.
  lemma KbLetThrough(from: Path, raw: string)
    requires IsPrefix("kb:", raw)
    ensures Accepts(map[from := [raw]], map[], "", _ => Some(false))
  {
    SchemeFound(raw, "kb");
    SchemelessIsLocal(raw);
    hide Local, Target, HasScheme, InBatch, Carried;
  }

  lemma BareRejected()
    ensures !Accepts(map["kb/a.md" := ["kb/b.md"]], map[], "", _ => Some(false))
  {
    var bare: RefMap := map["kb/a.md" := ["kb/b.md"]];
    assert ':' !in "kb/b.md";
    NoFirst("kb/b.md", ':');
    SchemelessIsLocal("kb/b.md");
    assert Lower("kb/a.md")[3] != Lower("kb/b.md")[3];
    hide Local, Target, HasScheme, Lower;
    assert !InBatch(bare, Lower("kb/b.md"));
    assert !Carried(map[], "kb/a.md", Lower("kb/b.md"), "");
    assert Needs(bare, map[], "", "kb/a.md", "kb/b.md");
  }

  // ---------- the history ----------

  /** A commit on the branch: the refs of each fact written, and the facts retracted, by stored
      path. */
  datatype Commit = Commit(writes: RefMap, retracts: set<Path>)

  /** A branch is only ever appended to. */
  type History = seq<Commit>

  /** FactExistsAt: some version of the path was written at or before commit k; retractions are
      stepped over. */
  ghost predicate ExistsAt(h: History, k: nat, target: Path)
    requires k < |h|
  {
    exists i :: 0 <= i <= k && InBatch(h[i].writes, target)
  }

  ghost predicate ExistsAtHead(h: History, target: Path) {
    |h| > 0 && ExistsAt(h, |h| - 1, target)
  }

  /** Every local ref of every version written at commit k resolves there. */
  ghost predicate ResolvesAt(h: History, id: string, k: nat)
    requires k < |h|
  {
    forall p, raw :: p in h[k].writes && raw in h[k].writes[p] && Local(raw, id) ==> ExistsAt(h, k, Target(raw, id))
  }

  ghost predicate Resolved(h: History, id: string) {
    forall k :: 0 <= k < |h| ==> ResolvesAt(h, id, k)
  }

  /** The refs a writer calls carried really are: each denotes what a ref of some stored version
      denotes. */
  ghost predicate HonestPrior(h: History, prior: RefMap, id: string) {
    forall p, raw :: p in prior && raw in prior[p] && Local(raw, id) ==> Stored(h, Target(raw, id), id)
  }

  ghost predicate Stored(h: History, target: Path, id: string) {
    exists k, p, raw :: 0 <= k < |h| && StoredAt(h, k, p, raw, target, id)
  }

  ghost predicate StoredAt(h: History, k: nat, p: Path, raw: string, target: Path, id: string)
    requires k < |h|
  {
    p in h[k].writes && raw in h[k].writes[p] && Local(raw, id) && Target(raw, id) == target
  }

  /** The resolver answers, and answers what readers see at the head. */
  ghost predicate Faithful(resolves: Resolver, h: History) {
    forall t: Path :: resolves(t) == Some(ExistsAtHead(h, t))
  }

  function StoredBatch(batch: RefMap, id: string): RefMap {
    map p | p in batch :: Canonical(batch[p], id)
  }

  ghost predicate Cites(refs: Refs, target: Path, id: string) {
    exists raw :: raw in refs && Local(raw, id) && Target(raw, id) == target
  }

  // The refs stored cite the facts the refs written cite.
  lemma CanonicalCites(refs: Refs, id: string, target: Path)
    requires id == "" || RepoId(id)
    ensures Cites(Canonical(refs, id), target, id) <==> Cites(refs, target, id)
  {
    if id != "" {
      CanonicalForm(refs, id);
      assert Denoted(refs, id, Fact(target)) <==> Denoted(Canonical(refs, id), id, Fact(target));
      DenotedCites(refs, id, target);
      DenotedCites(Canonical(refs, id), id, target);
    }
  }

  lemma DenotedCites(refs: Refs, id: string, target: Path)
    ensures Denoted(refs, id, Fact(target)) <==> Cites(refs, target, id)
  {
    if Denoted(refs, id, Fact(target)) {
      var x :| x in refs && Denotes(x, id) == Fact(target);
      assert Local(x, id) && Target(x, id) == target;
    }
    if Cites(refs, target, id) {
      var x :| x in refs && Local(x, id) && Target(x, id) == target;
      assert Denotes(x, id) == Fact(target);
    }
  }

  lemma ExistsLater(h: History, h': History, k: nat, j: nat, target: Path)
    requires k < |h| && k <= j < |h'| && h <= h' && ExistsAt(h, k, target)
    ensures ExistsAt(h', j, target)
  {
    var i :| 0 <= i <= k && InBatch(h[i].writes, target);
    assert h'[i] == h[i];
  }

  // A ref is carried from a version whose own ref resolved.
  lemma StoredExists(h: History, target: Path, id: string)
    requires Resolved(h, id) && Stored(h, target, id)
    ensures ExistsAtHead(h, target)
  {
    var k, p, raw :| 0 <= k < |h| && StoredAt(h, k, p, raw, target, id);
    assert ResolvesAt(h, id, k);
    ExistsLater(h, h, k, |h| - 1, target);
  }

  lemma ExistsHere(h: History, c: Commit, target: Path)
    ensures ExistsAt(h + [c], |h|, target) <==> InBatch(c.writes, target) || ExistsAtHead(h, target)
  {
    var h' := h + [c];
    if ExistsAtHead(h, target) { ExistsLater(h, h', |h| - 1, |h|, target); }
    if InBatch(c.writes, target) { assert InBatch(h'[|h|].writes, target); }
    if ExistsAt(h', |h|, target) && !InBatch(c.writes, target) {
      var i :| 0 <= i <= |h| && InBatch(h'[i].writes, target);
      assert i < |h| && h'[i] == h[i];
    }
  }

  // Exactly the accepted batches keep every version's refs resolved.
  lemma GateKeepsResolved(h: History, batch: RefMap, prior: RefMap, retracts: set<Path>, id: string, resolves: Resolver)
    requires Resolved(h, id) && HonestPrior(h, prior, id) && Faithful(resolves, h) && (id == "" || RepoId(id))
    ensures Accepts(batch, prior, id, resolves) <==> Resolved(h + [Commit(StoredBatch(batch, id), retracts)], id)
  {
    var c := Commit(StoredBatch(batch, id), retracts);
    var h' := h + [c];
    assert forall t :: InBatch(c.writes, t) <==> InBatch(batch, t);
    forall k | 0 <= k < |h|
      ensures ResolvesAt(h', id, k)
    {
      assert ResolvesAt(h, id, k) && h'[k] == h[k];
      forall p, raw | p in h'[k].writes && raw in h'[k].writes[p] && Local(raw, id)
        ensures ExistsAt(h', k, Target(raw, id))
      {
        ExistsLater(h, h', k, k, Target(raw, id));
      }
    }
    if Accepts(batch, prior, id, resolves) {
      forall p, raw | p in c.writes && raw in c.writes[p] && Local(raw, id)
        ensures ExistsAt(h', |h|, Target(raw, id))
      {
        AcceptedExists(h, batch, prior, id, resolves, p, Target(raw, id), c, raw);
      }
      assert ResolvesAt(h', id, |h|);
    }
    if Resolved(h', id) {
      forall from, raw | Needs(batch, prior, id, from, raw)
        ensures resolves(Target(raw, id)) == Some(true)
      {
        NeededExists(h, batch, prior, id, from, raw, c);
      }
    }
  }

  lemma AcceptedExists(h: History, batch: RefMap, prior: RefMap, id: string, resolves: Resolver, p: Path, t: Path, c: Commit, raw: string)
    requires Resolved(h, id) && HonestPrior(h, prior, id) && Faithful(resolves, h) && (id == "" || RepoId(id))
    requires Accepts(batch, prior, id, resolves) && c.writes == StoredBatch(batch, id)
    requires p in batch && raw in Canonical(batch[p], id) && Local(raw, id) && Target(raw, id) == t
    ensures ExistsAt(h + [c], |h|, t)
  {
    assert Cites(Canonical(batch[p], id), t, id);
    CanonicalCites(batch[p], id, t);
    var r :| r in batch[p] && Local(r, id) && Target(r, id) == t;
    ExistsHere(h, c, t);
    if InBatch(batch, t) {
      var q :| q in batch && Lower(q) == t;
      assert q in c.writes;
    } else if Carried(prior, p, t, id) {
      var old_ :| old_ in prior[p] && Local(old_, id) && Target(old_, id) == t;
      StoredExists(h, t, id);
    } else {
      assert Needs(batch, prior, id, p, r);
    }
  }

  lemma NeededExists(h: History, batch: RefMap, prior: RefMap, id: string, from: Path, raw: string, c: Commit)
    requires Needs(batch, prior, id, from, raw) && c.writes == StoredBatch(batch, id) && (id == "" || RepoId(id))
    requires Resolved(h + [c], id)
    ensures ExistsAtHead(h, Target(raw, id))
  {
    var t := Target(raw, id);
    assert Cites(batch[from], t, id);
    CanonicalCites(batch[from], id, t);
    var r :| r in Canonical(batch[from], id) && Local(r, id) && Target(r, id) == t;
    assert ResolvesAt(h + [c], id, |h|);
    assert from in (h + [c])[|h|].writes;
    ExistsHere(h, c, t);
    assert InBatch(c.writes, t) ==> InBatch(batch, t);
  }

  /** One gated write. */
  datatype Write = Write(batch: RefMap, prior: RefMap, retracts: set<Path>, resolves: Resolver)

  /** Each write is accepted against the head it lands on, and is honest about what it carried. */
  ghost predicate GatedRun(h: History, writes: seq<Write>, id: string) {
    && |h| == |writes|
    && forall k :: 0 <= k < |h| ==> GatedWrite(h[..k], writes[k], id) && h[k] == Commit(StoredBatch(writes[k].batch, id), writes[k].retracts)
  }

  ghost predicate GatedWrite(h: History, w: Write, id: string) {
    HonestPrior(h, w.prior, id) && Faithful(w.resolves, h) && Accepts(w.batch, w.prior, id, w.resolves)
  }

  // Over every run of gated writes, every local ref of every version ever stored resolves at its
  // own commit, and at every later one.
  lemma {:induction false} EveryRefResolves(h: History, writes: seq<Write>, id: string)
    requires GatedRun(h, writes, id) && (id == "" || RepoId(id))
    ensures Resolved(h, id)
    ensures forall k, j, p, raw :: 0 <= k <= j < |h| && p in h[k].writes && raw in h[k].writes[p] && Local(raw, id) ==>
              ExistsAt(h, j, Target(raw, id))
  {
    ResolvedAlong(h, writes, id);
    forall k, j, p, raw | 0 <= k <= j < |h| && p in h[k].writes && raw in h[k].writes[p] && Local(raw, id)
      ensures ExistsAt(h, j, Target(raw, id))
    {
      assert ResolvesAt(h, id, k);
      ExistsLater(h, h, k, j, Target(raw, id));
    }
  }

  lemma {:induction false} ResolvedAlong(h: History, writes: seq<Write>, id: string)
    requires GatedRun(h, writes, id) && (id == "" || RepoId(id))
    ensures Resolved(h, id)
    decreases |h|
  {
    if |h| > 0 {
      var n := |h| - 1;
      hide GatedWrite;
      assert forall k :: 0 <= k < n ==> h[..n][..k] == h[..k] && h[..n][k] == h[k] && writes[..n][k] == writes[k];
      ResolvedAlong(h[..n], writes[..n], id);
      assert GatedWrite(h[..n], writes[n], id);
      assert h == h[..n] + [h[n]];
      LastKeeps(h[..n], writes[n], id);
    }
  }

  lemma LastKeeps(h: History, w: Write, id: string)
    requires Resolved(h, id) && GatedWrite(h, w, id) && (id == "" || RepoId(id))
    ensures Resolved(h + [Commit(StoredBatch(w.batch, id), w.retracts)], id)
  {
    GateKeepsResolved(h, w.batch, w.prior, w.retracts, id, w.resolves);
  }

  // ---------- a learn call is a gated write ----------

  /** The facts a call reads are versions stored in the history. */
  ghost predicate InHistory(w: Learn.World, h: History) {
    forall p :: p in w.corpus ==> exists k :: 0 <= k < |h| && p in h[k].writes && h[k].writes[p] == w.corpus[p].refs
  }

  // What a merge carries over was stored.
  lemma LearnIsHonest(w: Learn.World, h: History, input: Learn.Input, prior: RefMap, id: string)
    requires InHistory(w, h) && Learn.Fresh(w, input) && Learn.PriorRefs(w, input, |input.facts|, prior)
    ensures HonestPrior(h, prior, id)
  {
    hide Learn.Fresh;
    forall p, raw | p in prior && raw in prior[p] && Local(raw, id)
      ensures Stored(h, Target(raw, id), id)
    {
      var k :| 0 <= k < |h| && p in h[k].writes && h[k].writes[p] == w.corpus[p].refs;
      assert StoredAt(h, k, p, raw, Target(raw, id), id);
    }
  }

  // A learn call that commits, asking this gate, keeps every ref in the history resolved:
  // whatever the batch merges, settles and cites.
  lemma LearnKeepsResolved(w: Learn.World, h: History, input: Learn.Input, facts: seq<Learn.Fact>, paths: seq<Path>,
                           commit: Learn.Commit, weigh: Learn.Fact -> Option<real>, canon: Refs -> Refs,
                           id: string, resolves: Resolver, stored: Commit)
    requires Resolved(h, id) && InHistory(w, h) && Faithful(resolves, h) && (id == "" || RepoId(id))
    requires Learn.Fresh(w, input) && |facts| == |paths| == |input.facts|
    requires Learn.Coherent(w, facts, paths, commit) && Learn.PriorRefs(w, input, |input.facts|, commit.prior)
    requires forall i :: 0 <= i < |facts| ==> Learn.Stored(w, input, weigh, canon, commit.judged, i, facts[i], paths[i])
    requires Accepts(commit.judged, commit.prior, id, resolves) && forall r :: canon(r) == Canonical(r, id)
    requires stored.writes.Keys == commit.files.Keys
    requires forall i :: 0 <= i < |facts| ==> paths[i] in stored.writes && stored.writes[paths[i]] == facts[i].refs
    ensures Resolved(h + [stored], id)
  {
    LearnIsHonest(w, h, input, commit.prior, id);
    GateKeepsResolved(h, commit.judged, commit.prior, stored.retracts, id, resolves);
    hide Learn.Fresh, Learn.Coherent, Learn.PriorRefs, Resolved, Accepts;
    LearnWrites(w, input, facts, paths, commit, weigh, canon, id, stored.writes);
    assert stored == Commit(StoredBatch(commit.judged, id), stored.retracts);
  }

  // The versions stored are the judged refs in canonical form.
  lemma LearnWrites(w: Learn.World, input: Learn.Input, facts: seq<Learn.Fact>, paths: seq<Path>, commit: Learn.Commit,
                    weigh: Learn.Fact -> Option<real>, canon: Refs -> Refs, id: string, writes: RefMap)
    requires Learn.Fresh(w, input) && |facts| == |paths| == |input.facts| && Learn.Coherent(w, facts, paths, commit)
    requires forall i :: 0 <= i < |facts| ==> Learn.Stored(w, input, weigh, canon, commit.judged, i, facts[i], paths[i])
    requires forall r :: canon(r) == Canonical(r, id)
    requires writes.Keys == commit.files.Keys
    requires forall i :: 0 <= i < |facts| ==> paths[i] in writes && writes[paths[i]] == facts[i].refs
    ensures writes == StoredBatch(commit.judged, id)
  {
    hide Learn.Fresh, Learn.FinalFact, Learn.FinalPath, Canonical;
    forall p | p in commit.judged
      ensures p in writes && writes[p] == Canonical(commit.judged[p], id)
    {
      assert p in paths;
      var i :| 0 <= i < |paths| && paths[i] == p;
      assert Learn.Stored(w, input, weigh, canon, commit.judged, i, facts[i], paths[i]);
    }
    assert writes.Keys == commit.judged.Keys;
  }
}
