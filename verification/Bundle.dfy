/**
 Building the OKF bundle (internal/okf/bundle.go, hubs.go, digests.go, retired.go): bundle paths
 are planned for every fact first, documents rendered after, and every relative link written must
 lead to a file of the bundle.

 A path is its list of segments; a document is the set of relative links it holds to other
 documents.
*/
module Bundle {
  import opened Wrappers
  import opened Decimal
  import Hubs
  import Sorting
  import opened RefSyntax

  type Path = seq<string>

  // ---------- relative links ----------

  /** "../" so many times, then down. */
  datatype Link = Link(ups: nat, down: Path)

  /** How far the directory and the target go the same way; the last segment is never shared. */
  function Common(from: Path, to: Path, i: nat): (r: nat)
    requires i <= |from| && i < |to|
    ensures i <= r <= |from| && r < |to| && (from[..i] == to[..i] ==> from[..r] == to[..r])
    decreases |from| - i
  {
    if i < |from| && i < |to| - 1 && from[i] == to[i] then
      assert from[..i + 1] == from[..i] + [from[i]] && to[..i + 1] == to[..i] + [to[i]];
      Common(from, to, i + 1)
    else i
  }

  function RelLink(from: Path, to: Path): Link
    requires to != []
  {
    if from == [] then Link(0, to)
    else
      var i := Common(from, to, 0);
      Link(|from| - i, to[i..])
  }

  method RelLinkTo(from: Path, to: Path) returns (link: Link)
    requires to != []
    ensures link == RelLink(from, to)
  {
    if from == [] { return Link(0, to); }
    var i := 0;
    while i < |from| && i < |to| - 1 && from[i] == to[i]
      invariant i <= |from| && i < |to| && Common(from, to, i) == Common(from, to, 0)
    {
      i := i + 1;
    }
    link := Link(|from| - i, to[i..]);
  }

  /** Where a link leads from a directory; None when it climbs out of the bundle. */
  function Resolve(dir: Path, link: Link): Option<Path> {
    if link.ups > |dir| then None else Some(dir[..|dir| - link.ups] + link.down)
  }

  // A relative link leads to what it was made for.
  lemma LinkResolves(from: Path, to: Path)
    requires to != []
    ensures Resolve(from, RelLink(from, to)) == Some(to)
  {
    if from == [] {
      assert from[..0] + to == to;
    } else {
      var i := Common(from, to, 0);
      assert from[..i] == to[..i] && to[..i] + to[i..] == to;
    }
  }

  // Different targets get different links.
  lemma LinksDiffer(from: Path, to: Path, to2: Path)
    requires to != [] && to2 != [] && RelLink(from, to) == RelLink(from, to2)
    ensures to == to2
  {
    LinkResolves(from, to);
    LinkResolves(from, to2);
  }

  // ---------- facts ----------

  /** What a build reads of a fact: where it is, and what its documents link. `fails` says its
      document cannot be rendered. */
  datatype Fact = Fact(dir: Path, base: string, title: string, domains: seq<string>, entities: seq<string>,
                       refs: seq<string>, leaf: string, fails: bool)

  /** A withdrawn fact, and what replaced it. */
  datatype Retired = Retired(superseded: bool, successor: string)

  datatype Env = Env(id: string, slug: string -> string, trim: string -> string)

  const MD := ".md"
  const INDEX := "index.md"
  const KB := "kb"
  const VIEWS := "views"
  const DOMAINS := "domains"
  const ENTITIES := "entities"
  const RETIRED := "retired.md"

  const DOMAINS_DIR: Path := [VIEWS, DOMAINS]
  const ENTITIES_DIR: Path := [VIEWS, ENTITIES]

  function JoinSegs(p: Path): string {
    if p == [] then "" else if |p| == 1 then p[0] else p[0] + ("/" + JoinSegs(p[1..]))
  }

  /** A fact's own path, as references name it. */
  function FactPath(f: Fact): string {
    JoinSegs(f.dir + [f.base + MD])
  }

  /** The document's file name: the title's slug, or the category's, and always the fact's id. */
  function FileName(f: Fact, slug: string -> string): string {
    var s := slug(f.title);
    var c := if f.dir == [] then "" else slug(f.dir[|f.dir| - 1]);
    if s != "" then s + ("-" + (f.base + MD))
    else if c != "" then c + ("-" + (f.base + MD))
    else f.base + MD
  }

  function DocPath(f: Fact, slug: string -> string): Path {
    f.dir + [FileName(f, slug)]
  }

  /** An 8-hex id. */
  predicate FactId(s: string) {
    |s| == 8 && LowerHex(s)
  }

  ghost predicate WellPlaced(facts: seq<Fact>) {
    && (forall f :: f in facts ==> |f.dir| >= 1 && f.dir[0] == KB && FactId(f.base))
    && (forall i, j :: 0 <= i < j < |facts| ==> FactPath(facts[i]) != FactPath(facts[j]))
  }

  lemma FileNameEnds(f: Fact, slug: string -> string)
    requires FactId(f.base)
    ensures var name := FileName(f, slug); |name| >= 11 && name[|name| - 11..] == f.base + MD
  {
    var tail := f.base + MD;
    assert |tail| == 11;
    var name := FileName(f, slug);
    if slug(f.title) != "" {
      assert name == slug(f.title) + "-" + tail;
    } else if f.dir != [] && slug(f.dir[|f.dir| - 1]) != "" {
      assert name == slug(f.dir[|f.dir| - 1]) + "-" + tail;
    }
  }

  // A file is named after the title, or if that has no slug after the category, and always after the id.
  lemma NamedByTitle(f: Fact, slug: string -> string)
    ensures slug(f.title) != "" ==> FileName(f, slug) == slug(f.title) + "-" + f.base + ".md"
    ensures slug(f.title) == "" && f.dir != [] && slug(f.dir[|f.dir| - 1]) != "" ==>
              FileName(f, slug) == slug(f.dir[|f.dir| - 1]) + "-" + f.base + ".md"
    ensures slug(f.title) == "" && (f.dir == [] || slug(f.dir[|f.dir| - 1]) == "") ==> FileName(f, slug) == f.base + ".md"
  {
    assert slug(f.title) + "-" + f.base + ".md" == slug(f.title) + ("-" + (f.base + MD));
    if f.dir != [] {
      var c := slug(f.dir[|f.dir| - 1]);
      assert c + "-" + f.base + ".md" == c + ("-" + (f.base + MD));
    }
  }

  // Distinct facts get distinct documents, none of them an index.
  lemma DocPathsDistinct(f: Fact, g: Fact, slug: string -> string)
    requires FactId(f.base) && FactId(g.base)
    ensures DocPath(f, slug) == DocPath(g, slug) ==> FactPath(f) == FactPath(g)
    ensures FileName(f, slug) != INDEX
  {
    FileNameEnds(f, slug);
    FileNameEnds(g, slug);
    if DocPath(f, slug) == DocPath(g, slug) {
      assert DocPath(f, slug)[..|f.dir|] == f.dir && DocPath(g, slug)[..|g.dir|] == g.dir;
      assert DocPath(f, slug)[|f.dir|] == FileName(f, slug) && DocPath(g, slug)[|g.dir|] == FileName(g, slug);
      assert f.base + MD == g.base + MD;
    }
  }

  // ---------- what each document links ----------

  type Doc = set<Link>
  type Files = map<Path, Doc>

  /** A document at a directory linking these paths. */
  function LinksTo(dir: Path, targets: set<Path>): Doc
    requires [] !in targets
  {
    set t | t in targets :: RelLink(dir, t)
  }

  function DirOf(p: Path): Path
    requires p != []
  {
    p[..|p| - 1]
  }

  /** The facts' bundle paths, by fact path: of every fact, rendered or not. */
  ghost predicate PlacedAt(at: map<string, Path>, facts: seq<Fact>, env: Env) {
    && (forall f :: f in facts ==> FactPath(f) in at && at[FactPath(f)] == DocPath(f, env.slug))
    && (forall p :: p in at ==> at[p] != [] && exists f :: f in facts && FactPath(f) == p)
  }

  /** The hub pages: file names by tag. */
  datatype Plan = Plan(domain: map<string, string>, entity: map<string, string>)

  function Tags(written: seq<string>, env: Env): seq<string> {
    Hubs.Tags(written, env.trim)
  }

  function DomainPage(plan: Plan, k: string): Path
    requires k in plan.domain
  {
    DOMAINS_DIR + [plan.domain[k]]
  }

  function EntityPage(plan: Plan, k: string): Path
    requires k in plan.entity
  {
    ENTITIES_DIR + [plan.entity[k]]
  }

  /** The hub pages of a fact's tags, where they have one. */
  function Related(f: Fact, plan: Plan, env: Env): set<Path> {
    (set k | k in Tags(f.domains, env) && k in plan.domain :: DomainPage(plan, k))
    + (set k | k in Tags(f.entities, env) && k in plan.entity :: EntityPage(plan, k))
  }

  /** f's refs, as a document lists them. */
  function Refs(f: Fact, env: Env): seq<string> {
    Hubs.Tags(f.refs, env.trim)
  }

  /** The facts a document's citations link. */
  function Cited(f: Fact, at: map<string, Path>, env: Env): set<Path> {
    set r | r in Refs(f, env) && Local(r, env.id) && Target(r, env.id) in at :: at[Target(r, env.id)]
  }

  /** g's refs name f by its bare path. */
  predicate CitesBare(g: Fact, f: Fact, env: Env) {
    IsPrefix("kb/", FactPath(f)) && FactPath(f) in Refs(g, env) && FactPath(g) != FactPath(f)
  }

  /** The facts listed as citing f. */
  function Citers(f: Fact, facts: seq<Fact>, env: Env): set<Path> {
    set g | g in facts && CitesBare(g, f, env) :: DocPath(g, env.slug)
  }

  function ConceptTargets(f: Fact, facts: seq<Fact>, at: map<string, Path>, plan: Plan, env: Env): set<Path> {
    Related(f, plan, env) + Cited(f, at, env) + Citers(f, facts, env)
  }

  // ---------- directories ----------

  ghost predicate OnTheWay(roots: set<Path>, d: Path, c: string) {
    exists r :: r in roots && d + [c] <= r
  }

  /** Each directory's children: those on the way to a registered directory. */
  ghost predicate Registered(subdirs: map<Path, set<string>>, roots: set<Path>) {
    && (forall d, c :: d in subdirs && c in subdirs[d] ==> OnTheWay(roots, d, c))
    && (forall d, c, r :: r in roots && d + [c] <= r ==> d in subdirs && c in subdirs[d])
    && (forall d :: d in subdirs ==> subdirs[d] != {})
  }

  /** The steps of `dir` from depth n on have been added to the children. */
  ghost predicate Climbed(subdirs: map<Path, set<string>>, next: map<Path, set<string>>, dir: Path, n: nat)
    requires n <= |dir|
  {
    && (forall e :: e in subdirs ==> e in next && subdirs[e] <= next[e])
    && (forall k :: n <= k < |dir| ==> dir[..k] in next && dir[k] in next[dir[..k]])
    && (forall e, c :: e in next && c in next[e] ==> (e in subdirs && c in subdirs[e]) || Step(dir, e, c))
    && (forall e :: e in next ==> next[e] != {})
  }

  predicate Step(dir: Path, e: Path, c: string) {
    |e| < |dir| && e == dir[..|e|] && c == dir[|e|]
  }

  lemma ClimbNext(subdirs: map<Path, set<string>>, next: map<Path, set<string>>, dir: Path, n: nat)
    requires 0 < n <= |dir| && Climbed(subdirs, next, dir, n)
    ensures var parent := dir[..n - 1];
            Climbed(subdirs, next[parent := (if parent in next then next[parent] else {}) + {dir[n - 1]}], dir, n - 1)
  {
  }

  lemma StepIsPrefix(dir: Path, e: Path, c: string)
    ensures Step(dir, e, c) <==> e + [c] <= dir
  {
    if e + [c] <= dir {
      assert (e + [c])[..|e|] == e && (e + [c])[|e|] == c;
      assert dir[..|e|] == e;
    }
    if Step(dir, e, c) {
      assert dir[..|e| + 1] == e + [c];
    }
  }

  // Walks up from a directory, registering each as a child of its parent.
  method RegisterDir(subdirs: map<Path, set<string>>, dir: Path, ghost roots: set<Path>) returns (next: map<Path, set<string>>)
    requires Registered(subdirs, roots)
    ensures Registered(next, roots + {dir})
  {
    hide Climbed;
    next := subdirs;
    var d := dir;
    ghost var n := |dir|;
    assert dir[..n] == dir;
    ClimbStarts(subdirs, dir, roots);
    while d != []
      invariant 0 <= n <= |dir| && d == dir[..n] && Climbed(subdirs, next, dir, n)
      decreases |d|
    {
      var parent, c := DirOf(d), d[|d| - 1];
      assert parent == dir[..n - 1] && c == dir[n - 1];
      ClimbNext(subdirs, next, dir, n);
      next := next[parent := (if parent in next then next[parent] else {}) + {c}];
      d := parent;
      n := n - 1;
    }
    RegisteredNext(subdirs, next, roots, dir);
  }

  lemma ClimbStarts(subdirs: map<Path, set<string>>, dir: Path, roots: set<Path>)
    requires Registered(subdirs, roots)
    ensures Climbed(subdirs, subdirs, dir, |dir|)
  {
  }

  lemma RegisteredNext(subdirs: map<Path, set<string>>, next: map<Path, set<string>>, roots: set<Path>, dir: Path)
    requires Registered(subdirs, roots) && Climbed(subdirs, next, dir, 0)
    ensures Registered(next, roots + {dir})
  {
    forall e, c | e in next && c in next[e]
      ensures OnTheWay(roots + {dir}, e, c)
    {
      ChildOnTheWay(subdirs, next, roots, dir, e, c);
    }
    forall e, c, r | r in roots + {dir} && e + [c] <= r
      ensures e in next && c in next[e]
    {
      WayRegistered(subdirs, next, roots, dir, e, c, r);
    }
    hide OnTheWay, Step;
  }

  lemma ChildOnTheWay(subdirs: map<Path, set<string>>, next: map<Path, set<string>>, roots: set<Path>, dir: Path, e: Path, c: string)
    requires Registered(subdirs, roots) && Climbed(subdirs, next, dir, 0) && e in next && c in next[e]
    ensures OnTheWay(roots + {dir}, e, c)
  {
    StepIsPrefix(dir, e, c);
    hide Step;
    if e in subdirs && c in subdirs[e] {
      assert OnTheWay(roots, e, c);
      var r :| r in roots && e + [c] <= r;
      assert r in roots + {dir};
    } else {
      assert dir in roots + {dir};
    }
  }

  lemma WayRegistered(subdirs: map<Path, set<string>>, next: map<Path, set<string>>, roots: set<Path>, dir: Path, e: Path, c: string, r: Path)
    requires Registered(subdirs, roots) && Climbed(subdirs, next, dir, 0) && r in roots + {dir} && e + [c] <= r
    ensures e in next && c in next[e]
  {
    if r == dir {
      StepIsPrefix(dir, e, c);
      assert dir[..|e|] in next;
    }
  }

  // ---------- placing and rendering ----------

  /** Pass 1: every fact's bundle path. */
  method Place(facts: seq<Fact>, env: Env) returns (at: map<string, Path>)
    requires WellPlaced(facts)
    ensures PlacedAt(at, facts, env)
  {
    at := map[];
    for i := 0 to |facts|
      invariant PlacedAt(at, facts[..i], env)
    {
      var f := facts[i];
      assert facts[..i + 1] == facts[..i] + [f];
      forall g | g in facts[..i]
        ensures FactPath(g) != FactPath(f)
      {
        var j :| 0 <= j < i && facts[j] == g;
      }
      ghost var before := at;
      at := at[FactPath(f) := DocPath(f, env.slug)];
      forall p | p in at
        ensures exists g :: g in facts[..i + 1] && FactPath(g) == p
      {
        if p in before {
          var g :| g in facts[..i] && FactPath(g) == p;
          assert g in facts[..i + 1];
        } else {
          assert f in facts[..i + 1];
        }
      }
    }
    assert facts[..|facts|] == facts;
  }

  function ConceptDoc(f: Fact, facts: seq<Fact>, at: map<string, Path>, plan: Plan, env: Env): Doc {
    LinksTo(f.dir, ConceptTargets(f, facts, at, plan, env) - {[]})
  }

  predicate Shows(some: seq<Fact>, f: Fact) {
    f in some && !f.fails
  }

  /** The rendered facts' documents. */
  ghost predicate Documents(docs: Files, some: seq<Fact>, facts: seq<Fact>, at: map<string, Path>, plan: Plan, env: Env) {
    && (forall p :: p in docs ==> exists f :: Shows(some, f) && DocPath(f, env.slug) == p)
    && (forall f :: Shows(some, f) ==> DocPath(f, env.slug) in docs && docs[DocPath(f, env.slug)] == ConceptDoc(f, facts, at, plan, env))
  }

  /** The directories that hold them, and their file names there. */
  ghost predicate Holding(concepts: map<Path, set<string>>, roots: set<Path>, some: seq<Fact>, env: Env) {
    && (forall d, n :: d in concepts && n in concepts[d] ==> exists f :: Shows(some, f) && f.dir == d && FileName(f, env.slug) == n)
    && (forall f :: Shows(some, f) ==> f.dir in concepts && FileName(f, env.slug) in concepts[f.dir])
    && (forall r :: r in roots ==> exists f :: Shows(some, f) && f.dir == r)
    && concepts.Keys == roots
  }

  lemma DocumentsNext(docs: Files, some: seq<Fact>, facts: seq<Fact>, at: map<string, Path>, plan: Plan, env: Env, f: Fact)
    requires Documents(docs, some, facts, at, plan, env) && FactId(f.base)
    requires forall g :: g in some ==> FactId(g.base) && FactPath(g) != FactPath(f)
    ensures Documents(if f.fails then docs else docs[DocPath(f, env.slug) := ConceptDoc(f, facts, at, plan, env)],
              some + [f], facts, at, plan, env)
  {
    hide ConceptDoc, DocPath, FactPath, FactId;
    var next := if f.fails then docs else docs[DocPath(f, env.slug) := ConceptDoc(f, facts, at, plan, env)];
    forall g | Shows(some + [f], g)
      ensures DocPath(g, env.slug) in next && next[DocPath(g, env.slug)] == ConceptDoc(g, facts, at, plan, env)
    {
      if g != f {
        assert Shows(some, g);
        DocPathsDistinct(g, f, env.slug);
      }
    }
    forall p | p in next
      ensures exists g :: Shows(some + [f], g) && DocPath(g, env.slug) == p
    {
      if p in docs {
        var g :| Shows(some, g) && DocPath(g, env.slug) == p;
        assert Shows(some + [f], g);
      } else {
        assert Shows(some + [f], f);
      }
    }
  }

  lemma HoldingNext(concepts: map<Path, set<string>>, roots: set<Path>, some: seq<Fact>, env: Env, f: Fact)
    requires Holding(concepts, roots, some, env)
    ensures f.fails ==> Holding(concepts, roots, some + [f], env)
    ensures !f.fails ==>
      Holding(concepts[f.dir := (if f.dir in concepts then concepts[f.dir] else {}) + {FileName(f, env.slug)}], roots + {f.dir}, some + [f], env)
  {
    hide FileName;
    assert forall g :: Shows(some, g) ==> Shows(some + [f], g);
    assert !f.fails ==> Shows(some + [f], f);
    assert forall g :: Shows(some + [f], g) ==> Shows(some, g) || g == f;
  }

  /** Pass 2: the rendered facts' documents. */
  method Render(facts: seq<Fact>, at: map<string, Path>, plan: Plan, env: Env)
      returns (docs: Files, concepts: map<Path, set<string>>, subdirs: map<Path, set<string>>, ghost roots: set<Path>)
    requires WellPlaced(facts) && PlacedAt(at, facts, env)
    ensures Documents(docs, facts, facts, at, plan, env)
    ensures Holding(concepts, roots, facts, env) && Registered(subdirs, roots)
  {
    docs, concepts, subdirs, roots := map[], map[], map[], {};
    for i := 0 to |facts|
      invariant Documents(docs, facts[..i], facts, at, plan, env)
      invariant Holding(concepts, roots, facts[..i], env) && Registered(subdirs, roots)
    {
      var f := facts[i];
      assert facts[..i + 1] == facts[..i] + [f];
      EarlierDiffer(facts, i);
      DocumentsNext(docs, facts[..i], facts, at, plan, env, f);
      HoldingNext(concepts, roots, facts[..i], env, f);
      hide Documents, Holding, Registered;
      if f.fails { continue; }
      docs := docs[DocPath(f, env.slug) := ConceptDoc(f, facts, at, plan, env)];
      concepts := concepts[f.dir := (if f.dir in concepts then concepts[f.dir] else {}) + {FileName(f, env.slug)}];
      subdirs := RegisterDir(subdirs, f.dir, roots);
      roots := roots + {f.dir};
    }
    assert facts[..|facts|] == facts;
  }

  lemma EarlierDiffer(facts: seq<Fact>, i: nat)
    requires WellPlaced(facts) && i < |facts|
    ensures FactId(facts[i].base) && forall g :: g in facts[..i] ==> FactId(g.base) && FactPath(g) != FactPath(facts[i])
  {
    hide FactPath, FactId;
    forall g | g in facts[..i]
      ensures FactId(g.base) && FactPath(g) != FactPath(facts[i])
    {
      var j :| 0 <= j < i && facts[j] == g;
    }
  }

  // ---------- hub pages ----------

  /** The facts' tags on one axis, fact by fact. */
  type TagLists = seq<seq<string>>

  ghost predicate TagListsOf(tags: TagLists, facts: seq<Fact>) {
    && |tags| == |facts|
    && forall i, j, k :: 0 <= i < |tags| && 0 <= j < k < |tags[i]| ==> tags[i][j] != tags[i][k]
  }

  /** The documents of the facts carrying a tag. */
  function Members(facts: seq<Fact>, tags: TagLists, k: string, env: Env): set<Path>
    requires |tags| == |facts|
  {
    set i | 0 <= i < |facts| && k in tags[i] :: DocPath(facts[i], env.slug)
  }

  /** The lines of an axis's index: its pages, and, where single facts are listed, those of the tags
      without a page that one fact carries. */
  ghost predicate Entry(t: Path, dir: Path, facts: seq<Fact>, tags: TagLists, pages: map<string, string>, singles: bool, env: Env)
    requires |tags| == |facts|
  {
    || (exists k :: k in pages && t == dir + [pages[k]])
    || (singles && exists k :: k !in pages && Hubs.Carriers(tags, k) == 1 && t in Members(facts, tags, k, env))
  }

  /** What one axis writes: a page for each planned tag, and an index of them when there is
      anything to list. */
  ghost predicate Emitted(files: Files, entries: set<Path>, dir: Path, facts: seq<Fact>, tags: TagLists,
                          pages: map<string, string>, singles: bool, env: Env)
    requires |tags| == |facts|
  {
    && (forall t :: t in entries <==> Entry(t, dir, facts, tags, pages, singles, env))
    && (forall p :: p in files ==> (p == dir + [INDEX] && entries != {}) || exists k :: k in pages && p == dir + [pages[k]])
    && (forall k :: k in pages ==> dir + [pages[k]] in files && files[dir + [pages[k]]] == HubDoc(dir, Members(facts, tags, k, env)))
    && (entries != {} ==> dir + [INDEX] in files && files[dir + [INDEX]] == HubDoc(dir, entries))
  }

  function HubDoc(dir: Path, targets: set<Path>): Doc {
    LinksTo(dir, targets - {[]})
  }

  ghost predicate PagesOf(pages: map<string, string>, tags: TagLists) {
    && (forall k :: k in pages ==> Hubs.Carriers(tags, k) > 0 && pages[k] != INDEX)
    && (forall k, l :: k in pages && l in pages && k != l ==> pages[k] != pages[l])
  }

  /** The pages and entries of the tags gone through so far. */
  ghost predicate EmittedSo(files: Files, entries: set<Path>, dir: Path, facts: seq<Fact>, tags: TagLists,
                            pages: map<string, string>, singles: bool, env: Env, done: set<string>)
    requires |tags| == |facts|
  {
    && (forall p :: p in files ==> exists k :: k in pages && k in done && p == dir + [pages[k]])
    && (forall k :: k in pages && k in done ==> dir + [pages[k]] in files && files[dir + [pages[k]]] == HubDoc(dir, Members(facts, tags, k, env)))
    && (forall t :: t in entries ==> EntryOf(t, dir, facts, tags, pages, singles, env, done))
    && (forall k :: k in pages && k in done ==> dir + [pages[k]] in entries)
    && (forall k :: singles && k !in pages && k in done && Hubs.Carriers(tags, k) == 1 ==> Members(facts, tags, k, env) <= entries)
  }

  ghost predicate EntryOf(t: Path, dir: Path, facts: seq<Fact>, tags: TagLists, pages: map<string, string>, singles: bool, env: Env, done: set<string>)
    requires |tags| == |facts|
  {
    || (exists k :: k in pages && k in done && t == dir + [pages[k]])
    || (singles && exists k :: k !in pages && k in done && Hubs.Carriers(tags, k) == 1 && t in Members(facts, tags, k, env))
  }

  lemma PagesDiffer(dir: Path, pages: map<string, string>, tags: TagLists, k: string, l: string)
    requires PagesOf(pages, tags) && k in pages && l in pages && dir + [pages[k]] == dir + [pages[l]]
    ensures k == l
  {
    assert (dir + [pages[k]])[|dir|] == (dir + [pages[l]])[|dir|];
  }

  lemma EntryLater(t: Path, dir: Path, facts: seq<Fact>, tags: TagLists, pages: map<string, string>, singles: bool, env: Env,
                   done: set<string>, later: set<string>)
    requires |tags| == |facts| && EntryOf(t, dir, facts, tags, pages, singles, env, done) && done <= later
    ensures EntryOf(t, dir, facts, tags, pages, singles, env, later)
  {
    hide Members;
  }

  lemma PageFilesNext(files: Files, dir: Path, facts: seq<Fact>, tags: TagLists, pages: map<string, string>, env: Env,
                      done: set<string>, k: string)
    requires |tags| == |facts| && PagesOf(pages, tags) && k in pages && k !in done
    requires forall l :: l in pages && l in done ==> dir + [pages[l]] in files && files[dir + [pages[l]]] == HubDoc(dir, Members(facts, tags, l, env))
    ensures var next := files[dir + [pages[k]] := HubDoc(dir, Members(facts, tags, k, env))];
            forall l :: l in pages && l in done + {k} ==>
              dir + [pages[l]] in next && next[dir + [pages[l]]] == HubDoc(dir, Members(facts, tags, l, env))
  {
    hide Members, HubDoc;
    forall l | l in pages && l in done
      ensures dir + [pages[l]] != dir + [pages[k]]
    {
      if dir + [pages[l]] == dir + [pages[k]] { PagesDiffer(dir, pages, tags, k, l); assert false; }
    }
  }

  lemma PageNext(files: Files, entries: set<Path>, dir: Path, facts: seq<Fact>, tags: TagLists,
                 pages: map<string, string>, singles: bool, env: Env, done: set<string>, k: string)
    requires |tags| == |facts| && PagesOf(pages, tags) && k in pages && k !in done
    requires EmittedSo(files, entries, dir, facts, tags, pages, singles, env, done)
    ensures EmittedSo(files[dir + [pages[k]] := HubDoc(dir, Members(facts, tags, k, env))], entries + {dir + [pages[k]]},
              dir, facts, tags, pages, singles, env, done + {k})
  {
    hide Members, HubDoc, PagesOf;
    PageFilesNext(files, dir, facts, tags, pages, env, done, k);
    forall t | t in entries + {dir + [pages[k]]}
      ensures EntryOf(t, dir, facts, tags, pages, singles, env, done + {k})
    {
      if t in entries { EntryLater(t, dir, facts, tags, pages, singles, env, done, done + {k}); }
    }
  }

  lemma SingleEntriesNext(entries: set<Path>, dir: Path, facts: seq<Fact>, tags: TagLists,
                          pages: map<string, string>, singles: bool, env: Env, done: set<string>, k: string, t: Path)
    requires |tags| == |facts| && k !in pages
    requires forall t' :: t' in entries ==> EntryOf(t', dir, facts, tags, pages, singles, env, done)
    requires t in entries || (singles && Hubs.Carriers(tags, k) == 1 && t in Members(facts, tags, k, env))
    ensures EntryOf(t, dir, facts, tags, pages, singles, env, done + {k})
  {
    hide Members;
    if t in entries { EntryLater(t, dir, facts, tags, pages, singles, env, done, done + {k}); }
  }

  lemma SingleNext(files: Files, entries: set<Path>, dir: Path, facts: seq<Fact>, tags: TagLists,
                   pages: map<string, string>, singles: bool, env: Env, done: set<string>, k: string)
    requires |tags| == |facts| && k !in pages && EmittedSo(files, entries, dir, facts, tags, pages, singles, env, done)
    ensures EmittedSo(files,
              if singles && Hubs.Carriers(tags, k) == 1 then entries + Members(facts, tags, k, env) else entries,
              dir, facts, tags, pages, singles, env, done + {k})
  {
    hide Members, HubDoc, Hubs.Carriers, EntryOf;
    var next := if singles && Hubs.Carriers(tags, k) == 1 then entries + Members(facts, tags, k, env) else entries;
    forall t | t in next
      ensures EntryOf(t, dir, facts, tags, pages, singles, env, done + {k})
    {
      SingleEntriesNext(entries, dir, facts, tags, pages, singles, env, done, k, t);
    }
    forall p | p in files
      ensures exists l :: l in pages && l in done + {k} && p == dir + [pages[l]]
    {
      var l :| l in pages && l in done && p == dir + [pages[l]];
      assert l in done + {k};
    }
  }

  // One axis of hub pages, tag by tag in order.
  method Emit(dir: Path, facts: seq<Fact>, tags: TagLists, pages: map<string, string>, singles: bool, env: Env)
      returns (files: Files, entries: set<Path>)
    requires TagListsOf(tags, facts) && PagesOf(pages, tags)
    ensures Emitted(files, entries, dir, facts, tags, pages, singles, env)
  {
    var counts := Hubs.CountTags(tags);
    var keys := Sorting.SortedKeys(counts.Keys);
    files, entries := map[], {};
    ghost var done: set<string> := {};
    for i := 0 to |keys|
      invariant forall k :: k in done <==> k in keys[..i]
      invariant EmittedSo(files, entries, dir, facts, tags, pages, singles, env, done)
    {
      var k := keys[i];
      assert keys[..i + 1] == keys[..i] + [k] && k !in done;
      hide EmittedSo, Members, HubDoc, TagListsOf, PagesOf;
      if k in pages {
        PageNext(files, entries, dir, facts, tags, pages, singles, env, done, k);
        files := files[dir + [pages[k]] := HubDoc(dir, Members(facts, tags, k, env))];
        entries := entries + {dir + [pages[k]]};
      } else {
        SingleNext(files, entries, dir, facts, tags, pages, singles, env, done, k);
        if singles && counts[k] == 1 { entries := entries + Members(facts, tags, k, env); }
      }
      done := done + {k};
    }
    assert keys[..|keys|] == keys;
    EmittedAll(files, entries, dir, facts, tags, pages, singles, env, done);
    if entries != {} { files := files[dir + [INDEX] := HubDoc(dir, entries)]; }
  }

  lemma EntriesAll(files: Files, entries: set<Path>, dir: Path, facts: seq<Fact>, tags: TagLists,
                   pages: map<string, string>, singles: bool, env: Env, done: set<string>, t: Path)
    requires |tags| == |facts| && EmittedSo(files, entries, dir, facts, tags, pages, singles, env, done)
    requires (forall k :: k in pages ==> k in done) && forall k :: Hubs.Carriers(tags, k) > 0 ==> k in done
    ensures t in entries <==> Entry(t, dir, facts, tags, pages, singles, env)
  {
    hide Members, HubDoc;
    if t in entries { assert EntryOf(t, dir, facts, tags, pages, singles, env, done); }
  }

  lemma PagesNotIndex(dir: Path, pages: map<string, string>, tags: TagLists, k: string)
    requires PagesOf(pages, tags) && k in pages
    ensures dir + [pages[k]] != dir + [INDEX] && Hubs.Carriers(tags, k) > 0
  {
    assert (dir + [pages[k]])[|dir|] == pages[k] && (dir + [INDEX])[|dir|] == INDEX;
  }

  lemma FilesAll(files: Files, entries: set<Path>, dir: Path, facts: seq<Fact>, tags: TagLists,
                 pages: map<string, string>, singles: bool, env: Env, done: set<string>)
    requires |tags| == |facts| && PagesOf(pages, tags) && EmittedSo(files, entries, dir, facts, tags, pages, singles, env, done)
    requires forall k :: k in pages ==> k in done
    ensures var next := if entries != {} then files[dir + [INDEX] := HubDoc(dir, entries)] else files;
            && (forall p :: p in next ==> (p == dir + [INDEX] && entries != {}) || exists k :: k in pages && p == dir + [pages[k]])
            && (forall k :: k in pages ==> dir + [pages[k]] in next && next[dir + [pages[k]]] == HubDoc(dir, Members(facts, tags, k, env)))
  {
    hide Members, HubDoc, EntryOf, PagesOf;
    forall k | k in pages
      ensures dir + [pages[k]] != dir + [INDEX]
    {
      PagesNotIndex(dir, pages, tags, k);
    }
  }

  lemma EmittedAll(files: Files, entries: set<Path>, dir: Path, facts: seq<Fact>, tags: TagLists,
                   pages: map<string, string>, singles: bool, env: Env, done: set<string>)
    requires |tags| == |facts| && PagesOf(pages, tags) && EmittedSo(files, entries, dir, facts, tags, pages, singles, env, done)
    requires forall k :: k in done <==> Hubs.Carriers(tags, k) > 0
    ensures Emitted(if entries != {} then files[dir + [INDEX] := HubDoc(dir, entries)] else files, entries, dir, facts, tags, pages, singles, env)
  {
    hide Members, HubDoc, PagesOf, Entry, EntryOf, EmittedSo;
    forall k | k in pages
      ensures k in done
    {
      PagesNotIndex(dir, pages, tags, k);
    }
    FilesAll(files, entries, dir, facts, tags, pages, singles, env, done);
    forall t
      ensures t in entries <==> Entry(t, dir, facts, tags, pages, singles, env)
    {
      EntriesAll(files, entries, dir, facts, tags, pages, singles, env, done, t);
    }
  }

  // ---------- digests, withdrawals, the views' index ----------

  /** The single-file views: the leaf types collected, and their files. */
  const DIGESTS: seq<(string, string)> :=
    [("synthesis", "synthesis.md"), ("hypothesis", "hypotheses.md"), ("methodology", "methodology.md")]

  function OfLeaf(facts: seq<Fact>, leaf: string, env: Env): set<Path> {
    set f | f in facts && f.leaf == leaf :: DocPath(f, env.slug)
  }

  function DigestPath(i: nat): Path
    requires i < |DIGESTS|
  {
    [VIEWS, DIGESTS[i].1]
  }

  ghost predicate Digested(files: Files, facts: seq<Fact>, env: Env, n: nat)
    requires n <= |DIGESTS|
  {
    && (forall p :: p in files ==> exists i :: 0 <= i < n && p == DigestPath(i) && OfLeaf(facts, DIGESTS[i].0, env) != {})
    && (forall i :: 0 <= i < n && OfLeaf(facts, DIGESTS[i].0, env) != {} ==>
          DigestPath(i) in files && files[DigestPath(i)] == HubDoc([VIEWS], OfLeaf(facts, DIGESTS[i].0, env)))
  }

  method BuildDigests(facts: seq<Fact>, env: Env) returns (files: Files)
    ensures Digested(files, facts, env, |DIGESTS|)
  {
    files := map[];
    for i := 0 to |DIGESTS|
      invariant Digested(files, facts, env, i)
    {
      var members := OfLeaf(facts, DIGESTS[i].0, env);
      DigestNext(files, facts, env, i);
      if members != {} { files := files[DigestPath(i) := HubDoc([VIEWS], members)]; }
    }
  }

  lemma DigestNext(files: Files, facts: seq<Fact>, env: Env, i: nat)
    requires i < |DIGESTS| && Digested(files, facts, env, i)
    ensures var members := OfLeaf(facts, DIGESTS[i].0, env);
            Digested(if members != {} then files[DigestPath(i) := HubDoc([VIEWS], members)] else files, facts, env, i + 1)
  {
    hide HubDoc, OfLeaf;
    forall j | 0 <= j < i
      ensures DigestPath(j) != DigestPath(i)
    {
      assert DIGESTS[j].1 != DIGESTS[i].1;
    }
  }

  /** What the page of withdrawals links: the replacements that have a bundle path. */
  function Successors(retired: seq<Retired>, at: map<string, Path>): set<Path> {
    set r | r in retired && r.superseded && r.successor in at :: at[r.successor]
  }

  /** The directories under views/ that hold files. */
  function ViewDirs(files: Files): set<string> {
    set p | p in files && |p| >= 3 && p[0] == VIEWS :: p[1]
  }

  /** What the views' index links: each directory's index, and each single-file page. */
  function ViewTargets(files: Files, pages: set<Path>): set<Path> {
    (set d | d in ViewDirs(files) :: [VIEWS, d, INDEX]) + pages
  }

  // ---------- the views together ----------

  /** What the views are made from. */
  datatype Input = Input(facts: seq<Fact>, dtags: TagLists, etags: TagLists, plan: Plan, retired: seq<Retired>, at: map<string, Path>, env: Env)

  ghost predicate GoodInput(x: Input) {
    && WellPlaced(x.facts) && PlacedAt(x.at, x.facts, x.env)
    && TagListsOf(x.dtags, x.facts) && TagListsOf(x.etags, x.facts)
    && PagesOf(x.plan.domain, x.dtags) && PagesOf(x.plan.entity, x.etags)
  }

  /** The i-th fact is linked from the views: by a page of one of its tags, alone on the domain
      index, by a digest of its type, or as a replacement. */
  ghost predicate InViews(x: Input, i: nat)
    requires i < |x.facts| && |x.dtags| == |x.etags| == |x.facts|
  {
    || (exists k :: k in x.dtags[i] && (k in x.plan.domain || Hubs.Carriers(x.dtags, k) == 1))
    || (exists k :: k in x.etags[i] && k in x.plan.entity)
    || (exists j :: 0 <= j < |DIGESTS| && DIGESTS[j].0 == x.facts[i].leaf)
    || Succeeds(x.retired, FactPath(x.facts[i]))
  }

  ghost predicate Succeeds(retired: seq<Retired>, path: string) {
    exists r :: r in retired && r.superseded && r.successor == path
  }

  ghost predicate Mentions(x: Input, t: Path)
    requires |x.dtags| == |x.etags| == |x.facts|
  {
    exists i :: 0 <= i < |x.facts| && InViews(x, i) && t == DocPath(x.facts[i], x.env.slug)
  }

  /** A document at p that links files among `keys` and mentioned facts, and nothing else. */
  ghost predicate Links(x: Input, p: Path, doc: Doc, targets: set<Path>, keys: set<Path>)
    requires |x.dtags| == |x.etags| == |x.facts|
  {
    p != [] && doc == HubDoc(DirOf(p), targets) && forall t :: t in targets ==> t in keys || Mentions(x, t)
  }

  /** Every document links only files of the set, or mentioned facts. */
  ghost predicate Closed(x: Input, files: Files, keys: set<Path>)
    requires |x.dtags| == |x.etags| == |x.facts|
  {
    forall p :: p in files ==> exists targets :: Links(x, p, files[p], targets, keys)
  }

  /** Some document links t. */
  ghost predicate LinkedFrom(files: Files, t: Path) {
    exists p, targets :: LinkedBy(files, t, p, targets)
  }

  ghost predicate LinkedBy(files: Files, t: Path, p: Path, targets: set<Path>) {
    p in files && p != [] && files[p] == HubDoc(DirOf(p), targets) && t in targets
  }

  lemma MemberMentioned(x: Input, k: string, t: Path)
    requires GoodInput(x) && (k in x.plan.domain || Hubs.Carriers(x.dtags, k) == 1) && t in Members(x.facts, x.dtags, k, x.env)
    ensures Mentions(x, t)
  {
    var i :| 0 <= i < |x.facts| && k in x.dtags[i] && t == DocPath(x.facts[i], x.env.slug);
    assert InViews(x, i);
  }

  lemma EntityMentioned(x: Input, k: string, t: Path)
    requires GoodInput(x) && k in x.plan.entity && t in Members(x.facts, x.etags, k, x.env)
    ensures Mentions(x, t)
  {
    var i :| 0 <= i < |x.facts| && k in x.etags[i] && t == DocPath(x.facts[i], x.env.slug);
    assert InViews(x, i);
  }

  lemma DomainsClosed(x: Input, files: Files, entries: set<Path>)
    requires GoodInput(x) && Emitted(files, entries, DOMAINS_DIR, x.facts, x.dtags, x.plan.domain, true, x.env)
    ensures Closed(x, files, files.Keys)
  {
    hide GoodInput, Members, HubDoc, InViews, Mentions;
    GoodFacts(x);
    forall p | p in files
      ensures exists targets :: Links(x, p, files[p], targets, files.Keys)
    {
      if p == DOMAINS_DIR + [INDEX] && entries != {} {
        forall t | t in entries
          ensures t in files.Keys || Mentions(x, t)
        {
          assert Entry(t, DOMAINS_DIR, x.facts, x.dtags, x.plan.domain, true, x.env);
          if !(exists k :: k in x.plan.domain && t == DOMAINS_DIR + [x.plan.domain[k]]) {
            var k :| k !in x.plan.domain && Hubs.Carriers(x.dtags, k) == 1 && t in Members(x.facts, x.dtags, k, x.env);
            MemberMentioned(x, k, t);
          }
        }
        assert Links(x, p, files[p], entries, files.Keys);
      } else {
        var k :| k in x.plan.domain && p == DOMAINS_DIR + [x.plan.domain[k]];
        forall t | t in Members(x.facts, x.dtags, k, x.env)
          ensures Mentions(x, t)
        {
          MemberMentioned(x, k, t);
        }
        assert Links(x, p, files[p], Members(x.facts, x.dtags, k, x.env), files.Keys);
      }
    }
  }

  lemma GoodFacts(x: Input)
    requires GoodInput(x)
    ensures |x.dtags| == |x.etags| == |x.facts|
  {
  }

  lemma EntitiesClosed(x: Input, files: Files, entries: set<Path>)
    requires GoodInput(x) && Emitted(files, entries, ENTITIES_DIR, x.facts, x.etags, x.plan.entity, false, x.env)
    ensures Closed(x, files, files.Keys)
  {
    hide GoodInput, Members, HubDoc, InViews, Mentions;
    GoodFacts(x);
    forall p | p in files
      ensures exists targets :: Links(x, p, files[p], targets, files.Keys)
    {
      if p == ENTITIES_DIR + [INDEX] && entries != {} {
        assert forall t :: t in entries ==> Entry(t, ENTITIES_DIR, x.facts, x.etags, x.plan.entity, false, x.env);
        assert Links(x, p, files[p], entries, files.Keys);
      } else {
        var k :| k in x.plan.entity && p == ENTITIES_DIR + [x.plan.entity[k]];
        forall t | t in Members(x.facts, x.etags, k, x.env)
          ensures Mentions(x, t)
        {
          EntityMentioned(x, k, t);
        }
        assert Links(x, p, files[p], Members(x.facts, x.etags, k, x.env), files.Keys);
      }
    }
  }

  lemma LeafMentioned(x: Input, j: nat, t: Path)
    requires |x.dtags| == |x.etags| == |x.facts| && j < |DIGESTS| && t in OfLeaf(x.facts, DIGESTS[j].0, x.env)
    ensures Mentions(x, t)
  {
    hide DocPath;
    var f :| f in x.facts && f.leaf == DIGESTS[j].0 && t == DocPath(f, x.env.slug);
    var i :| 0 <= i < |x.facts| && x.facts[i] == f;
    assert InViews(x, i);
  }

  lemma DigestsClosed(x: Input, files: Files)
    requires GoodInput(x) && Digested(files, x.facts, x.env, |DIGESTS|)
    ensures Closed(x, files, {})
  {
    GoodFacts(x);
    hide GoodInput, HubDoc, Links, Mentions, OfLeaf;
    forall p | p in files
      ensures exists targets :: Links(x, p, files[p], targets, {})
    {
      var j :| 0 <= j < |DIGESTS| && p == DigestPath(j) && OfLeaf(x.facts, DIGESTS[j].0, x.env) != {};
      DigestClosed(x, files, j);
    }
  }

  lemma DigestClosed(x: Input, files: Files, j: nat)
    requires |x.dtags| == |x.etags| == |x.facts| && j < |DIGESTS| && DigestPath(j) in files
    requires files[DigestPath(j)] == HubDoc([VIEWS], OfLeaf(x.facts, DIGESTS[j].0, x.env))
    ensures Links(x, DigestPath(j), files[DigestPath(j)], OfLeaf(x.facts, DIGESTS[j].0, x.env), {})
  {
    hide HubDoc, Mentions, OfLeaf;
    forall t | t in OfLeaf(x.facts, DIGESTS[j].0, x.env) ensures Mentions(x, t) {
      LeafMentioned(x, j, t);
    }
    assert DirOf(DigestPath(j)) == [VIEWS];
  }

  lemma SuccessorsMentioned(x: Input)
    requires GoodInput(x)
    ensures |x.dtags| == |x.etags| == |x.facts| && forall t :: t in Successors(x.retired, x.at) ==> Mentions(x, t)
  {
    forall t | t in Successors(x.retired, x.at)
      ensures Mentions(x, t)
    {
      var r :| r in x.retired && r.superseded && r.successor in x.at && t == x.at[r.successor];
      var f :| f in x.facts && FactPath(f) == r.successor;
      var i :| 0 <= i < |x.facts| && x.facts[i] == f;
      assert Succeeds(x.retired, FactPath(x.facts[i]));
      assert InViews(x, i);
    }
  }

  /** Where the views' files are. */
  ghost predicate ViewPath(p: Path) {
    && (|p| == 2 || |p| == 3) && p[0] == VIEWS
    && (|p| == 3 ==> p[1] == DOMAINS || p[1] == ENTITIES)
  }

  /** The views there can be: the tags' pages and their indexes, the digests, the retired page, and the
      index of them all. */
  ghost predicate ViewNamed(plan: Plan, p: Path) {
    || p == [VIEWS, INDEX] || p == [VIEWS, RETIRED] || p == DOMAINS_DIR + [INDEX] || p == ENTITIES_DIR + [INDEX]
    || (exists i :: 0 <= i < |DIGESTS| && p == DigestPath(i))
    || (exists k :: k in plan.domain && p == DomainPage(plan, k))
    || (exists k :: k in plan.entity && p == EntityPage(plan, k))
  }

  ghost predicate UnderAxis(files: Files, axis: string) {
    && (forall p :: p in files ==> |p| == 3 && p[0] == VIEWS && p[1] == axis)
    && (files.Keys != {} ==> [VIEWS, axis, INDEX] in files)
  }

  lemma AxisFiles(files: Files, entries: set<Path>, axis: string, facts: seq<Fact>, tags: TagLists,
                  pages: map<string, string>, singles: bool, env: Env)
    requires |tags| == |facts| && Emitted(files, entries, [VIEWS, axis], facts, tags, pages, singles, env)
    ensures UnderAxis(files, axis)
  {
    hide Members, HubDoc;
    var dir := [VIEWS, axis];
    assert dir + [INDEX] == [VIEWS, axis, INDEX];
    forall p | p in files
      ensures |p| == 3 && p[0] == VIEWS && p[1] == axis && entries != {}
    {
      if !(p == dir + [INDEX] && entries != {}) {
        var k :| k in pages && p == dir + [pages[k]];
        assert Entry(p, dir, facts, tags, pages, singles, env);
        assert p in entries;
      }
    }
  }

  /** The parts the views are put together from. */
  ghost predicate Parts(x: Input, domains: Files, entities: Files, digests: Files)
    requires GoodInput(x)
  {
    && UnderAxis(domains, DOMAINS) && UnderAxis(entities, ENTITIES)
    && Closed(x, domains, domains.Keys) && Closed(x, entities, entities.Keys) && Closed(x, digests, {})
    && (forall p :: p in digests ==> exists j :: 0 <= j < |DIGESTS| && p == DigestPath(j))
  }

  function WithRetired(files: Files, x: Input): Files {
    if x.retired == [] then files else files[[VIEWS, RETIRED] := HubDoc([VIEWS], Successors(x.retired, x.at))]
  }

  /** The single-file views' paths. */
  function SinglePages(digests: Files, x: Input): set<Path> {
    digests.Keys + if x.retired == [] then {} else {[VIEWS, RETIRED]}
  }

  function WithIndex(files: Files, pages: set<Path>): Files {
    if files.Keys == {} then files else files[[VIEWS, INDEX] := HubDoc([VIEWS], ViewTargets(files, pages))]
  }

  /** All the files under views/. */
  function Views(domains: Files, entities: Files, digests: Files, x: Input): Files {
    WithIndex(WithRetired(domains + entities + digests, x), SinglePages(digests, x))
  }

  lemma UnionAt(a: Files, b: Files, c: Files, p: Path)
    requires !(p in a && p in b) && !(p in a && p in c) && !(p in b && p in c)
    ensures p in a + b + c <==> p in a || p in b || p in c
    ensures (p in a ==> (a + b + c)[p] == a[p]) && (p in b ==> (a + b + c)[p] == b[p]) && (p in c ==> (a + b + c)[p] == c[p])
  {
  }

  lemma PartsApart(x: Input, domains: Files, entities: Files, digests: Files, p: Path)
    requires GoodInput(x) && Parts(x, domains, entities, digests)
    ensures !(p in domains && p in entities) && !(p in domains && p in digests) && !(p in entities && p in digests)
    ensures p in domains || p in entities ==> ViewPath(p) && p != [VIEWS, INDEX] && p != [VIEWS, RETIRED]
    ensures p in digests ==> ViewPath(p) && p != [VIEWS, INDEX] && p != [VIEWS, RETIRED]
  {
    hide Closed, GoodInput;
    if p in digests {
      var j :| 0 <= j < |DIGESTS| && p == DigestPath(j);
      assert p[1] == DIGESTS[j].1;
    }
    assert [VIEWS, INDEX][1] == INDEX && [VIEWS, RETIRED][1] == RETIRED;
  }

  lemma RetiredAt(files: Files, x: Input, p: Path)
    ensures var next := WithRetired(files, x);
            && (p in next <==> p in files || (x.retired != [] && p == [VIEWS, RETIRED]))
            && (p in files && p != [VIEWS, RETIRED] ==> next[p] == files[p])
            && (x.retired != [] ==> [VIEWS, RETIRED] in next && next[[VIEWS, RETIRED]] == HubDoc([VIEWS], Successors(x.retired, x.at)))
  {
    hide HubDoc, Successors;
  }

  lemma IndexAt(files: Files, pages: set<Path>, p: Path)
    ensures var next := WithIndex(files, pages);
            && (p in files ==> p in next && [VIEWS, INDEX] in next)
            && (p in next ==> p in files || p == [VIEWS, INDEX])
            && (p in next ==> [VIEWS, INDEX] in next && next[[VIEWS, INDEX]] == HubDoc([VIEWS], ViewTargets(files, pages)))
            && (p in files && p != [VIEWS, INDEX] ==> next[p] == files[p])
  {
    hide HubDoc, ViewTargets;
    assert p in files ==> files.Keys != {};
  }

  lemma PartAt(x: Input, domains: Files, entities: Files, digests: Files, p: Path)
    requires GoodInput(x) && Parts(x, domains, entities, digests)
    ensures var views := Views(domains, entities, digests, x);
            && (p in domains || p in entities || p in digests || (x.retired != [] && p == [VIEWS, RETIRED]) ==> p in views)
            && (p in views ==> p in domains || p in entities || p in digests || (x.retired != [] && p == [VIEWS, RETIRED]) || p == [VIEWS, INDEX])
            && (p in domains ==> views[p] == domains[p]) && (p in entities ==> views[p] == entities[p])
            && (p in digests ==> views[p] == digests[p])
            && (x.retired != [] && p == [VIEWS, RETIRED] ==> views[p] == HubDoc([VIEWS], Successors(x.retired, x.at)))
            && (p in views ==> ViewPath(p) && [VIEWS, INDEX] in views)
  {
    hide Parts, HubDoc, GoodInput, ViewTargets, SinglePages, Successors, WithRetired, WithIndex;
    PartsApart(x, domains, entities, digests, p);
    UnionAt(domains, entities, digests, p);
    var u := domains + entities + digests;
    RetiredAt(u, x, p);
    IndexAt(WithRetired(u, x), SinglePages(digests, x), p);
    assert [VIEWS, INDEX][1] == INDEX && [VIEWS, RETIRED][1] == RETIRED;
  }

  lemma LinksMore(x: Input, p: Path, doc: Doc, targets: set<Path>, keys: set<Path>, more: set<Path>)
    requires |x.dtags| == |x.etags| == |x.facts| && Links(x, p, doc, targets, keys) && keys <= more
    ensures Links(x, p, doc, targets, more)
  {
    hide HubDoc;
  }

  lemma ClosedPart(x: Input, part: Files, keys: set<Path>, views: Files, p: Path)
    requires |x.dtags| == |x.etags| == |x.facts| && Closed(x, part, keys) && keys <= views.Keys
    requires p in part && p in views && views[p] == part[p]
    ensures exists targets :: Links(x, p, views[p], targets, views.Keys)
  {
    hide Links;
    var targets :| Links(x, p, part[p], targets, keys);
    LinksMore(x, p, part[p], targets, keys, views.Keys);
  }

  lemma ViewsClosed(x: Input, domains: Files, entities: Files, digests: Files)
    requires GoodInput(x) && Parts(x, domains, entities, digests)
    ensures var views := Views(domains, entities, digests, x); Closed(x, views, views.Keys)
  {
    GoodFacts(x);
    var views := Views(domains, entities, digests, x);
    hide GoodInput, Views, Links, HubDoc;
    assert domains.Keys <= views.Keys && entities.Keys <= views.Keys by {
      forall p | p in domains || p in entities ensures p in views { PartAt(x, domains, entities, digests, p); }
    }
    forall p | p in views
      ensures exists targets :: Links(x, p, views[p], targets, views.Keys)
    {
      PartAt(x, domains, entities, digests, p);
      if p in domains { ClosedPart(x, domains, domains.Keys, views, p); }
      else if p in entities { ClosedPart(x, entities, entities.Keys, views, p); }
      else if p in digests { ClosedPart(x, digests, {}, views, p); }
      else if x.retired != [] && p == [VIEWS, RETIRED] { RetiredClosed(x, views, p); }
      else { IndexClosed(x, domains, entities, digests, p); }
    }
  }

  lemma RetiredClosed(x: Input, views: Files, p: Path)
    requires GoodInput(x) && |x.dtags| == |x.etags| == |x.facts|
    requires p == [VIEWS, RETIRED] && p in views && views[p] == HubDoc([VIEWS], Successors(x.retired, x.at))
    ensures exists targets :: Links(x, p, views[p], targets, views.Keys)
  {
    SuccessorsMentioned(x);
    hide HubDoc, Successors, GoodInput;
    assert DirOf(p) == [VIEWS];
    assert Links(x, p, views[p], Successors(x.retired, x.at), views.Keys);
  }

  lemma IndexClosed(x: Input, domains: Files, entities: Files, digests: Files, p: Path)
    requires GoodInput(x) && |x.dtags| == |x.etags| == |x.facts| && Parts(x, domains, entities, digests)
    requires var views := Views(domains, entities, digests, x); p == [VIEWS, INDEX] && p in views
    ensures var views := Views(domains, entities, digests, x); exists targets :: Links(x, p, views[p], targets, views.Keys)
  {
    var views := Views(domains, entities, digests, x);
    var files, pages := WithRetired(domains + entities + digests, x), SinglePages(digests, x);
    IndexAt(files, pages, p);
    hide GoodInput, HubDoc;
    var targets := ViewTargets(files, pages);
    forall t | t in targets
      ensures t in views
    {
      ViewTargetIn(x, domains, entities, digests, t);
    }
    assert DirOf(p) == [VIEWS];
    assert Links(x, p, views[p], targets, views.Keys);
  }

  lemma ViewTargetIn(x: Input, domains: Files, entities: Files, digests: Files, t: Path)
    requires GoodInput(x) && Parts(x, domains, entities, digests)
    requires t in ViewTargets(WithRetired(domains + entities + digests, x), SinglePages(digests, x))
    ensures t in Views(domains, entities, digests, x)
  {
    hide GoodInput, HubDoc, Closed, Views;
    PartAt(x, domains, entities, digests, t);
    var files := WithRetired(domains + entities + digests, x);
    if t !in SinglePages(digests, x) {
      var d :| d in ViewDirs(files) && t == [VIEWS, d, INDEX];
      var p :| p in files && |p| >= 3 && p[0] == VIEWS && p[1] == d;
      RetiredAt(domains + entities + digests, x, p);
      PartsApart(x, domains, entities, digests, p);
      UnionAt(domains, entities, digests, p);
      assert p in domains || p in entities;
    }
  }

  // ---------- everything mentioned is linked ----------

  lemma LinkedInPart(x: Input, domains: Files, entities: Files, digests: Files, part: Files, t: Path, p: Path, targets: set<Path>)
    requires GoodInput(x) && Parts(x, domains, entities, digests) && LinkedBy(part, t, p, targets)
    requires part == domains || part == entities || part == digests
    ensures LinkedFrom(Views(domains, entities, digests, x), t)
  {
    PartAt(x, domains, entities, digests, p);
    hide GoodInput, Parts, Views, HubDoc;
    assert LinkedBy(Views(domains, entities, digests, x), t, p, targets);
  }

  lemma DomainLinked(x: Input, domains: Files, entries: set<Path>, i: nat, k: string) returns (p: Path, targets: set<Path>)
    requires GoodInput(x) && Emitted(domains, entries, DOMAINS_DIR, x.facts, x.dtags, x.plan.domain, true, x.env)
    requires i < |x.facts| && k in x.dtags[i] && (k in x.plan.domain || Hubs.Carriers(x.dtags, k) == 1)
    ensures LinkedBy(domains, DocPath(x.facts[i], x.env.slug), p, targets)
  {
    var t := DocPath(x.facts[i], x.env.slug);
    assert t in Members(x.facts, x.dtags, k, x.env);
    hide GoodInput, HubDoc, Members;
    if k in x.plan.domain {
      p, targets := DOMAINS_DIR + [x.plan.domain[k]], Members(x.facts, x.dtags, k, x.env);
    } else {
      assert Entry(t, DOMAINS_DIR, x.facts, x.dtags, x.plan.domain, true, x.env);
      p, targets := DOMAINS_DIR + [INDEX], entries;
    }
    assert DirOf(p) == DOMAINS_DIR;
  }

  lemma EntityLinked(x: Input, entities: Files, entries: set<Path>, i: nat, k: string) returns (p: Path, targets: set<Path>)
    requires GoodInput(x) && Emitted(entities, entries, ENTITIES_DIR, x.facts, x.etags, x.plan.entity, false, x.env)
    requires i < |x.facts| && k in x.etags[i] && k in x.plan.entity
    ensures LinkedBy(entities, DocPath(x.facts[i], x.env.slug), p, targets)
  {
    assert DocPath(x.facts[i], x.env.slug) in Members(x.facts, x.etags, k, x.env);
    hide GoodInput, HubDoc, Members;
    p, targets := ENTITIES_DIR + [x.plan.entity[k]], Members(x.facts, x.etags, k, x.env);
    assert DirOf(p) == ENTITIES_DIR;
  }

  lemma DigestLinked(x: Input, digests: Files, i: nat, j: nat) returns (p: Path, targets: set<Path>)
    requires Digested(digests, x.facts, x.env, |DIGESTS|)
    requires i < |x.facts| && j < |DIGESTS| && DIGESTS[j].0 == x.facts[i].leaf
    ensures LinkedBy(digests, DocPath(x.facts[i], x.env.slug), p, targets)
  {
    p, targets := DigestPath(j), OfLeaf(x.facts, DIGESTS[j].0, x.env);
    LeafIn(x.facts, i, DIGESTS[j].0, x.env);
    hide HubDoc, OfLeaf, DocPath;
    assert DirOf(p) == [VIEWS];
  }

  lemma LeafIn(facts: seq<Fact>, i: nat, leaf: string, env: Env)
    requires i < |facts| && facts[i].leaf == leaf
    ensures DocPath(facts[i], env.slug) in OfLeaf(facts, leaf, env)
  {
    assert facts[i] in facts;
  }

  lemma SuccessorLinked(x: Input, domains: Files, entities: Files, digests: Files, i: nat)
    requires GoodInput(x) && Parts(x, domains, entities, digests)
    requires i < |x.facts| && Succeeds(x.retired, FactPath(x.facts[i]))
    ensures LinkedFrom(Views(domains, entities, digests, x), DocPath(x.facts[i], x.env.slug))
  {
    var p: Path := [VIEWS, RETIRED];
    var r :| r in x.retired && r.superseded && r.successor == FactPath(x.facts[i]);
    assert x.facts[i] in x.facts;
    assert DocPath(x.facts[i], x.env.slug) in Successors(x.retired, x.at);
    PartAt(x, domains, entities, digests, p);
    hide GoodInput, Parts, Views, HubDoc, Successors;
    assert DirOf(p) == [VIEWS];
    assert LinkedBy(Views(domains, entities, digests, x), DocPath(x.facts[i], x.env.slug), p, Successors(x.retired, x.at));
  }

  /** The views: closed but for the facts they mention, all of which they link. */
  ghost predicate ViewsMade(x: Input, views: Files)
    requires |x.dtags| == |x.etags| == |x.facts|
  {
    && Closed(x, views, views.Keys)
    && (forall i :: 0 <= i < |x.facts| && InViews(x, i) ==> LinkedFrom(views, DocPath(x.facts[i], x.env.slug)))
    && (forall p :: p in views ==> ViewPath(p) && [VIEWS, INDEX] in views)
    && (forall p :: p in views ==> ViewNamed(x.plan, p))
    && (forall k :: k in x.plan.domain ==> DomainPage(x.plan, k) in views)
    && (forall k :: k in x.plan.entity ==> EntityPage(x.plan, k) in views)
  }

  method BuildViews(x: Input) returns (views: Files)
    requires GoodInput(x)
    ensures |x.dtags| == |x.etags| == |x.facts| && ViewsMade(x, views) && ViewsExact(x, views)
  {
    GoodFacts(x);
    AxesGood(x);
    hide GoodInput, HubDoc, Emitted, Digested, ViewsExact;
    var domains, dentries := Emit(DOMAINS_DIR, x.facts, x.dtags, x.plan.domain, true, x.env);
    var entities, eentries := Emit(ENTITIES_DIR, x.facts, x.etags, x.plan.entity, false, x.env);
    var digests := BuildDigests(x.facts, x.env);
    PartsMade(x, domains, dentries, entities, eentries, digests);
    views := Views(domains, entities, digests, x);
    ViewsClosed(x, domains, entities, digests);
    ViewsTold(x, domains, dentries, entities, eentries, digests);
    hide Views, Parts, Closed, ViewPath;
    PagesMade(x, domains, dentries, entities, eentries, digests);
    forall i | 0 <= i < |x.facts| && InViews(x, i)
      ensures LinkedFrom(views, DocPath(x.facts[i], x.env.slug))
    {
      AllLinked(x, domains, dentries, entities, eentries, digests, i);
    }
    forall p | p in views
      ensures ViewPath(p) && [VIEWS, INDEX] in views
      ensures ViewNamed(x.plan, p)
    {
      PartAt(x, domains, entities, digests, p);
      PartNamed(x, domains, dentries, entities, eentries, digests, p);
    }
  }

  lemma PartNamed(x: Input, domains: Files, dentries: set<Path>, entities: Files, eentries: set<Path>, digests: Files, p: Path)
    requires GoodInput(x) && |x.dtags| == |x.etags| == |x.facts|
    requires Emitted(domains, dentries, DOMAINS_DIR, x.facts, x.dtags, x.plan.domain, true, x.env)
    requires Emitted(entities, eentries, ENTITIES_DIR, x.facts, x.etags, x.plan.entity, false, x.env)
    requires Digested(digests, x.facts, x.env, |DIGESTS|)
    ensures p in Views(domains, entities, digests, x) ==> ViewNamed(x.plan, p)
  {
    hide GoodInput, HubDoc, Members, Entry, OfLeaf;
    if p in domains && p != DOMAINS_DIR + [INDEX] {
      var k :| k in x.plan.domain && p == DOMAINS_DIR + [x.plan.domain[k]];
      assert p == DomainPage(x.plan, k);
    }
    if p in entities && p != ENTITIES_DIR + [INDEX] {
      var k :| k in x.plan.entity && p == ENTITIES_DIR + [x.plan.entity[k]];
      assert p == EntityPage(x.plan, k);
    }
  }

  lemma PagesMade(x: Input, domains: Files, dentries: set<Path>, entities: Files, eentries: set<Path>, digests: Files)
    requires GoodInput(x) && |x.dtags| == |x.etags| == |x.facts| && Parts(x, domains, entities, digests)
    requires Emitted(domains, dentries, DOMAINS_DIR, x.facts, x.dtags, x.plan.domain, true, x.env)
    requires Emitted(entities, eentries, ENTITIES_DIR, x.facts, x.etags, x.plan.entity, false, x.env)
    ensures forall k :: k in x.plan.domain ==> DomainPage(x.plan, k) in Views(domains, entities, digests, x)
    ensures forall k :: k in x.plan.entity ==> EntityPage(x.plan, k) in Views(domains, entities, digests, x)
  {
    hide GoodInput, Parts, Views, HubDoc, Members;
    forall k | k in x.plan.domain
      ensures DomainPage(x.plan, k) in Views(domains, entities, digests, x)
    {
      PartAt(x, domains, entities, digests, DomainPage(x.plan, k));
    }
    forall k | k in x.plan.entity
      ensures EntityPage(x.plan, k) in Views(domains, entities, digests, x)
    {
      PartAt(x, domains, entities, digests, EntityPage(x.plan, k));
    }
  }

  lemma AxesGood(x: Input)
    requires GoodInput(x)
    ensures TagListsOf(x.dtags, x.facts) && TagListsOf(x.etags, x.facts) && PagesOf(x.plan.domain, x.dtags) && PagesOf(x.plan.entity, x.etags)
  {
  }

  lemma PartsMade(x: Input, domains: Files, dentries: set<Path>, entities: Files, eentries: set<Path>, digests: Files)
    requires GoodInput(x) && |x.dtags| == |x.etags| == |x.facts|
    requires Emitted(domains, dentries, DOMAINS_DIR, x.facts, x.dtags, x.plan.domain, true, x.env)
    requires Emitted(entities, eentries, ENTITIES_DIR, x.facts, x.etags, x.plan.entity, false, x.env)
    requires Digested(digests, x.facts, x.env, |DIGESTS|)
    ensures Parts(x, domains, entities, digests)
  {
    DomainsClosed(x, domains, dentries);
    EntitiesClosed(x, entities, eentries);
    DigestsClosed(x, digests);
    AxisFiles(domains, dentries, DOMAINS, x.facts, x.dtags, x.plan.domain, true, x.env);
    AxisFiles(entities, eentries, ENTITIES, x.facts, x.etags, x.plan.entity, false, x.env);
    hide GoodInput, HubDoc, Emitted, Closed, UnderAxis, OfLeaf;
  }

  lemma AllLinked(x: Input, domains: Files, dentries: set<Path>, entities: Files, eentries: set<Path>, digests: Files, i: nat)
    requires GoodInput(x) && |x.dtags| == |x.etags| == |x.facts| && Parts(x, domains, entities, digests)
    requires Emitted(domains, dentries, DOMAINS_DIR, x.facts, x.dtags, x.plan.domain, true, x.env)
    requires Emitted(entities, eentries, ENTITIES_DIR, x.facts, x.etags, x.plan.entity, false, x.env)
    requires Digested(digests, x.facts, x.env, |DIGESTS|)
    requires i < |x.facts| && InViews(x, i)
    ensures LinkedFrom(Views(domains, entities, digests, x), DocPath(x.facts[i], x.env.slug))
  {
    hide GoodInput, HubDoc, Emitted, Digested, Parts, Views, LinkedBy, LinkedFrom, DocPath;
    var t := DocPath(x.facts[i], x.env.slug);
    if k :| k in x.dtags[i] && (k in x.plan.domain || Hubs.Carriers(x.dtags, k) == 1) {
      var p, targets := DomainLinked(x, domains, dentries, i, k);
      LinkedInPart(x, domains, entities, digests, domains, t, p, targets);
    } else if k :| k in x.etags[i] && k in x.plan.entity {
      var p, targets := EntityLinked(x, entities, eentries, i, k);
      LinkedInPart(x, domains, entities, digests, entities, t, p, targets);
    } else if j :| 0 <= j < |DIGESTS| && DIGESTS[j].0 == x.facts[i].leaf {
      var p, targets := DigestLinked(x, digests, i, j);
      LinkedInPart(x, domains, entities, digests, digests, t, p, targets);
    } else {
      SuccessorLinked(x, domains, entities, digests, i);
    }
  }

  // ---------- indexes ----------

  /** What a directory's index links: its children's indexes and its own documents. */
  function IndexTargets(d: Path, subdirs: map<Path, set<string>>, concepts: map<Path, set<string>>): set<Path> {
    (set c | d in subdirs && c in subdirs[d] :: d + [c, INDEX]) + (set n | d in concepts && n in concepts[d] :: d + [n])
  }

  function IndexDoc(d: Path, subdirs: map<Path, set<string>>, concepts: map<Path, set<string>>): Doc {
    LinksTo(d, IndexTargets(d, subdirs, concepts))
  }

  /** Every directory an index is written for: the root, those with children, and those with
      documents together with all above them. */
  ghost predicate AllDirs(dirs: set<Path>, subdirs: map<Path, set<string>>, roots: set<Path>) {
    && [] in dirs && subdirs.Keys <= dirs
    && (forall d, r :: r in roots && d <= r ==> d in dirs)
    && (forall d :: d in dirs ==> d == [] || d in subdirs || exists r :: r in roots && d <= r)
  }

  // Adds a directory and all above it.
  method RegisterInto(dirs: set<Path>, dir: Path) returns (next: set<Path>)
    requires [] in dirs
    ensures forall d :: d in next <==> d in dirs || d <= dir
  {
    next := dirs;
    var d := dir;
    ghost var n := |dir|;
    while d != []
      invariant 0 <= n <= |dir| && d == dir[..n]
      invariant forall e :: e in next <==> e in dirs || (e <= dir && n < |e|)
      decreases |d|
    {
      next := next + {d};
      d := DirOf(d);
      n := n - 1;
      assert d == dir[..n];
      assert forall e :: e <= dir && |e| == n + 1 ==> e == dir[..n + 1];
    }
  }

  method CollectDirs(subdirs: map<Path, set<string>>, roots: set<Path>) returns (dirs: set<Path>)
    ensures AllDirs(dirs, subdirs, roots)
  {
    dirs := {[]} + subdirs.Keys;
    var rest := roots;
    while rest != {}
      invariant rest <= roots && AllDirs(dirs, subdirs, roots - rest)
      decreases |rest|
    {
      var r :| r in rest;
      ghost var before := dirs;
      dirs := RegisterInto(dirs, r);
      AllDirsNext(before, dirs, subdirs, roots - rest, r);
      assert roots - (rest - {r}) == (roots - rest) + {r};
      rest := rest - {r};
    }
    assert roots - rest == roots;
  }

  lemma AllDirsNext(dirs: set<Path>, next: set<Path>, subdirs: map<Path, set<string>>, roots: set<Path>, r: Path)
    requires AllDirs(dirs, subdirs, roots) && forall d :: d in next <==> d in dirs || d <= r
    ensures AllDirs(next, subdirs, roots + {r})
  {
    forall d | d in next && d != [] && d !in subdirs
      ensures exists r' :: r' in roots + {r} && d <= r'
    {
      if d in dirs {
        var r' :| r' in roots && d <= r';
        assert r' in roots + {r};
      } else {
        assert r in roots + {r};
      }
    }
  }

  ghost predicate Indexed(files: Files, dirs: set<Path>, subdirs: map<Path, set<string>>, concepts: map<Path, set<string>>) {
    && (forall p :: p in files ==> p != [] && p[|p| - 1] == INDEX && DirOf(p) in dirs)
    && (forall d :: d in dirs ==> d + [INDEX] in files && files[d + [INDEX]] == IndexDoc(d, subdirs, concepts))
  }

  method BuildIndexes(dirs: set<Path>, subdirs: map<Path, set<string>>, concepts: map<Path, set<string>>) returns (files: Files)
    ensures Indexed(files, dirs, subdirs, concepts)
    ensures forall d, t :: d in dirs ==> (LeadsTo(files, d + ["index.md"], t) <==> Child(subdirs, d, t) || Held(concepts, d, t))
  {
    hide Indexed, IndexDoc, LeadsTo, Child, Held;
    files := map[];
    var rest := dirs;
    NothingIndexed(subdirs, concepts);
    assert dirs - rest == {};
    while rest != {}
      invariant rest <= dirs && Indexed(files, dirs - rest, subdirs, concepts)
      decreases |rest|
    {
      var d :| d in rest;
      IndexedNext(files, dirs - rest, subdirs, concepts, d);
      assert dirs - (rest - {d}) == (dirs - rest) + {d};
      files := files[d + [INDEX] := IndexDoc(d, subdirs, concepts)];
      rest := rest - {d};
    }
    assert dirs - rest == dirs;
    IndexedLeads(files, dirs, subdirs, concepts);
  }

  lemma NothingIndexed(subdirs: map<Path, set<string>>, concepts: map<Path, set<string>>)
    ensures Indexed(map[], {}, subdirs, concepts)
  {
  }

  lemma IndexedLeads(files: Files, dirs: set<Path>, subdirs: map<Path, set<string>>, concepts: map<Path, set<string>>)
    requires Indexed(files, dirs, subdirs, concepts)
    ensures forall d, t :: d in dirs ==> (LeadsTo(files, d + [INDEX], t) <==> Child(subdirs, d, t) || Held(concepts, d, t))
  {
    hide IndexTargets, LeadsTo, LinksTo, Child, Held;
    forall d, t | d in dirs
      ensures LeadsTo(files, d + [INDEX], t) <==> Child(subdirs, d, t) || Held(concepts, d, t)
    {
      IndexPath(d);
      IndexTargetsNotEmpty(d, subdirs, concepts);
      LeadsToTargets(files, d + [INDEX], IndexTargets(d, subdirs, concepts));
      IndexTargetMeans(d, subdirs, concepts, t);
    }
  }

  lemma IndexPath(d: Path)
    ensures d + [INDEX] != [] && (d + [INDEX])[|d + [INDEX]| - 1] == INDEX && DirOf(d + [INDEX]) == d
  {
  }

  lemma IndexedNext(files: Files, dirs: set<Path>, subdirs: map<Path, set<string>>, concepts: map<Path, set<string>>, d: Path)
    requires Indexed(files, dirs, subdirs, concepts)
    ensures Indexed(files[d + [INDEX] := IndexDoc(d, subdirs, concepts)], dirs + {d}, subdirs, concepts)
  {
    hide IndexDoc, DirOf;
    var next := files[d + [INDEX] := IndexDoc(d, subdirs, concepts)];
    forall p | p in next
      ensures p != [] && p[|p| - 1] == INDEX && DirOf(p) in dirs + {d}
    {
      IndexPath(d);
    }
    forall e | e in dirs + {d}
      ensures e + [INDEX] in next && next[e + [INDEX]] == IndexDoc(e, subdirs, concepts)
    {
      IndexPath(d);
      IndexPath(e);
    }
  }

  // ---------- the whole bundle ----------

  predicate Leads(files: Files, p: Path, l: Link)
    requires p != []
  {
    Resolve(DirOf(p), l).Some? && Resolve(DirOf(p), l).value in files
  }

  // A document's links all lead somewhere exactly when its targets are files.
  lemma TargetsLead(files: Files, p: Path, targets: set<Path>)
    requires p != [] && p in files && files[p] == LinksTo(DirOf(p), targets - {[]})
    ensures (forall l :: l in files[p] ==> Leads(files, p, l)) <==> targets - {[]} <= files.Keys
  {
    var dir := DirOf(p);
    forall t | t in targets - {[]}
      ensures RelLink(dir, t) in files[p] && (Leads(files, p, RelLink(dir, t)) <==> t in files)
    {
      LinkResolves(dir, t);
    }
    if forall l :: l in files[p] ==> Leads(files, p, l) {
      forall t | t in targets - {[]}
        ensures t in files
      {
        assert Leads(files, p, RelLink(dir, t));
      }
    }
    if targets - {[]} <= files.Keys {
      forall l | l in files[p]
        ensures Leads(files, p, l)
      {
        var t :| t in targets - {[]} && l == RelLink(dir, t);
      }
    }
  }

  /** Everything a build produced on the way. */
  datatype Build = Build(docs: Files, concepts: map<Path, set<string>>, roots: set<Path>, views: Files,
                         subdirs: map<Path, set<string>>, dirs: set<Path>, indexes: Files)

  ghost predicate Built(x: Input, b: Build)
    requires |x.dtags| == |x.etags| == |x.facts|
  {
    && GoodInput(x)
    && (forall i :: 0 <= i < |x.facts| ==> x.dtags[i] == Tags(x.facts[i].domains, x.env) && x.etags[i] == Tags(x.facts[i].entities, x.env))
    && Documents(b.docs, x.facts, x.facts, x.at, x.plan, x.env)
    && Holding(b.concepts, b.roots, x.facts, x.env)
    && ViewsMade(x, b.views)
    && Registered(b.subdirs, b.roots + ViewRoots(b.views))
    && AllDirs(b.dirs, b.subdirs, b.roots)
    && Indexed(b.indexes, b.dirs, b.subdirs, b.concepts)
  }

  function ViewRoots(views: Files): set<Path> {
    set p | p in views && p != [] :: DirOf(p)
  }

  /** The bundle: documents, an index for every directory, and the views, which replace the indexes
      written for their own directories. */
  function Assemble(b: Build): Files {
    b.docs + b.indexes + b.views
  }

  /** The i-th fact is linked from some document: from the views, as a citation of a rendered fact, or
      as citing one. */
  ghost predicate LinkedSomewhere(x: Input, i: nat)
    requires i < |x.facts| && |x.dtags| == |x.etags| == |x.facts|
  {
    || InViews(x, i)
    || (exists f :: Shows(x.facts, f) && LinksFact(f, x.facts[i], x.env))
  }

  ghost predicate LinksFact(f: Fact, g: Fact, env: Env) {
    CitesBare(g, f, env) || exists r :: r in Refs(f, env) && Local(r, env.id) && Target(r, env.id) == FactPath(g)
  }

  lemma BuiltLengths(x: Input, b: Build)
    requires |x.dtags| == |x.etags| == |x.facts| && Built(x, b)
    ensures WellPlaced(x.facts) && PlacedAt(x.at, x.facts, x.env)
  {
  }

  lemma BuiltHolding(x: Input, b: Build)
    requires |x.dtags| == |x.etags| == |x.facts| && Built(x, b)
    ensures Holding(b.concepts, b.roots, x.facts, x.env) && Documents(b.docs, x.facts, x.facts, x.at, x.plan, x.env)
  {
  }

  lemma BuiltDirs(x: Input, b: Build)
    requires |x.dtags| == |x.etags| == |x.facts| && Built(x, b)
    ensures Registered(b.subdirs, b.roots + ViewRoots(b.views)) && AllDirs(b.dirs, b.subdirs, b.roots)
    ensures Indexed(b.indexes, b.dirs, b.subdirs, b.concepts)
  {
  }

  lemma ShownPlaced(x: Input, f: Fact)
    requires WellPlaced(x.facts) && f in x.facts
    ensures FactId(f.base) && |f.dir| >= 1 && f.dir[0] == KB
    ensures DocPath(f, x.env.slug)[0] == KB && DocPath(f, x.env.slug)[|DocPath(f, x.env.slug)| - 1] != INDEX
    ensures DirOf(DocPath(f, x.env.slug)) == f.dir
  {
    DocPathsDistinct(f, f, x.env.slug);
  }

  lemma DocShape(x: Input, b: Build, p: Path)
    requires |x.dtags| == |x.etags| == |x.facts| && Built(x, b) && p in b.docs
    ensures p != [] && p[0] == KB && p[|p| - 1] != INDEX
    ensures exists f :: Shows(x.facts, f) && DocPath(f, x.env.slug) == p
  {
    hide Built, Holding, Documents, DocPath, WellPlaced, PlacedAt, FactId;
    BuiltLengths(x, b);
    BuiltHolding(x, b);
    var f := Rendered(b.docs, x.facts, x.facts, x.at, x.plan, x.env, p);
    DocPlaced(x, f, p);
  }

  lemma DocPlaced(x: Input, f: Fact, p: Path)
    requires WellPlaced(x.facts) && f in x.facts && p == DocPath(f, x.env.slug)
    ensures p != [] && p[0] == KB && p[|p| - 1] != INDEX
  {
    ShownPlaced(x, f);
    assert p[|p| - 1] == FileName(f, x.env.slug);
    DocPathsDistinct(f, f, x.env.slug);
    hide WellPlaced, FileName, FactPath;
  }

  lemma Rendered(docs: Files, some: seq<Fact>, facts: seq<Fact>, at: map<string, Path>, plan: Plan, env: Env, p: Path) returns (f: Fact)
    requires Documents(docs, some, facts, at, plan, env) && p in docs
    ensures Shows(some, f) && DocPath(f, env.slug) == p
  {
    hide DocPath, ConceptDoc;
    f :| Shows(some, f) && DocPath(f, env.slug) == p;
  }

  lemma ViewShape(x: Input, b: Build, p: Path)
    requires |x.dtags| == |x.etags| == |x.facts| && Built(x, b) && p in b.views
    ensures p != [] && p[0] == VIEWS && ViewPath(p)
  {
    hide GoodInput, Holding, Registered, AllDirs, Closed, Documents, Indexed, LinkedFrom, InViews;
  }

  lemma IndexShape(x: Input, b: Build, p: Path)
    requires |x.dtags| == |x.etags| == |x.facts| && Built(x, b) && p in b.indexes
    ensures p != [] && p[|p| - 1] == INDEX && DirOf(p) in b.dirs && p == DirOf(p) + [INDEX]
    ensures b.indexes[p] == IndexDoc(DirOf(p), b.subdirs, b.concepts)
  {
    hide Built, Registered, AllDirs, Indexed, IndexDoc;
    BuiltDirs(x, b);
    IndexedShape(b.indexes, b.dirs, b.subdirs, b.concepts, p);
  }

  lemma IndexedShape(files: Files, dirs: set<Path>, subdirs: map<Path, set<string>>, concepts: map<Path, set<string>>, p: Path)
    requires Indexed(files, dirs, subdirs, concepts) && p in files
    ensures p != [] && p[|p| - 1] == INDEX && DirOf(p) in dirs && p == DirOf(p) + [INDEX]
    ensures files[p] == IndexDoc(DirOf(p), subdirs, concepts)
  {
    hide IndexDoc;
    assert p == DirOf(p) + [INDEX];
  }

  // What a file of the bundle is.
  lemma FileAt(x: Input, b: Build, p: Path)
    requires |x.dtags| == |x.etags| == |x.facts| && Built(x, b)
    ensures p in Assemble(b) <==> p in b.docs || p in b.indexes || p in b.views
    ensures p in b.docs ==> p !in b.views && p !in b.indexes && p != [] && Assemble(b)[p] == b.docs[p]
    ensures p in b.views ==> p != [] && Assemble(b)[p] == b.views[p]
    ensures p in b.indexes && p !in b.views ==> p != [] && Assemble(b)[p] == b.indexes[p]
  {
    hide Built;
    if p in b.docs { DocShape(x, b, p); }
    if p in b.views { ViewShape(x, b, p); }
    if p in b.indexes { IndexShape(x, b, p); }
  }

  // A fact's document is in the bundle exactly when it was rendered.
  lemma DocumentIn(x: Input, b: Build, i: nat)
    requires |x.dtags| == |x.etags| == |x.facts| && Built(x, b) && i < |x.facts|
    ensures DocPath(x.facts[i], x.env.slug) in Assemble(b) <==> !x.facts[i].fails
  {
    var g := x.facts[i];
    var p := DocPath(g, x.env.slug);
    assert g in x.facts;
    BuiltLengths(x, b);
    ShownPlaced(x, g);
    FileAt(x, b, p);
    DocInDocs(x, b, i);
    hide Built, DocPath, Assemble, FactId;
    if p in b.views { ViewShape(x, b, p); }
    if p in b.indexes { IndexShape(x, b, p); }
  }

  lemma DocInDocs(x: Input, b: Build, i: nat)
    requires |x.dtags| == |x.etags| == |x.facts| && Built(x, b) && i < |x.facts|
    ensures DocPath(x.facts[i], x.env.slug) in b.docs <==> !x.facts[i].fails
  {
    hide GoodInput, Holding, Registered, AllDirs, ViewsMade, Indexed, DocPath, ConceptDoc, FactPath;
    var g := x.facts[i];
    BuiltLengths(x, b);
    if DocPath(g, x.env.slug) in b.docs {
      var f :| Shows(x.facts, f) && DocPath(f, x.env.slug) == DocPath(g, x.env.slug);
      ShownPlaced(x, f);
      ShownPlaced(x, g);
      DocPathsDistinct(f, g, x.env.slug);
      SameFact(x.facts, f, i);
    }
    if !g.fails { assert Shows(x.facts, g); }
  }

  lemma SameFact(facts: seq<Fact>, f: Fact, i: nat)
    requires WellPlaced(facts) && f in facts && i < |facts| && FactPath(f) == FactPath(facts[i])
    ensures f == facts[i]
  {
    var j :| 0 <= j < |facts| && facts[j] == f;
    hide FactPath, FactId;
    assert i == j || i < j || j < i;
  }

  // ---------- what each document links, told without how it is computed ----------

  /** The document at p has a link that leads to t. */
  ghost predicate LeadsTo(files: Files, p: Path, t: Path) {
    p in files && p != [] && exists l :: l in files[p] && Resolve(DirOf(p), l) == Some(t)
  }

  /** One axis: each page links the documents of the facts that carry its tag; the index links each page
      and, where single facts are listed, the document of each fact alone with a tag. */
  ghost predicate AxisExact(files: Files, dir: Path, facts: seq<Fact>, tags: TagLists, pages: map<string, string>, singles: bool, env: Env)
    requires |tags| == |facts|
  {
    && (forall k, t :: k in pages ==>
          (LeadsTo(files, dir + [pages[k]], t) <==> exists i :: 0 <= i < |facts| && k in tags[i] && t == DocPath(facts[i], env.slug)))
    && (forall t :: LeadsTo(files, dir + ["index.md"], t) <==> Listed(t, dir, facts, tags, pages, singles, env))
  }

  ghost predicate Listed(t: Path, dir: Path, facts: seq<Fact>, tags: TagLists, pages: map<string, string>, singles: bool, env: Env)
    requires |tags| == |facts|
  {
    || (exists k :: k in pages && t == dir + [pages[k]])
    || (singles && exists k, i :: k !in pages && Hubs.Carriers(tags, k) == 1 && 0 <= i < |facts| && k in tags[i]
                            && t == DocPath(facts[i], env.slug))
  }

  /** A digest links the documents of the facts of its type. */
  ghost predicate DigestExact(files: Files, name: string, facts: seq<Fact>, leaf: string, env: Env) {
    forall t :: LeadsTo(files, ["views", name], t) <==> exists f :: f in facts && f.leaf == leaf && t == DocPath(f, env.slug)
  }

  /** The page of withdrawals links the documents of the replacements. */
  ghost predicate RetiredExact(files: Files, facts: seq<Fact>, retired: seq<Retired>, env: Env) {
    && (["views", "retired.md"] in files <==> retired != [])
    && forall t :: LeadsTo(files, ["views", "retired.md"], t) <==>
         exists r, f :: r in retired && r.superseded && f in facts && FactPath(f) == r.successor && t == DocPath(f, env.slug)
  }

  ghost predicate TopEntry(views: Files, t: Path) {
    t in views && t != [] && t[0] == "views" && ((|t| == 2 && t[1] != "index.md") || (|t| == 3 && t[2] == "index.md"))
  }

  /** The views' index links each page beside it, and the index of each directory below. */
  ghost predicate TopExact(files: Files) {
    && (forall p :: p in files && p != [] && p[0] == "views" ==> ["views", "index.md"] in files)
    && (forall p :: p in files && |p| == 3 && p[0] == "views" ==> ["views", p[1], "index.md"] in files)
    && forall t :: LeadsTo(files, ["views", "index.md"], t) <==> TopEntry(files, t)
  }

  ghost predicate ViewsExact(x: Input, files: Files)
    requires |x.dtags| == |x.etags| == |x.facts|
  {
    && AxisExact(files, ["views", "domains"], x.facts, x.dtags, x.plan.domain, true, x.env)
    && AxisExact(files, ["views", "entities"], x.facts, x.etags, x.plan.entity, false, x.env)
    && DigestExact(files, "synthesis.md", x.facts, "synthesis", x.env)
    && DigestExact(files, "hypotheses.md", x.facts, "hypothesis", x.env)
    && DigestExact(files, "methodology.md", x.facts, "methodology", x.env)
    && RetiredExact(files, x.facts, x.retired, x.env) && TopExact(files)
  }

  lemma LeadsToTargets(files: Files, p: Path, targets: set<Path>)
    requires p != [] && p in files && files[p] == LinksTo(DirOf(p), targets - {[]})
    ensures forall t :: LeadsTo(files, p, t) <==> t in targets && t != []
  {
    forall t
      ensures LeadsTo(files, p, t) <==> t in targets && t != []
    {
      if t in targets && t != [] {
        LinkResolves(DirOf(p), t);
        assert RelLink(DirOf(p), t) in files[p];
      }
      if l :| l in files[p] && Resolve(DirOf(p), l) == Some(t) {
        var t' :| t' in targets - {[]} && l == RelLink(DirOf(p), t');
        LinkResolves(DirOf(p), t');
      }
    }
  }

  lemma AxisLeads(files: Files, part: Files, entries: set<Path>, dir: Path, facts: seq<Fact>, tags: TagLists,
                  pages: map<string, string>, singles: bool, env: Env)
    requires |tags| == |facts| && PagesOf(pages, tags) && Emitted(part, entries, dir, facts, tags, pages, singles, env)
    requires forall p :: p in part ==> p in files && files[p] == part[p]
    requires dir + [INDEX] in files ==> dir + [INDEX] in part
    ensures AxisExact(files, dir, facts, tags, pages, singles, env)
  {
    hide Members, HubDoc, Hubs.Carriers, LeadsTo, DocPath, PagesOf, Listed, Entry;
    forall k, t | k in pages
      ensures LeadsTo(files, dir + [pages[k]], t) <==> exists i :: 0 <= i < |facts| && k in tags[i] && t == DocPath(facts[i], env.slug)
    {
      PageLeads(files, part, dir, facts, tags, pages, env, k, t);
    }
    forall t
      ensures LeadsTo(files, dir + [INDEX], t) <==> t in entries
    {
      IndexLeadsTo(files, part, entries, dir, facts, tags, pages, singles, env, t);
    }
    forall t
      ensures t in entries <==> Listed(t, dir, facts, tags, pages, singles, env)
    {
      EntryMeans(t, dir, facts, tags, pages, singles, env);
    }
  }

  lemma EntryMeans(t: Path, dir: Path, facts: seq<Fact>, tags: TagLists, pages: map<string, string>, singles: bool, env: Env)
    requires |tags| == |facts|
    ensures Entry(t, dir, facts, tags, pages, singles, env) <==> Listed(t, dir, facts, tags, pages, singles, env)
  {
    hide Hubs.Carriers, DocPath;
  }

  lemma MembersNotRoot(facts: seq<Fact>, tags: TagLists, k: string, env: Env)
    requires |tags| == |facts|
    ensures [] !in Members(facts, tags, k, env)
  {
  }

  lemma PageLeads(files: Files, part: Files, dir: Path, facts: seq<Fact>, tags: TagLists, pages: map<string, string>, env: Env, k: string, t: Path)
    requires |tags| == |facts| && k in pages && dir + [pages[k]] in part
    requires part[dir + [pages[k]]] == HubDoc(dir, Members(facts, tags, k, env))
    requires forall p :: p in part ==> p in files && files[p] == part[p]
    ensures LeadsTo(files, dir + [pages[k]], t) <==> exists i :: 0 <= i < |facts| && k in tags[i] && t == DocPath(facts[i], env.slug)
  {
    var p := dir + [pages[k]];
    assert DirOf(p) == dir;
    MembersNotRoot(facts, tags, k, env);
    LeadsToTargets(files, p, Members(facts, tags, k, env));
    hide DocPath, LeadsTo, LinksTo;
  }

  lemma IndexLeadsTo(files: Files, part: Files, entries: set<Path>, dir: Path, facts: seq<Fact>, tags: TagLists,
                     pages: map<string, string>, singles: bool, env: Env, t: Path)
    requires |tags| == |facts| && Emitted(part, entries, dir, facts, tags, pages, singles, env) && PagesOf(pages, tags)
    requires forall p :: p in part ==> p in files && files[p] == part[p]
    requires dir + [INDEX] in files ==> dir + [INDEX] in part
    ensures LeadsTo(files, dir + [INDEX], t) <==> t in entries
  {
    var p := dir + [INDEX];
    assert DirOf(p) == dir;
    forall u | u in entries ensures u != [] {
      assert Entry(u, dir, facts, tags, pages, singles, env);
    }
    forall k | k in pages ensures dir + [pages[k]] != p {
      PagesNotIndex(dir, pages, tags, k);
    }
    hide Members, Hubs.Carriers, DocPath, PagesOf, LinksTo;
    if entries != {} {
      LeadsToTargets(files, p, entries);
    }
  }

  lemma DigestLeads(x: Input, domains: Files, entities: Files, digests: Files, j: nat)
    requires GoodInput(x) && Parts(x, domains, entities, digests) && Digested(digests, x.facts, x.env, |DIGESTS|) && j < |DIGESTS|
    ensures DigestExact(Views(domains, entities, digests, x), DIGESTS[j].1, x.facts, DIGESTS[j].0, x.env)
  {
    var views, targets := Views(domains, entities, digests, x), OfLeaf(x.facts, DIGESTS[j].0, x.env);
    hide GoodInput, Views, HubDoc, Parts, OfLeaf, LeadsTo;
    PartAt(x, domains, entities, digests, DigestPath(j));
    DigestOnly(x, domains, entities, digests, j);
    LeafLeads(views, DigestPath(j), x.facts, DIGESTS[j].0, x.env);
  }

  lemma LeafLeads(files: Files, p: Path, facts: seq<Fact>, leaf: string, env: Env)
    requires |p| == 2 && p[0] == VIEWS
    requires p in files <==> OfLeaf(facts, leaf, env) != {}
    requires p in files ==> files[p] == HubDoc([VIEWS], OfLeaf(facts, leaf, env))
    ensures DigestExact(files, p[1], facts, leaf, env)
  {
    var targets := OfLeaf(facts, leaf, env);
    assert p == ["views", p[1]] && DirOf(p) == [VIEWS];
    forall t ensures t in targets <==> exists f :: f in facts && f.leaf == leaf && t == DocPath(f, env.slug) {
    }
    LeafNotRoot(facts, leaf, env);
    HubDocLinks([VIEWS], targets);
    hide OfLeaf, HubDoc, LinksTo, LeadsTo, DocPath;
    if p in files {
      LeadsToTargets(files, p, targets);
    } else {
      NothingLeads(files, p);
    }
    forall t ensures LeadsTo(files, p, t) <==> exists f :: f in facts && f.leaf == leaf && t == DocPath(f, env.slug) {
      assert LeadsTo(files, p, t) <==> t in targets;
    }
  }

  lemma LeafNotRoot(facts: seq<Fact>, leaf: string, env: Env)
    ensures [] !in OfLeaf(facts, leaf, env)
  {
  }

  lemma NothingLeads(files: Files, p: Path)
    requires p !in files
    ensures forall t :: !LeadsTo(files, p, t)
  {
  }

  // A digest's page is there only when it lists something.
  lemma DigestOnly(x: Input, domains: Files, entities: Files, digests: Files, j: nat)
    requires GoodInput(x) && Parts(x, domains, entities, digests) && Digested(digests, x.facts, x.env, |DIGESTS|) && j < |DIGESTS|
    ensures DigestPath(j) in Views(domains, entities, digests, x) <==> OfLeaf(x.facts, DIGESTS[j].0, x.env) != {}
    ensures OfLeaf(x.facts, DIGESTS[j].0, x.env) != {} ==> DigestPath(j) in digests
  {
    hide GoodInput, Views, HubDoc, Closed, OfLeaf;
    PartAt(x, domains, entities, digests, DigestPath(j));
    assert DigestPath(j)[1] == DIGESTS[j].1 && [VIEWS, RETIRED][1] == RETIRED && [VIEWS, INDEX][1] == INDEX;
    forall i | 0 <= i < |DIGESTS| && DigestPath(i) == DigestPath(j) ensures i == j {
      assert DigestPath(i)[1] == DigestPath(j)[1];
    }
  }

  lemma RetiredLeads(x: Input, domains: Files, entities: Files, digests: Files)
    requires GoodInput(x) && Parts(x, domains, entities, digests)
    ensures RetiredExact(Views(domains, entities, digests, x), x.facts, x.retired, x.env)
  {
    var views, p, targets := Views(domains, entities, digests, x), [VIEWS, RETIRED], Successors(x.retired, x.at);
    PartsApart(x, domains, entities, digests, p);
    PartAt(x, domains, entities, digests, p);
    forall t ensures t in targets <==> (exists r, f :: r in x.retired && r.superseded && f in x.facts && FactPath(f) == r.successor && t == DocPath(f, x.env.slug)) {
      SuccessorMeans(x, t);
    }
    hide GoodInput, Views, HubDoc, Parts, DocPath, LeadsTo, FactPath, Successors;
    assert [VIEWS, RETIRED][1] == RETIRED && [VIEWS, INDEX][1] == INDEX;
    if x.retired != [] {
      HubDocLinks([VIEWS], targets);
      assert DirOf(p) == [VIEWS];
      LeadsToTargets(views, p, targets);
      assert [] !in targets by { SuccessorsNotRoot(x); }
    } else {
      NothingLeads(views, p);
    }
  }

  lemma SuccessorMeans(x: Input, t: Path)
    requires GoodInput(x)
    ensures t in Successors(x.retired, x.at) <==>
      exists r, f :: r in x.retired && r.superseded && f in x.facts && FactPath(f) == r.successor && t == DocPath(f, x.env.slug)
  {
    hide FactPath, DocPath;
    if r :| r in x.retired && r.superseded && r.successor in x.at && t == x.at[r.successor] {
      var f :| f in x.facts && FactPath(f) == r.successor;
    }
  }

  lemma SuccessorsNotRoot(x: Input)
    requires GoodInput(x)
    ensures [] !in Successors(x.retired, x.at)
  {
  }

  lemma TopLeads(x: Input, domains: Files, entities: Files, digests: Files)
    requires GoodInput(x) && Parts(x, domains, entities, digests)
    ensures TopExact(Views(domains, entities, digests, x))
  {
    var views := Views(domains, entities, digests, x);
    var targets := ViewTargets(WithRetired(domains + entities + digests, x), SinglePages(digests, x));
    IndexAt(WithRetired(domains + entities + digests, x), SinglePages(digests, x), [VIEWS, INDEX]);
    hide GoodInput, HubDoc, Parts, ViewTargets, WithRetired, SinglePages, TopEntry, TopExact, WithIndex;
    forall q | q in views ensures [VIEWS, INDEX] in views {
      PartAt(x, domains, entities, digests, q);
    }
    forall t ensures [VIEWS, INDEX] in views && t in targets <==> TopEntry(views, t) {
      TopTarget(x, domains, entities, digests, t);
    }
    forall p | p in views && |p| == 3 && p[0] == VIEWS ensures [VIEWS, p[1], INDEX] in views {
      AxisIndexed(x, domains, entities, digests, p);
    }
    TopIs(views, targets);
  }

  lemma AxisIndexed(x: Input, domains: Files, entities: Files, digests: Files, p: Path)
    requires GoodInput(x) && Parts(x, domains, entities, digests)
    requires p in Views(domains, entities, digests, x) && |p| == 3
    ensures [VIEWS, p[1], INDEX] in Views(domains, entities, digests, x)
  {
    hide GoodInput, HubDoc, Closed, Views;
    PartAt(x, domains, entities, digests, p);
    PartAt(x, domains, entities, digests, [VIEWS, p[1], INDEX]);
    assert p in domains || p in entities;
  }

  lemma TopIs(views: Files, targets: set<Path>)
    requires [VIEWS, INDEX] in views ==> views[[VIEWS, INDEX]] == HubDoc([VIEWS], targets)
    requires forall p :: p in views ==> [VIEWS, INDEX] in views
    requires forall t :: [VIEWS, INDEX] in views && t in targets <==> TopEntry(views, t)
    requires forall p :: p in views && |p| == 3 && p[0] == VIEWS ==> [VIEWS, p[1], INDEX] in views
    ensures TopExact(views)
  {
    hide HubDoc, LeadsTo, LinksTo;
    var p := [VIEWS, INDEX];
    if p in views {
      HubDocLinks([VIEWS], targets);
      assert DirOf(p) == [VIEWS];
      LeadsToTargets(views, p, targets);
    } else {
      NothingLeads(views, p);
    }
    forall t ensures LeadsTo(views, p, t) <==> TopEntry(views, t) {
    }
  }

  lemma TopTarget(x: Input, domains: Files, entities: Files, digests: Files, t: Path)
    requires GoodInput(x) && Parts(x, domains, entities, digests)
    ensures var views := Views(domains, entities, digests, x);
      [VIEWS, INDEX] in views && t in ViewTargets(WithRetired(domains + entities + digests, x), SinglePages(digests, x)) <==> TopEntry(views, t)
  {
    hide GoodInput, HubDoc, Parts, Views, ViewTargets, WithRetired, SinglePages, TopEntry;
    var views := Views(domains, entities, digests, x);
    if t in ViewTargets(WithRetired(domains + entities + digests, x), SinglePages(digests, x)) {
      TargetIsEntry(x, domains, entities, digests, t);
    }
    if TopEntry(views, t) {
      EntryIsTarget(x, domains, entities, digests, t);
    }
  }

  lemma TargetIsEntry(x: Input, domains: Files, entities: Files, digests: Files, t: Path)
    requires GoodInput(x) && Parts(x, domains, entities, digests)
    requires t in ViewTargets(WithRetired(domains + entities + digests, x), SinglePages(digests, x))
    ensures TopEntry(Views(domains, entities, digests, x), t)
  {
    hide GoodInput, HubDoc, Closed, Views, ViewDirs, WithRetired, UnderAxis;
    ViewTargetIn(x, domains, entities, digests, t);
    assert [VIEWS, RETIRED][1] == RETIRED;
    if t in digests {
      var j :| 0 <= j < |DIGESTS| && t == DigestPath(j);
      assert t[1] == DIGESTS[j].1;
    }
  }

  lemma EntryIsTarget(x: Input, domains: Files, entities: Files, digests: Files, t: Path)
    requires GoodInput(x) && Parts(x, domains, entities, digests)
    requires TopEntry(Views(domains, entities, digests, x), t)
    ensures [VIEWS, INDEX] in Views(domains, entities, digests, x)
    ensures t in ViewTargets(WithRetired(domains + entities + digests, x), SinglePages(digests, x))
  {
    hide GoodInput, HubDoc, Closed, Views;
    PartAt(x, domains, entities, digests, t);
    if |t| == 3 {
      assert t in domains || t in entities by { hide WithRetired; }
      EntryDir(x, domains, entities, digests, t);
    } else {
      hide WithRetired;
      assert t != [VIEWS, INDEX];
      assert t in SinglePages(digests, x);
    }
  }

  lemma EntryDir(x: Input, domains: Files, entities: Files, digests: Files, t: Path)
    requires |t| == 3 && t[0] == VIEWS && t[2] == INDEX && (t in domains || t in entities)
    ensures t in ViewTargets(WithRetired(domains + entities + digests, x), SinglePages(digests, x))
  {
    var files := WithRetired(domains + entities + digests, x);
    RetiredAt(domains + entities + digests, x, t);
    hide HubDoc, WithRetired, SinglePages;
    assert t in files;
    assert t[1] in ViewDirs(files);
    assert t == [VIEWS, t[1], INDEX];
  }

  lemma ViewsTold(x: Input, domains: Files, dentries: set<Path>, entities: Files, eentries: set<Path>, digests: Files)
    requires GoodInput(x) && |x.dtags| == |x.etags| == |x.facts| && Parts(x, domains, entities, digests)
    requires Emitted(domains, dentries, DOMAINS_DIR, x.facts, x.dtags, x.plan.domain, true, x.env)
    requires Emitted(entities, eentries, ENTITIES_DIR, x.facts, x.etags, x.plan.entity, false, x.env)
    requires Digested(digests, x.facts, x.env, |DIGESTS|)
    ensures ViewsExact(x, Views(domains, entities, digests, x))
  {
    hide GoodInput, HubDoc, Emitted, Digested, Parts, Views, AxisExact, DigestExact, RetiredExact, TopExact;
    AxisTold(x, domains, dentries, entities, eentries, digests);
    DigestLeads(x, domains, entities, digests, 0);
    DigestLeads(x, domains, entities, digests, 1);
    DigestLeads(x, domains, entities, digests, 2);
    RetiredLeads(x, domains, entities, digests);
    TopLeads(x, domains, entities, digests);
  }

  lemma AxisTold(x: Input, domains: Files, dentries: set<Path>, entities: Files, eentries: set<Path>, digests: Files)
    requires GoodInput(x) && |x.dtags| == |x.etags| == |x.facts| && Parts(x, domains, entities, digests)
    requires Emitted(domains, dentries, DOMAINS_DIR, x.facts, x.dtags, x.plan.domain, true, x.env)
    requires Emitted(entities, eentries, ENTITIES_DIR, x.facts, x.etags, x.plan.entity, false, x.env)
    ensures AxisExact(Views(domains, entities, digests, x), ["views", "domains"], x.facts, x.dtags, x.plan.domain, true, x.env)
    ensures AxisExact(Views(domains, entities, digests, x), ["views", "entities"], x.facts, x.etags, x.plan.entity, false, x.env)
  {
    AxesGood(x);
    hide GoodInput, HubDoc, Emitted, Views, AxisExact, Closed, PagesOf;
    var views := Views(domains, entities, digests, x);
    forall p
      ensures p in domains ==> p in views && views[p] == domains[p]
      ensures p in entities ==> p in views && views[p] == entities[p]
    {
      PartAt(x, domains, entities, digests, p);
    }
    AxisIndexes(x, domains, entities, digests);
    hide Parts;
    AxisLeads(views, domains, dentries, DOMAINS_DIR, x.facts, x.dtags, x.plan.domain, true, x.env);
    AxisLeads(views, entities, eentries, ENTITIES_DIR, x.facts, x.etags, x.plan.entity, false, x.env);
  }

  // ---------- every link leads to a file ----------

  ghost predicate FileLeads(files: Files, p: Path)
    requires p in files && p != []
  {
    forall l :: l in files[p] ==> Leads(files, p, l)
  }

  /** No skipped fact is linked. */
  ghost predicate NoneLinkedSkipped(x: Input)
    requires |x.dtags| == |x.etags| == |x.facts|
  {
    forall i :: 0 <= i < |x.facts| && x.facts[i].fails ==> !LinkedSomewhere(x, i)
  }

  lemma ViewLeads(x: Input, b: Build, p: Path)
    requires |x.dtags| == |x.etags| == |x.facts| && Built(x, b) && p in b.views && NoneLinkedSkipped(x)
    ensures p != [] && p in Assemble(b) && FileLeads(Assemble(b), p)
  {
    FileAt(x, b, p);
    assert Closed(x, b.views, b.views.Keys);
    hide Built, Assemble, InViews, DocPath, HubDoc;
    var targets :| Links(x, p, b.views[p], targets, b.views.Keys);
    forall t | t in targets
      ensures t in Assemble(b)
    {
      FileAt(x, b, t);
      if t !in b.views.Keys {
        var i :| 0 <= i < |x.facts| && InViews(x, i) && t == DocPath(x.facts[i], x.env.slug);
        assert LinkedSomewhere(x, i);
        DocumentIn(x, b, i);
      }
    }
    HubDocLinks(DirOf(p), targets);
    TargetsLead(Assemble(b), p, targets);
  }

  lemma HubDocLinks(dir: Path, targets: set<Path>)
    ensures HubDoc(dir, targets) == LinksTo(dir, targets - {[]})
  {
  }

  lemma IndexLeads(x: Input, b: Build, p: Path)
    requires |x.dtags| == |x.etags| == |x.facts| && Built(x, b) && p in b.indexes && p !in b.views
    ensures p != [] && p in Assemble(b) && FileLeads(Assemble(b), p)
  {
    FileAt(x, b, p);
    IndexShape(x, b, p);
    var d := DirOf(p);
    hide Built, Assemble, IndexTargets;
    forall t | t in IndexTargets(d, b.subdirs, b.concepts)
      ensures t in Assemble(b)
    {
      IndexTargetIn(x, b, p, t);
    }
    assert IndexDoc(d, b.subdirs, b.concepts) == LinksTo(d, IndexTargets(d, b.subdirs, b.concepts) - {[]}) by {
      IndexTargetsNotEmpty(d, b.subdirs, b.concepts);
    }
    TargetsLead(Assemble(b), p, IndexTargets(d, b.subdirs, b.concepts));
  }

  lemma IndexTargetsNotEmpty(d: Path, subdirs: map<Path, set<string>>, concepts: map<Path, set<string>>)
    ensures [] !in IndexTargets(d, subdirs, concepts)
    ensures IndexTargets(d, subdirs, concepts) - {[]} == IndexTargets(d, subdirs, concepts)
  {
  }

  lemma IndexTargetIn(x: Input, b: Build, p: Path, t: Path)
    requires |x.dtags| == |x.etags| == |x.facts| && Built(x, b) && p in b.indexes && p !in b.views && p != []
    requires t in IndexTargets(DirOf(p), b.subdirs, b.concepts)
    ensures t in Assemble(b)
  {
    hide Built, Assemble;
    var d := DirOf(p);
    FileAt(x, b, t);
    if c :| d in b.subdirs && c in b.subdirs[d] && t == d + [c, INDEX] {
      ChildIndexIn(x, b, p, c);
    } else {
      var n :| d in b.concepts && n in b.concepts[d] && t == d + [n];
      HeldDocument(x, b, d, n);
    }
  }

  lemma HeldDocument(x: Input, b: Build, d: Path, n: string)
    requires |x.dtags| == |x.etags| == |x.facts| && Built(x, b) && d in b.concepts && n in b.concepts[d]
    ensures d + [n] in b.docs
  {
    hide Built;
    BuiltHolding(x, b);
    BuiltLengths(x, b);
    HoldingDocument(x, b.docs, b.concepts, b.roots, d, n);
  }

  lemma HoldingDocument(x: Input, docs: Files, concepts: map<Path, set<string>>, roots: set<Path>, d: Path, n: string)
    requires Holding(concepts, roots, x.facts, x.env) && Documents(docs, x.facts, x.facts, x.at, x.plan, x.env)
    requires d in concepts && n in concepts[d]
    ensures d + [n] in docs
  {
    var f := Holder(concepts, roots, x.facts, x.env, d, n);
    hide Holding, ConceptDoc, FileName;
    assert DocPath(f, x.env.slug) == d + [n];
  }

  lemma Holder(concepts: map<Path, set<string>>, roots: set<Path>, some: seq<Fact>, env: Env, d: Path, n: string) returns (f: Fact)
    requires Holding(concepts, roots, some, env) && d in concepts && n in concepts[d]
    ensures Shows(some, f) && f.dir == d && FileName(f, env.slug) == n
  {
    hide FileName;
    f :| Shows(some, f) && f.dir == d && FileName(f, env.slug) == n;
  }

  lemma ChildRoot(subdirs: map<Path, set<string>>, roots: set<Path>, d: Path, c: string) returns (r: Path)
    requires Registered(subdirs, roots) && d in subdirs && c in subdirs[d]
    ensures r in roots && d + [c] <= r
  {
    assert OnTheWay(roots, d, c);
    r :| r in roots && d + [c] <= r;
  }

  lemma DirIndexed(b: Build, d: Path, r: Path)
    requires AllDirs(b.dirs, b.subdirs, b.roots) && Indexed(b.indexes, b.dirs, b.subdirs, b.concepts)
    requires r in b.roots && d <= r
    ensures d + [INDEX] in b.indexes
  {
    hide IndexDoc;
  }

  lemma RootChildIn(x: Input, b: Build, d: Path, c: string, r: Path)
    requires |x.dtags| == |x.etags| == |x.facts| && Built(x, b) && r in b.roots && d + [c] <= r
    ensures d + [c, INDEX] in b.indexes
  {
    hide Built, Registered, IndexDoc;
    BuiltDirs(x, b);
    DirIndexed(b, d + [c], r);
    assert d + [c] + [INDEX] == d + [c, INDEX];
  }

  lemma ChildRegistered(x: Input, b: Build, d: Path, c: string) returns (r: Path)
    requires |x.dtags| == |x.etags| == |x.facts| && Built(x, b) && d in b.subdirs && c in b.subdirs[d]
    ensures r in b.roots + ViewRoots(b.views) && d + [c] <= r
  {
    hide Built, Registered, AllDirs, Indexed, ViewRoots;
    BuiltDirs(x, b);
    r := ChildRoot(b.subdirs, b.roots + ViewRoots(b.views), d, c);
  }

  // A child of an indexed directory has an index of its own: it is on the way to a directory with
  // documents, or it is views/ itself.
  lemma ChildIndexIn(x: Input, b: Build, p: Path, c: string)
    requires |x.dtags| == |x.etags| == |x.facts| && Built(x, b) && p in b.indexes && p !in b.views && p != []
    requires DirOf(p) in b.subdirs && c in b.subdirs[DirOf(p)]
    ensures DirOf(p) + [c, INDEX] in b.indexes || DirOf(p) + [c, INDEX] in b.views
  {
    hide Built, ViewRoots, DirOf;
    var r := ChildRegistered(x, b, DirOf(p), c);
    if r in b.roots {
      RootChildIn(x, b, DirOf(p), c, r);
    } else {
      ViewChildIn(x, b, p, c, r);
    }
  }

  lemma ViewChildIn(x: Input, b: Build, p: Path, c: string, r: Path)
    requires |x.dtags| == |x.etags| == |x.facts| && Built(x, b) && p in b.indexes && p !in b.views && p != []
    requires r in ViewRoots(b.views) && DirOf(p) + [c] <= r
    ensures DirOf(p) + [c, INDEX] in b.views
  {
    hide Built, IndexDoc;
    var q :| q in b.views && q != [] && r == DirOf(q);
    IndexShape(x, b, p);
    ViewShape(x, b, q);
    ViewsIndexed(x, b, q);
    ChildOfViews(DirOf(p), c, q, p);
  }

  lemma ViewsIndexed(x: Input, b: Build, q: Path)
    requires |x.dtags| == |x.etags| == |x.facts| && Built(x, b) && q in b.views
    ensures [VIEWS, INDEX] in b.views
  {
    assert ViewsMade(x, b.views);
    hide Built, Closed, LinkedFrom, InViews;
  }

  lemma ChildOfViews(d: Path, c: string, q: Path, p: Path)
    requires ViewPath(q) && d + [c] <= DirOf(q) && p == d + [INDEX]
    ensures p == [VIEWS, INDEX] || d + [c, INDEX] == [VIEWS, INDEX]
  {
    var r := DirOf(q);
    assert (d + [c])[..|d|] == d && r[..|d| + 1] == d + [c];
    if |d| == 0 {
      assert c == r[0] == VIEWS;
    } else {
      assert |d| == 1 && d[0] == r[0] == VIEWS;
    }
  }

  lemma DocLeads(x: Input, b: Build, p: Path)
    requires |x.dtags| == |x.etags| == |x.facts| && Built(x, b) && p in b.docs && NoneLinkedSkipped(x)
    ensures p != [] && p in Assemble(b) && FileLeads(Assemble(b), p)
  {
    FileAt(x, b, p);
    DocShape(x, b, p);
    BuiltLengths(x, b);
    var f :| Shows(x.facts, f) && DocPath(f, x.env.slug) == p;
    ShownPlaced(x, f);
    assert Documents(b.docs, x.facts, x.facts, x.at, x.plan, x.env);
    assert b.docs[p] == ConceptDoc(f, x.facts, x.at, x.plan, x.env);
    hide Built, Assemble, ConceptTargets, DocPath;
    forall t | t in ConceptTargets(f, x.facts, x.at, x.plan, x.env)
      ensures t in Assemble(b)
    {
      ConceptTargetIn(x, b, f, t);
    }
    TargetsLead(Assemble(b), p, ConceptTargets(f, x.facts, x.at, x.plan, x.env));
  }

  lemma ConceptTargetIn(x: Input, b: Build, f: Fact, t: Path)
    requires |x.dtags| == |x.etags| == |x.facts| && Built(x, b) && NoneLinkedSkipped(x) && Shows(x.facts, f)
    requires t in ConceptTargets(f, x.facts, x.at, x.plan, x.env)
    ensures t in Assemble(b)
  {
    hide Built, Assemble, NoneLinkedSkipped, Related, Cited, CitesBare, DocPath;
    FileAt(x, b, t);
    if t in Related(f, x.plan, x.env) {
      RelatedIn(x, b, f, t);
    } else if t in Cited(f, x.at, x.env) {
      CitedIn(x, b, f, t);
    } else {
      var g :| g in x.facts && CitesBare(g, f, x.env) && t == DocPath(g, x.env.slug);
      assert LinksFact(f, g, x.env);
      LinkedIn(x, b, f, g);
    }
  }

  lemma RelatedIn(x: Input, b: Build, f: Fact, t: Path)
    requires |x.dtags| == |x.etags| == |x.facts| && Built(x, b) && t in Related(f, x.plan, x.env)
    ensures t in b.views
  {
    assert ViewsMade(x, b.views);
    hide Built, Closed, LinkedFrom, InViews;
  }

  lemma CitedIn(x: Input, b: Build, f: Fact, t: Path)
    requires |x.dtags| == |x.etags| == |x.facts| && Built(x, b) && NoneLinkedSkipped(x) && Shows(x.facts, f)
    requires t in Cited(f, x.at, x.env)
    ensures t in Assemble(b)
  {
    BuiltLengths(x, b);
    hide Built, Assemble;
    var r :| r in Refs(f, x.env) && Local(r, x.env.id) && Target(r, x.env.id) in x.at && t == x.at[Target(r, x.env.id)];
    var g :| g in x.facts && FactPath(g) == Target(r, x.env.id);
    assert LinksFact(f, g, x.env);
    LinkedIn(x, b, f, g);
  }

  // A fact a rendered fact's document links has a document itself.
  lemma LinkedIn(x: Input, b: Build, f: Fact, g: Fact)
    requires |x.dtags| == |x.etags| == |x.facts| && Built(x, b) && NoneLinkedSkipped(x)
    requires Shows(x.facts, f) && g in x.facts && LinksFact(f, g, x.env)
    ensures DocPath(g, x.env.slug) in Assemble(b)
  {
    hide Built, Assemble, InViews, LinksFact, DocPath;
    var i :| 0 <= i < |x.facts| && x.facts[i] == g;
    assert LinkedSomewhere(x, i);
    DocumentIn(x, b, i);
  }

  // A skipped fact that is linked leaves a dangling link.
  lemma SkippedDangles(x: Input, b: Build, i: nat)
    requires |x.dtags| == |x.etags| == |x.facts| && Built(x, b) && i < |x.facts| && x.facts[i].fails && LinkedSomewhere(x, i)
    ensures exists p :: p in Assemble(b) && p != [] && !FileLeads(Assemble(b), p)
  {
    hide Built, Assemble, InViews, DocPath, LinksFact, FileLeads;
    var t := DocPath(x.facts[i], x.env.slug);
    DocNotEmpty(x.facts[i], x.env);
    DocumentIn(x, b, i);
    if InViews(x, i) {
      ViewsLink(x, b, i);
      var p, targets :| LinkedBy(b.views, t, p, targets);
      FileAt(x, b, p);
      HubDocLinks(DirOf(p), targets);
      TargetMissing(Assemble(b), p, targets, t);
    } else {
      var f :| Shows(x.facts, f) && LinksFact(f, x.facts[i], x.env);
      var p := DocPath(f, x.env.slug);
      FactLinksTarget(x, b, f, i);
      FileAt(x, b, p);
      TargetMissing(Assemble(b), p, ConceptTargets(f, x.facts, x.at, x.plan, x.env), t);
    }
  }

  lemma DocNotEmpty(f: Fact, env: Env)
    ensures DocPath(f, env.slug) != []
  {
  }

  lemma ViewsLink(x: Input, b: Build, i: nat)
    requires |x.dtags| == |x.etags| == |x.facts| && Built(x, b) && i < |x.facts| && InViews(x, i)
    ensures LinkedFrom(b.views, DocPath(x.facts[i], x.env.slug))
  {
    assert ViewsMade(x, b.views);
    hide Built, Closed, InViews, LinkedFrom;
  }

  lemma TargetMissing(files: Files, p: Path, targets: set<Path>, t: Path)
    requires p != [] && p in files && files[p] == LinksTo(DirOf(p), targets - {[]}) && t in targets && t != [] && t !in files
    ensures !FileLeads(files, p)
  {
    TargetsLead(files, p, targets);
    assert t in targets - {[]};
  }

  lemma CiterListed(x: Input, f: Fact, g: Fact)
    requires g in x.facts && CitesBare(g, f, x.env)
    ensures DocPath(g, x.env.slug) in Citers(f, x.facts, x.env)
  {
  }

  lemma CitationListed(x: Input, f: Fact, g: Fact, r: string)
    requires PlacedAt(x.at, x.facts, x.env) && g in x.facts
    requires r in Refs(f, x.env) && Local(r, x.env.id) && Target(r, x.env.id) == FactPath(g)
    ensures DocPath(g, x.env.slug) in Cited(f, x.at, x.env)
  {
    hide FactPath, DocPath;
    assert x.at[Target(r, x.env.id)] == DocPath(g, x.env.slug);
  }

  lemma ShownDocument(x: Input, b: Build, f: Fact)
    requires |x.dtags| == |x.etags| == |x.facts| && Built(x, b) && Shows(x.facts, f)
    ensures var p := DocPath(f, x.env.slug);
            && p in b.docs && p != [] && b.docs[p] == LinksTo(DirOf(p), ConceptTargets(f, x.facts, x.at, x.plan, x.env) - {[]})
  {
    hide Built, FactPath, DocPath, Holding, Documents, ConceptTargets, WellPlaced, PlacedAt, FactId;
    BuiltHolding(x, b);
    BuiltLengths(x, b);
    ShownPlaced(x, f);
    DocNotEmpty(f, x.env);
    DocumentOf(b.docs, x.facts, x.facts, x.at, x.plan, x.env, f);
  }

  lemma DocumentOf(docs: Files, some: seq<Fact>, facts: seq<Fact>, at: map<string, Path>, plan: Plan, env: Env, f: Fact)
    requires Documents(docs, some, facts, at, plan, env) && Shows(some, f)
    ensures DocPath(f, env.slug) in docs && docs[DocPath(f, env.slug)] == ConceptDoc(f, facts, at, plan, env)
  {
    hide DocPath, ConceptDoc;
  }

  // A rendered fact's document links the facts it cites and the facts that cite it.
  lemma FactLinksTarget(x: Input, b: Build, f: Fact, i: nat)
    requires |x.dtags| == |x.etags| == |x.facts| && Built(x, b) && i < |x.facts|
    requires Shows(x.facts, f) && LinksFact(f, x.facts[i], x.env)
    ensures var p := DocPath(f, x.env.slug);
            && p in b.docs && p != [] && b.docs[p] == LinksTo(DirOf(p), ConceptTargets(f, x.facts, x.at, x.plan, x.env) - {[]})
    ensures DocPath(x.facts[i], x.env.slug) in ConceptTargets(f, x.facts, x.at, x.plan, x.env)
  {
    hide Built, FactPath, FileName, DocPath, CitesBare, Cited, Citers, Related;
    BuiltLengths(x, b);
    ShownDocument(x, b, f);
    var g := x.facts[i];
    assert g in x.facts;
    if CitesBare(g, f, x.env) {
      CiterListed(x, f, g);
    } else {
      var r :| r in Refs(f, x.env) && Local(r, x.env.id) && Target(r, x.env.id) == FactPath(g);
      CitationListed(x, f, g, r);
    }
  }

  // Every relative link of the bundle leads to a file of it if and only if no skipped fact is
  // linked: when nothing is skipped, always.
  lemma LinksLead(x: Input, b: Build)
    requires |x.dtags| == |x.etags| == |x.facts| && Built(x, b)
    ensures (forall p :: p in Assemble(b) ==> p != [] && FileLeads(Assemble(b), p)) <==> NoneLinkedSkipped(x)
    ensures (forall i :: 0 <= i < |x.facts| ==> !x.facts[i].fails) ==> NoneLinkedSkipped(x)
  {
    hide Built, Assemble, FileLeads, LinkedSomewhere;
    if NoneLinkedSkipped(x) {
      forall p | p in Assemble(b)
        ensures p != [] && FileLeads(Assemble(b), p)
      {
        FileAt(x, b, p);
        if p in b.views { ViewLeads(x, b, p); } else if p in b.docs { DocLeads(x, b, p); } else { IndexLeads(x, b, p); }
      }
    } else {
      var i :| 0 <= i < |x.facts| && x.facts[i].fails && LinkedSomewhere(x, i);
      SkippedDangles(x, b, i);
    }
  }

  // ---------- the assembled bundle, told without how it is computed ----------

  predicate Outside(d: Path) {
    d == [] || d[0] != "views"
  }

  /** Some file of the bundle is in this directory or below. */
  ghost predicate Holds(files: Files, d: Path) {
    exists q :: q in files && q != [] && d <= DirOf(q)
  }

  ghost predicate OwnDocument(facts: seq<Fact>, env: Env, d: Path, t: Path) {
    exists f :: Shows(facts, f) && f.dir == d && t == DocPath(f, env.slug)
  }

  ghost predicate ChildIndex(files: Files, d: Path, t: Path) {
    exists c :: t == d + [c, "index.md"] && Holds(files, d + [c])
  }

  /** What a directory's index links: each document there, and the index of each child directory that
      holds anything. */
  ghost predicate IndexEntry(facts: seq<Fact>, files: Files, env: Env, d: Path, t: Path) {
    OwnDocument(facts, env, d, t) || ChildIndex(files, d, t)
  }

  /** Outside views/ the root has an index, and each directory with a document in it or below; and they
      link exactly that. */
  ghost predicate IndexesExact(facts: seq<Fact>, files: Files, env: Env) {
    && (forall d: Path :: Outside(d) ==> (d + ["index.md"] in files <==> d == [] || exists f :: Shows(facts, f) && d <= f.dir))
    && (forall d: Path, t :: Outside(d) && d + ["index.md"] in files ==>
          (LeadsTo(files, d + ["index.md"], t) <==> IndexEntry(facts, files, env, d, t)))
  }

  /** A hub page of one of f's tags. */
  ghost predicate HubOf(f: Fact, plan: Plan, env: Env, t: Path) {
    || (exists k :: Hubs.Written(f.domains, env.trim, k) && k in plan.domain && t == ["views", "domains", plan.domain[k]])
    || (exists k :: Hubs.Written(f.entities, env.trim, k) && k in plan.entity && t == ["views", "entities", plan.entity[k]])
  }

  /** f cites g, in whatever form; or another fact g cites f by its own path, under kb/. */
  ghost predicate Cites(f: Fact, g: Fact, env: Env) {
    || (exists r :: Hubs.Written(f.refs, env.trim, r) && Local(r, env.id) && Target(r, env.id) == FactPath(g))
    || (FactPath(g) != FactPath(f) && IsPrefix("kb/", FactPath(f)) && Hubs.Written(g.refs, env.trim, FactPath(f)))
  }

  lemma LinksAreCitations(f: Fact, g: Fact, env: Env)
    ensures LinksFact(f, g, env) <==> Cites(f, g, env)
  {
    hide FactPath, Local, Target, Hubs.Tags, Hubs.Written;
    forall r ensures r in Refs(f, env) <==> Hubs.Written(f.refs, env.trim, r) {
      Hubs.TagsWritten(f.refs, env.trim, r);
    }
    Hubs.TagsWritten(g.refs, env.trim, FactPath(f));
  }

  /** A document links the hub pages of its fact's tags, and the facts it cites or is cited by. */
  ghost predicate ConceptsExact(x: Input, files: Files) {
    forall f, t :: Shows(x.facts, f) ==>
      (LeadsTo(files, DocPath(f, x.env.slug), t) <==>
         HubOf(f, x.plan, x.env, t) || exists g :: g in x.facts && Cites(f, g, x.env) && t == DocPath(g, x.env.slug))
  }

  // A child is registered exactly if something is in it or below.
  lemma WayHolds(x: Input, b: Build, d: Path, c: string)
    requires |x.dtags| == |x.etags| == |x.facts| && Built(x, b)
    ensures d in b.subdirs && c in b.subdirs[d] <==> Holds(Assemble(b), d + [c])
  {
    hide Built, Assemble, Indexed, Holds, Registered, AllDirs, ViewRoots;
    BuiltDirs(x, b);
    if d in b.subdirs && c in b.subdirs[d] {
      var r := ChildRoot(b.subdirs, b.roots + ViewRoots(b.views), d, c);
      RootHolds(x, b, r, d + [c]);
    }
    if Holds(Assemble(b), d + [c]) {
      var r := HoldsRoot(x, b, d + [c]);
      RootChild(b.subdirs, b.roots + ViewRoots(b.views), d, c, r);
    }
  }

  lemma RootChild(subdirs: map<Path, set<string>>, roots: set<Path>, d: Path, c: string, r: Path)
    requires Registered(subdirs, roots) && r in roots && d + [c] <= r
    ensures d in subdirs && c in subdirs[d]
  {
  }

  lemma RootFact(concepts: map<Path, set<string>>, roots: set<Path>, some: seq<Fact>, env: Env, r: Path) returns (f: Fact)
    requires Holding(concepts, roots, some, env) && r in roots
    ensures Shows(some, f) && f.dir == r
  {
    hide FileName;
    f :| Shows(some, f) && f.dir == r;
  }

  lemma RootHolds(x: Input, b: Build, r: Path, d: Path)
    requires |x.dtags| == |x.etags| == |x.facts| && Built(x, b) && r in b.roots + ViewRoots(b.views) && d <= r
    ensures Holds(Assemble(b), d)
  {
    hide Built, Assemble, Documents, Holding, ConceptTargets, DocPath, WellPlaced, PlacedAt, FactPath, FactId, LinksTo, DirOf;
    BuiltHolding(x, b);
    BuiltLengths(x, b);
    if r in b.roots {
      var f := RootFact(b.concepts, b.roots, x.facts, x.env, r);
      ShownDocument(x, b, f);
      ShownPlaced(x, f);
      FileAt(x, b, DocPath(f, x.env.slug));
    } else {
      var q :| q in b.views && q != [] && DirOf(q) == r;
      FileAt(x, b, q);
    }
  }

  lemma HoldsRoot(x: Input, b: Build, d: Path) returns (r: Path)
    requires |x.dtags| == |x.etags| == |x.facts| && Built(x, b) && Holds(Assemble(b), d) && d != []
    ensures r in b.roots + ViewRoots(b.views) && d <= r
  {
    hide Built, Assemble;
    var q :| q in Assemble(b) && q != [] && d <= DirOf(q);
    FileAt(x, b, q);
    r := FileRoot(x, b, q);
  }

  // A file is in a registered directory, or is the index of one above it.
  lemma FileRoot(x: Input, b: Build, q: Path) returns (r: Path)
    requires |x.dtags| == |x.etags| == |x.facts| && Built(x, b) && q != [] && DirOf(q) != []
    requires q in b.docs || q in b.views || q in b.indexes
    ensures r in b.roots + ViewRoots(b.views) && DirOf(q) <= r
  {
    hide Built, Registered, AllDirs, Indexed, IndexDoc;
    if q in b.docs {
      DocRoot(x, b, q);
      r := DirOf(q);
    } else if q in b.views {
      r := DirOf(q);
    } else {
      BuiltDirs(x, b);
      IndexShape(x, b, q);
      hide DirOf;
      r := DirRoot(b, DirOf(q));
    }
  }

  lemma DocRoot(x: Input, b: Build, q: Path)
    requires |x.dtags| == |x.etags| == |x.facts| && Built(x, b) && q in b.docs
    ensures q != [] && DirOf(q) in b.roots
  {
    hide Built, Holding, Documents, WellPlaced, PlacedAt;
    BuiltLengths(x, b);
    BuiltHolding(x, b);
    var f := Rendered(b.docs, x.facts, x.facts, x.at, x.plan, x.env, q);
    ShownDir(x, f);
    DocNotEmpty(f, x.env);
    hide DocPath;
    ShownRoot(b.concepts, b.roots, x.facts, x.env, f);
  }

  lemma ShownRoot(concepts: map<Path, set<string>>, roots: set<Path>, some: seq<Fact>, env: Env, f: Fact)
    requires Holding(concepts, roots, some, env) && Shows(some, f)
    ensures f.dir in roots
  {
    hide FileName;
  }

  lemma DirRoot(b: Build, d: Path) returns (r: Path)
    requires Registered(b.subdirs, b.roots + ViewRoots(b.views)) && AllDirs(b.dirs, b.subdirs, b.roots) && d in b.dirs && d != []
    ensures r in b.roots + ViewRoots(b.views) && d <= r
  {
    hide ViewRoots;
    if d in b.subdirs {
      var c :| c in b.subdirs[d];
      r := ChildRoot(b.subdirs, b.roots + ViewRoots(b.views), d, c);
      assert d <= d + [c];
    } else {
      r :| r in b.roots && d <= r;
    }
  }

  lemma IndexEntries(x: Input, b: Build, d: Path, t: Path)
    requires |x.dtags| == |x.etags| == |x.facts| && Built(x, b)
    ensures t in IndexTargets(d, b.subdirs, b.concepts) <==> IndexEntry(x.facts, Assemble(b), x.env, d, t)
  {
    hide Built, Assemble, Documents, Holding, IndexTargets, OwnDocument, ChildIndex, Child, Held;
    BuiltHolding(x, b);
    IndexTargetMeans(d, b.subdirs, b.concepts, t);
    ChildEntries(x, b, d, t);
    HeldHere(b.concepts, b.roots, x.facts, x.env, d, t);
  }

  ghost predicate Child(subdirs: map<Path, set<string>>, d: Path, t: Path) {
    exists c :: d in subdirs && c in subdirs[d] && t == d + [c, INDEX]
  }

  ghost predicate Held(concepts: map<Path, set<string>>, d: Path, t: Path) {
    exists n :: d in concepts && n in concepts[d] && t == d + [n]
  }

  lemma IndexTargetMeans(d: Path, subdirs: map<Path, set<string>>, concepts: map<Path, set<string>>, t: Path)
    ensures t in IndexTargets(d, subdirs, concepts) <==> Child(subdirs, d, t) || Held(concepts, d, t)
  {
  }

  lemma ChildEntries(x: Input, b: Build, d: Path, t: Path)
    requires |x.dtags| == |x.etags| == |x.facts| && Built(x, b)
    ensures Child(b.subdirs, d, t) <==> ChildIndex(Assemble(b), d, t)
  {
    hide Built, Assemble, Holds;
    if c :| d in b.subdirs && c in b.subdirs[d] && t == d + [c, INDEX] {
      WayHolds(x, b, d, c);
    }
    if c :| t == d + [c, "index.md"] && Holds(Assemble(b), d + [c]) {
      WayHolds(x, b, d, c);
    }
  }

  lemma HeldHere(concepts: map<Path, set<string>>, roots: set<Path>, some: seq<Fact>, env: Env, d: Path, t: Path)
    requires Holding(concepts, roots, some, env)
    ensures Held(concepts, d, t) <==> OwnDocument(some, env, d, t)
  {
    hide FileName;
    if n :| d in concepts && n in concepts[d] && t == d + [n] {
      var f := Holder(concepts, roots, some, env, d, n);
      assert t == DocPath(f, env.slug);
    }
    if f :| Shows(some, f) && f.dir == d && t == DocPath(f, env.slug) {
      assert FileName(f, env.slug) in concepts[d];
    }
  }

  lemma IndexThere(x: Input, b: Build, d: Path)
    requires |x.dtags| == |x.etags| == |x.facts| && Built(x, b) && Outside(d)
    ensures d + [INDEX] in Assemble(b) <==> d == [] || exists f :: Shows(x.facts, f) && d <= f.dir
    ensures d + [INDEX] in Assemble(b) ==> d + [INDEX] in b.indexes && d + [INDEX] !in b.views
  {
    hide Built, Assemble, Outside, Documents, Holding, Registered, AllDirs, ViewRoots;
    NoOtherIndex(x, b, d);
    FileAt(x, b, d + [INDEX]);
    DirThere(x, b, d);
  }

  // An index outside views/ is a directory's own.
  lemma NoOtherIndex(x: Input, b: Build, d: Path)
    requires |x.dtags| == |x.etags| == |x.facts| && Built(x, b) && Outside(d)
    ensures d + [INDEX] !in b.docs && d + [INDEX] !in b.views && (d + [INDEX] in b.indexes <==> d in b.dirs)
  {
    var p := d + [INDEX];
    IndexPath(d);
    hide Built, ViewPath, Registered, AllDirs, IndexDoc, DocPath;
    BuiltDirs(x, b);
    if p in b.docs { DocShape(x, b, p); }
    assert VIEWS[0] == 'v' && INDEX[0] == 'i';
    if p in b.views { ViewShape(x, b, p); }
  }

  lemma DirThere(x: Input, b: Build, d: Path)
    requires |x.dtags| == |x.etags| == |x.facts| && Built(x, b) && Outside(d)
    ensures d in b.dirs <==> d == [] || exists f :: Shows(x.facts, f) && d <= f.dir
  {
    hide Built, Outside;
    DirRooted(x, b, d);
    if f :| Shows(x.facts, f) && d <= f.dir {
      DirOfFact(x, b, d, f);
    }
    if d in b.dirs && d != [] {
      var f := FactBelow(x, b, d);
    }
  }

  lemma DirRooted(x: Input, b: Build, d: Path)
    requires |x.dtags| == |x.etags| == |x.facts| && Built(x, b)
    ensures [] in b.dirs && (d in b.dirs <==> d == [] || d in b.subdirs || exists r :: r in b.roots && d <= r)
  {
    hide Built, Registered, Indexed;
    BuiltDirs(x, b);
  }

  lemma DirOfFact(x: Input, b: Build, d: Path, f: Fact)
    requires |x.dtags| == |x.etags| == |x.facts| && Built(x, b) && Shows(x.facts, f) && d <= f.dir
    ensures d in b.dirs
  {
    hide Built, Holding, Documents;
    BuiltHolding(x, b);
    ShownRoot(b.concepts, b.roots, x.facts, x.env, f);
    DirRooted(x, b, d);
  }

  lemma FactBelow(x: Input, b: Build, d: Path) returns (f: Fact)
    requires |x.dtags| == |x.etags| == |x.facts| && Built(x, b) && Outside(d) && d in b.dirs && d != []
    ensures Shows(x.facts, f) && d <= f.dir
  {
    hide Built, Outside, Holding, Documents, Registered, AllDirs, Indexed, ViewRoots;
    BuiltDirs(x, b);
    BuiltHolding(x, b);
    var r := DirRoot(b, d);
    OutsideRoot(x, b, d, r);
    f := RootFact(b.concepts, b.roots, x.facts, x.env, r);
  }

  lemma OutsideRoot(x: Input, b: Build, d: Path, r: Path)
    requires |x.dtags| == |x.etags| == |x.facts| && Built(x, b) && Outside(d) && d != [] && d <= r
    requires r in b.roots + ViewRoots(b.views)
    ensures r in b.roots
  {
    hide Built, ViewRoots;
    if r !in b.roots {
      ViewRootShape(x, b, r);
    }
  }

  lemma ViewRootShape(x: Input, b: Build, r: Path)
    requires |x.dtags| == |x.etags| == |x.facts| && Built(x, b) && r in ViewRoots(b.views)
    ensures 1 <= |r| <= 2 && r[0] == VIEWS && exists q :: q in b.views && q != [] && DirOf(q) == r
  {
    hide Built;
    var q :| q in b.views && q != [] && DirOf(q) == r;
    ViewShape(x, b, q);
  }

  lemma IndexesTold(x: Input, b: Build)
    requires |x.dtags| == |x.etags| == |x.facts| && Built(x, b)
    ensures IndexesExact(x.facts, Assemble(b), x.env)
  {
    hide Built, Assemble, IndexEntry, LeadsTo, Outside;
    forall d: Path | Outside(d)
      ensures d + [INDEX] in Assemble(b) <==> d == [] || exists f :: Shows(x.facts, f) && d <= f.dir
    {
      IndexThere(x, b, d);
    }
    forall d: Path, t | Outside(d) && d + [INDEX] in Assemble(b)
      ensures LeadsTo(Assemble(b), d + [INDEX], t) <==> IndexEntry(x.facts, Assemble(b), x.env, d, t)
    {
      IndexTold(x, b, d, t);
    }
  }

  lemma IndexTold(x: Input, b: Build, d: Path, t: Path)
    requires |x.dtags| == |x.etags| == |x.facts| && Built(x, b) && Outside(d) && d + [INDEX] in Assemble(b)
    ensures LeadsTo(Assemble(b), d + [INDEX], t) <==> IndexEntry(x.facts, Assemble(b), x.env, d, t)
  {
    var p := d + [INDEX];
    hide Built, Assemble, IndexEntry, IndexTargets, LeadsTo, LinksTo;
    IndexThere(x, b, d);
    FileAt(x, b, p);
    IndexShape(x, b, p);
    IndexPath(d);
    IndexTargetsNotEmpty(d, b.subdirs, b.concepts);
    LeadsToTargets(Assemble(b), p, IndexTargets(d, b.subdirs, b.concepts));
    IndexEntries(x, b, d, t);
  }

  lemma RelatedMeans(f: Fact, plan: Plan, env: Env, t: Path)
    ensures t in Related(f, plan, env) <==> HubOf(f, plan, env, t)
  {
    forall k ensures k in Tags(f.domains, env) <==> Hubs.Written(f.domains, env.trim, k) {
      Hubs.TagsWritten(f.domains, env.trim, k);
    }
    forall k ensures k in Tags(f.entities, env) <==> Hubs.Written(f.entities, env.trim, k) {
      Hubs.TagsWritten(f.entities, env.trim, k);
    }
    hide Tags, Hubs.Written;
    forall k | k in plan.domain ensures DomainPage(plan, k) == ["views", "domains", plan.domain[k]] {
    }
    forall k | k in plan.entity ensures EntityPage(plan, k) == ["views", "entities", plan.entity[k]] {
    }
  }

  lemma ConceptTargetsMean(x: Input, f: Fact, t: Path)
    requires PlacedAt(x.at, x.facts, x.env)
    ensures t in ConceptTargets(f, x.facts, x.at, x.plan, x.env) <==>
      HubOf(f, x.plan, x.env, t) || exists g :: g in x.facts && Cites(f, g, x.env) && t == DocPath(g, x.env.slug)
  {
    hide FactPath, DocPath, CitesBare, Refs, Tags, Related, HubOf, Cites, Local, Target;
    RelatedMeans(f, x.plan, x.env, t);
    forall g ensures LinksFact(f, g, x.env) <==> Cites(f, g, x.env) {
      LinksAreCitations(f, g, x.env);
    }
    if t in Cited(f, x.at, x.env) {
      var r :| r in Refs(f, x.env) && Local(r, x.env.id) && Target(r, x.env.id) in x.at && t == x.at[Target(r, x.env.id)];
      var g :| g in x.facts && FactPath(g) == Target(r, x.env.id);
      assert LinksFact(f, g, x.env);
    }
    if t in Citers(f, x.facts, x.env) {
      var g :| g in x.facts && CitesBare(g, f, x.env) && t == DocPath(g, x.env.slug);
      assert LinksFact(f, g, x.env);
    }
    if g :| g in x.facts && LinksFact(f, g, x.env) && t == DocPath(g, x.env.slug) {
      if CitesBare(g, f, x.env) {
        CiterListed(x, f, g);
      } else {
        var r :| r in Refs(f, x.env) && Local(r, x.env.id) && Target(r, x.env.id) == FactPath(g);
        CitationListed(x, f, g, r);
      }
    }
  }

  lemma ConceptTold(x: Input, b: Build, f: Fact, t: Path)
    requires |x.dtags| == |x.etags| == |x.facts| && Built(x, b) && Shows(x.facts, f)
    ensures LeadsTo(Assemble(b), DocPath(f, x.env.slug), t) <==>
         HubOf(f, x.plan, x.env, t) || exists g :: g in x.facts && Cites(f, g, x.env) && t == DocPath(g, x.env.slug)
  {
    hide Built, Assemble, HubOf, Cites, LeadsTo, ConceptTargets, DocPath, WellPlaced, PlacedAt, LinksTo;
    BuiltLengths(x, b);
    var p := DocPath(f, x.env.slug);
    ShownDocument(x, b, f);
    FileAt(x, b, p);
    LeadsToTargets(Assemble(b), p, ConceptTargets(f, x.facts, x.at, x.plan, x.env));
    ConceptTargetsMean(x, f, t);
    if t in ConceptTargets(f, x.facts, x.at, x.plan, x.env) { TargetNotRoot(x, f, t); }
  }

  lemma ConceptsTold(x: Input, b: Build)
    requires |x.dtags| == |x.etags| == |x.facts| && Built(x, b)
    ensures ConceptsExact(x, Assemble(b))
  {
    hide Built, Assemble, HubOf, Cites, LeadsTo, DocPath;
    forall f, t | Shows(x.facts, f)
      ensures LeadsTo(Assemble(b), DocPath(f, x.env.slug), t) <==>
         HubOf(f, x.plan, x.env, t) || exists g :: g in x.facts && Cites(f, g, x.env) && t == DocPath(g, x.env.slug)
    {
      ConceptTold(x, b, f, t);
    }
  }

  lemma TargetNotRoot(x: Input, f: Fact, t: Path)
    requires PlacedAt(x.at, x.facts, x.env) && t in ConceptTargets(f, x.facts, x.at, x.plan, x.env)
    ensures t != []
  {
    hide FactPath, CitesBare, Refs, Tags, FileName;
  }

  lemma AxisIndexes(x: Input, domains: Files, entities: Files, digests: Files)
    requires GoodInput(x) && Parts(x, domains, entities, digests)
    ensures DOMAINS_DIR + [INDEX] in Views(domains, entities, digests, x) ==> DOMAINS_DIR + [INDEX] in domains
    ensures ENTITIES_DIR + [INDEX] in Views(domains, entities, digests, x) ==> ENTITIES_DIR + [INDEX] in entities
  {
    hide GoodInput, HubDoc, Views, Closed;
    var p, q := DOMAINS_DIR + [INDEX], ENTITIES_DIR + [INDEX];
    assert p[1] == DOMAINS && q[1] == ENTITIES && DOMAINS[0] == 'd' && ENTITIES[0] == 'e';
    PartAt(x, domains, entities, digests, p);
    PartAt(x, domains, entities, digests, q);
  }

  // Under views/ the bundle has what the views have.
  lemma UnderViews(x: Input, b: Build, p: Path)
    requires |x.dtags| == |x.etags| == |x.facts| && Built(x, b) && TopExact(b.views) && p != [] && p[0] == VIEWS
    ensures p in Assemble(b) <==> p in b.views
    ensures p in b.views ==> Assemble(b)[p] == b.views[p]
  {
    hide Built, Assemble, IndexDoc, Registered, AllDirs, Indexed, ViewRoots, TopExact, DocPath;
    FileAt(x, b, p);
    assert KB[0] == 'k' && VIEWS[0] == 'v' && INDEX[0] == 'i';
    if p in b.docs { DocShape(x, b, p); }
    if p in b.indexes {
      IndexShape(x, b, p);
      ViewsDir(x, b, DirOf(p));
    }
  }

  // Every directory of the views has its index among the views.
  lemma ViewsDir(x: Input, b: Build, d: Path)
    requires |x.dtags| == |x.etags| == |x.facts| && Built(x, b) && TopExact(b.views) && d != [] && d[0] == VIEWS && d in b.dirs
    ensures d + [INDEX] in b.views
  {
    hide Built, Registered, AllDirs, Indexed, ViewRoots, TopExact;
    BuiltDirs(x, b);
    assert KB[0] == 'k' && VIEWS[0] == 'v';
    var r := DirRoot(b, d);
    if r in b.roots { RootNotViews(x, b, r); }
    ViewRootShape(x, b, r);
    var q :| q in b.views && q != [] && DirOf(q) == r;
    ViewIndexed(x, b, q, d);
  }

  lemma RootNotViews(x: Input, b: Build, r: Path)
    requires |x.dtags| == |x.etags| == |x.facts| && Built(x, b) && r in b.roots
    ensures r != [] && r[0] == KB
  {
    hide Built, Documents, Holding, WellPlaced, PlacedAt, FactId, DocPath;
    BuiltHolding(x, b);
    BuiltLengths(x, b);
    var f := RootFact(b.concepts, b.roots, x.facts, x.env, r);
    ShownPlaced(x, f);
  }

  lemma ViewIndexed(x: Input, b: Build, q: Path, d: Path)
    requires |x.dtags| == |x.etags| == |x.facts| && Built(x, b) && TopExact(b.views) && q in b.views && q != [] && d != [] && d <= DirOf(q)
    ensures d + [INDEX] in b.views
  {
    hide Built, LeadsTo;
    ViewShape(x, b, q);
    if |d| == 1 {
      assert d + [INDEX] == [VIEWS, INDEX];
    } else {
      assert d + [INDEX] == [VIEWS, q[1], INDEX];
    }
  }

  lemma ViewsStay(x: Input, b: Build)
    requires |x.dtags| == |x.etags| == |x.facts| && Built(x, b) && ViewsExact(x, b.views)
    ensures ViewsExact(x, Assemble(b)) && SameUnderViews(b.views, Assemble(b))
  {
    hide Built, Assemble, AxisExact, DigestExact, RetiredExact, TopExact;
    forall p | p != [] && p[0] == VIEWS
      ensures p in Assemble(b) <==> p in b.views
      ensures p in b.views ==> Assemble(b)[p] == b.views[p]
    {
      UnderViews(x, b, p);
    }
    SameViews(x, b.views, Assemble(b));
  }

  ghost predicate SameUnderViews(views: Files, files: Files) {
    forall p :: p != [] && p[0] == VIEWS ==> (p in files <==> p in views) && (p in views ==> files[p] == views[p])
  }

  lemma SameViews(x: Input, views: Files, files: Files)
    requires |x.dtags| == |x.etags| == |x.facts| && SameUnderViews(views, files) && ViewsExact(x, views)
    ensures ViewsExact(x, files)
  {
    hide AxisExact, DigestExact, RetiredExact, TopExact, SameUnderViews;
    SameAxis(views, files, DOMAINS, x.facts, x.dtags, x.plan.domain, true, x.env);
    SameAxis(views, files, ENTITIES, x.facts, x.etags, x.plan.entity, false, x.env);
    SameDigest(views, files, "synthesis.md", x.facts, "synthesis", x.env);
    SameDigest(views, files, "hypotheses.md", x.facts, "hypothesis", x.env);
    SameDigest(views, files, "methodology.md", x.facts, "methodology", x.env);
    SameRetired(views, files, x.facts, x.retired, x.env);
    SameTop(views, files);
  }

  lemma SameLinks(views: Files, files: Files, p: Path)
    requires SameUnderViews(views, files) && p != [] && p[0] == VIEWS
    ensures forall t :: LeadsTo(views, p, t) <==> LeadsTo(files, p, t)
    ensures p in views <==> p in files
  {
  }

  lemma SameAxis(views: Files, files: Files, axis: string, facts: seq<Fact>, tags: TagLists, pages: map<string, string>, singles: bool, env: Env)
    requires |tags| == |facts| && SameUnderViews(views, files) && AxisExact(views, ["views", axis], facts, tags, pages, singles, env)
    ensures AxisExact(files, ["views", axis], facts, tags, pages, singles, env)
  {
    hide LeadsTo, Listed, DocPath, SameUnderViews;
    var dir := ["views", axis];
    forall n: string, t ensures LeadsTo(views, dir + [n], t) <==> LeadsTo(files, dir + [n], t) {
      SameLinks(views, files, dir + [n]);
    }
  }

  lemma SameDigest(views: Files, files: Files, name: string, facts: seq<Fact>, leaf: string, env: Env)
    requires SameUnderViews(views, files) && DigestExact(views, name, facts, leaf, env)
    ensures DigestExact(files, name, facts, leaf, env)
  {
    hide LeadsTo, DocPath, SameUnderViews;
    SameLinks(views, files, ["views", name]);
  }

  lemma SameRetired(views: Files, files: Files, facts: seq<Fact>, retired: seq<Retired>, env: Env)
    requires SameUnderViews(views, files) && RetiredExact(views, facts, retired, env)
    ensures RetiredExact(files, facts, retired, env)
  {
    hide LeadsTo, DocPath, FactPath, SameUnderViews;
    SameLinks(views, files, ["views", "retired.md"]);
  }

  lemma SameTop(views: Files, files: Files)
    requires SameUnderViews(views, files) && TopExact(views)
    ensures TopExact(files)
  {
    hide LeadsTo, SameUnderViews;
    forall p | p != [] && p[0] == VIEWS ensures p in files <==> p in views {
      SameLinks(views, files, p);
    }
    SameLinks(views, files, ["views", "index.md"]);
    forall t ensures TopEntry(files, t) <==> TopEntry(views, t) {
    }
  }

  // ---------- everything is reached from the root's index ----------

  /** A way through the bundle: from the root's index on, each step a link of an index. */
  ghost predicate Trail(files: Files, trail: seq<Path>) {
    && trail != [] && trail[0] == ["index.md"] && trail[0] in files
    && forall i :: 0 <= i < |trail| - 1 ==> IndexLink(files, trail[i], trail[i + 1])
  }

  ghost predicate IndexLink(files: Files, p: Path, t: Path) {
    p != [] && p[|p| - 1] == "index.md" && LeadsTo(files, p, t)
  }

  ghost predicate Reached(files: Files, p: Path) {
    exists trail :: Trail(files, trail) && trail[|trail| - 1] == p
  }

  lemma ReachedNext(files: Files, p: Path, t: Path)
    requires Reached(files, p) && IndexLink(files, p, t)
    ensures Reached(files, t)
  {
    hide IndexLink;
    var trail :| Trail(files, trail) && trail[|trail| - 1] == p;
    assert Trail(files, trail + [t]);
  }

  lemma RootReached(files: Files)
    requires ["index.md"] in files
    ensures Reached(files, ["index.md"])
  {
    assert Trail(files, [["index.md"]]);
  }

  // The index of every directory a document is in or below.
  lemma {:induction false} DirReached(facts: seq<Fact>, files: Files, env: Env, d: Path)
    requires IndexesExact(facts, files, env) && Outside(d) && d + ["index.md"] in files
    ensures Reached(files, d + ["index.md"])
    decreases |d|
  {
    hide LeadsTo, Reached;
    if d == [] {
      RootReached(files);
      assert d + ["index.md"] == ["index.md"];
    } else {
      var up, c := d[..|d| - 1], d[|d| - 1];
      assert d == up + [c];
      var f :| Shows(facts, f) && d <= f.dir;
      assert up <= f.dir;
      DirReached(facts, files, env, up);
      assert DirOf(d + ["index.md"]) == d;
      assert d + ["index.md"] == up + [c, "index.md"] && Holds(files, up + [c]);
      assert ChildIndex(files, up, d + ["index.md"]);
      assert IndexEntry(facts, files, env, up, d + ["index.md"]);
      ReachedNext(files, up + ["index.md"], d + ["index.md"]);
    }
  }

  lemma DocumentReached(facts: seq<Fact>, files: Files, env: Env, f: Fact)
    requires IndexesExact(facts, files, env) && Shows(facts, f) && Outside(f.dir)
    ensures Reached(files, DocPath(f, env.slug))
  {
    hide LeadsTo, Reached, DocPath;
    DirReached(facts, files, env, f.dir);
    assert OwnDocument(facts, env, f.dir, DocPath(f, env.slug));
    assert IndexEntry(facts, files, env, f.dir, DocPath(f, env.slug));
    ReachedNext(files, f.dir + ["index.md"], DocPath(f, env.slug));
  }

  lemma ViewsReached(facts: seq<Fact>, files: Files, env: Env, p: Path)
    requires IndexesExact(facts, files, env) && TopExact(files)
    requires p in files && |p| >= 2 && p[0] == "views"
    ensures ["views", "index.md"] in files && Reached(files, ["views", "index.md"])
  {
    hide LeadsTo, Reached;
    var root: Path := [];
    assert root + ["index.md"] == ["index.md"];
    RootReached(files);
    var t := ["views", "index.md"];
    assert root + ["views"] <= DirOf(p);
    assert Holds(files, root + ["views"]);
    assert t == root + ["views", "index.md"];
    assert ChildIndex(files, root, t);
    assert IndexEntry(facts, files, env, root, t);
    ReachedNext(files, ["index.md"], t);
  }

  lemma TopReached(facts: seq<Fact>, files: Files, env: Env, t: Path)
    requires IndexesExact(facts, files, env) && TopExact(files) && TopEntry(files, t)
    ensures Reached(files, t)
  {
    ViewsReached(facts, files, env, t);
    hide IndexesExact, LeadsTo, Reached, TopEntry;
    ReachedNext(files, ["views", "index.md"], t);
  }

  lemma PageReached(facts: seq<Fact>, files: Files, env: Env, axis: string, tags: TagLists, pages: map<string, string>, singles: bool, k: string)
    requires IndexesExact(facts, files, env) && TopExact(files) && |tags| == |facts|
    requires AxisExact(files, ["views", axis], facts, tags, pages, singles, env)
    requires k in pages && ["views", axis, pages[k]] in files
    ensures Reached(files, ["views", axis, pages[k]])
  {
    var p, t := ["views", axis, "index.md"], ["views", axis, pages[k]];
    assert p in files && TopEntry(files, p);
    TopReached(facts, files, env, p);
    hide IndexesExact, TopExact, LeadsTo, Reached, DocPath;
    assert p == ["views", axis] + ["index.md"] && t == ["views", axis] + [pages[k]];
    assert Listed(t, ["views", axis], facts, tags, pages, singles, env);
    ReachedNext(files, p, t);
  }

  lemma ViewReached(x: Input, files: Files, p: Path)
    requires |x.dtags| == |x.etags| == |x.facts| && IndexesExact(x.facts, files, x.env) && ViewsExact(x, files)
    requires p in files && ViewNamed(x.plan, p)
    ensures Reached(files, p)
  {
    hide IndexesExact, TopExact, AxisExact, DigestExact, RetiredExact, Reached;
    if k :| k in x.plan.domain && p == DomainPage(x.plan, k) {
      assert p == ["views", "domains", x.plan.domain[k]];
      PageReached(x.facts, files, x.env, "domains", x.dtags, x.plan.domain, true, k);
    } else if k :| k in x.plan.entity && p == EntityPage(x.plan, k) {
      assert p == ["views", "entities", x.plan.entity[k]];
      PageReached(x.facts, files, x.env, "entities", x.etags, x.plan.entity, false, k);
    } else {
      PlainViewReached(x, files, p);
    }
  }

  lemma PlainViewReached(x: Input, files: Files, p: Path)
    requires |x.dtags| == |x.etags| == |x.facts| && IndexesExact(x.facts, files, x.env) && ViewsExact(x, files)
    requires p in files && ViewNamed(x.plan, p) && !(exists k :: k in x.plan.domain && p == DomainPage(x.plan, k))
    requires !(exists k :: k in x.plan.entity && p == EntityPage(x.plan, k))
    ensures Reached(files, p)
  {
    hide IndexesExact, TopExact, AxisExact, DigestExact, RetiredExact, Reached, DomainPage, EntityPage;
    assert |p| >= 2 && p[0] == "views" && (|p| == 3 ==> p[2] == INDEX);
    if p == ["views", "index.md"] {
      ViewsReached(x.facts, files, x.env, p);
    } else {
      assert TopEntry(files, p);
      TopReached(x.facts, files, x.env, p);
    }
  }

  // Every file of the bundle is reached from the root's index by following the links of indexes.
  lemma EveryFileReached(x: Input, b: Build, p: Path)
    requires |x.dtags| == |x.etags| == |x.facts| && Built(x, b) && ViewsExact(x, b.views) && p in Assemble(b)
    ensures Reached(Assemble(b), p)
  {
    IndexesTold(x, b);
    ViewsStay(x, b);
    hide Built, Assemble, IndexesExact, ViewsExact, Reached, SameUnderViews, ViewNamed, IndexDoc, DocPath;
    FileAt(x, b, p);
    if p in b.views {
      ViewsNamed(x, b, p);
      ViewReached(x, Assemble(b), p);
    } else if p in b.docs {
      var f := DocFact(x, b, p);
      DocumentReached(x.facts, Assemble(b), x.env, f);
    } else {
      IndexShape(x, b, p);
      OwnIndexOutside(x, b, p);
      DirReached(x.facts, Assemble(b), x.env, DirOf(p));
    }
  }

  lemma ViewsNamed(x: Input, b: Build, p: Path)
    requires |x.dtags| == |x.etags| == |x.facts| && Built(x, b) && p in b.views
    ensures ViewNamed(x.plan, p)
  {
    assert ViewsMade(x, b.views);
    hide Built, Closed, LinkedFrom, InViews, ViewNamed;
  }

  lemma DocFact(x: Input, b: Build, p: Path) returns (f: Fact)
    requires |x.dtags| == |x.etags| == |x.facts| && Built(x, b) && p in b.docs
    ensures Shows(x.facts, f) && DocPath(f, x.env.slug) == p && Outside(f.dir)
  {
    hide Built, Holding, Documents, DocPath, WellPlaced, PlacedAt, Outside;
    BuiltLengths(x, b);
    BuiltHolding(x, b);
    f := Rendered(b.docs, x.facts, x.facts, x.at, x.plan, x.env, p);
    ShownDir(x, f);
  }

  lemma ShownDir(x: Input, f: Fact)
    requires WellPlaced(x.facts) && f in x.facts
    ensures DirOf(DocPath(f, x.env.slug)) == f.dir && Outside(f.dir)
  {
    assert |f.dir| >= 1 && f.dir[0] == KB;
    hide WellPlaced, FactPath, FactId, FileName;
    UnderKbOutside(f.dir);
  }

  lemma UnderKbOutside(d: Path)
    requires d != [] && d[0] == KB
    ensures Outside(d)
  {
    assert d[0][0] == 'k';
  }

  lemma OwnIndexOutside(x: Input, b: Build, p: Path)
    requires |x.dtags| == |x.etags| == |x.facts| && Built(x, b) && ViewsExact(x, b.views) && p in b.indexes && p !in b.views
    ensures p != [] && Outside(DirOf(p))
  {
    hide Built, AxisExact, DigestExact, RetiredExact, TopExact, IndexDoc, Assemble;
    IndexShape(x, b, p);
    if DirOf(p) != [] && DirOf(p)[0] == VIEWS {
      UnderViews(x, b, p);
      FileAt(x, b, p);
    }
  }

  // ---------- the build ----------

  method TagListsFor(facts: seq<Fact>, domains: bool, env: Env) returns (tags: TagLists)
    ensures TagListsOf(tags, facts)
    ensures forall i :: 0 <= i < |facts| ==> tags[i] == Tags(if domains then facts[i].domains else facts[i].entities, env)
  {
    tags := [];
    for i := 0 to |facts|
      invariant |tags| == i
      invariant forall j :: 0 <= j < i ==> tags[j] == Tags(if domains then facts[j].domains else facts[j].entities, env)
    {
      var t := Hubs.DedupeStable(if domains then facts[i].domains else facts[i].entities, env.trim);
      tags := tags + [t];
    }
  }

  lemma PlannedPages(pages: map<string, string>, tags: TagLists, slug: string -> string, min: nat)
    requires min > 0 && Hubs.Planned(pages, tags, slug, min)
    ensures PagesOf(pages, tags)
  {
  }

  /** Pass 1 and the hub plan. */
  method PlanBundle(facts: seq<Fact>, retired: seq<Retired>, env: Env) returns (x: Input)
    requires WellPlaced(facts)
    ensures x.facts == facts && x.retired == retired && x.env == env && |x.dtags| == |x.etags| == |x.facts|
    ensures GoodInput(x) && TagsPlanned(x)
  {
    hide TagListsOf, PagesOf, PlacedAt, WellPlaced, Hubs.Planned;
    var at := Place(facts, env);
    var dtags := TagListsFor(facts, true, env);
    var etags := TagListsFor(facts, false, env);
    TagListsShape(dtags, facts);
    TagListsShape(etags, facts);
    var dpages := Hubs.PlanHubs(dtags, env.slug, Hubs.DOMAIN_MIN);
    var epages := Hubs.PlanHubs(etags, env.slug, Hubs.ENTITY_MIN);
    PlannedPages(dpages, dtags, env.slug, Hubs.DOMAIN_MIN);
    PlannedPages(epages, etags, env.slug, Hubs.ENTITY_MIN);
    x := Input(facts, dtags, etags, Plan(dpages, epages), retired, at, env);
  }

  /** The hub pages are those the facts' own tags call for. */
  ghost predicate TagsPlanned(x: Input)
    requires |x.dtags| == |x.etags| == |x.facts|
  {
    && (forall i :: 0 <= i < |x.facts| ==> x.dtags[i] == Tags(x.facts[i].domains, x.env) && x.etags[i] == Tags(x.facts[i].entities, x.env))
    && Hubs.Planned(x.plan.domain, x.dtags, x.env.slug, Hubs.DOMAIN_MIN)
    && Hubs.Planned(x.plan.entity, x.etags, x.env.slug, Hubs.ENTITY_MIN)
  }

  /** Pass 2, the views and the indexes. */
  method RenderAll(x: Input) returns (b: Build)
    requires GoodInput(x) && |x.dtags| == |x.etags| == |x.facts| && TagsPlanned(x)
    ensures Built(x, b) && ViewsExact(x, b.views)
  {
    InputFacts(x);
    hide ViewsExact, GoodInput, Documents, Holding, Registered, AllDirs, Indexed, ViewsMade, PlacedAt, WellPlaced, Hubs.Planned;
    var docs, concepts, subdirs;
    ghost var roots;
    docs, concepts, subdirs, roots := Render(x.facts, x.at, x.plan, x.env);
    var views := BuildViews(x);
    RootsAre(concepts, roots, x.facts, x.env);
    subdirs := RegisterViews(views, subdirs, roots);
    var dirs := CollectDirs(subdirs, concepts.Keys);
    var indexes := BuildIndexes(dirs, subdirs, concepts);
    b := Build(docs, concepts, concepts.Keys, views, subdirs, dirs, indexes);
  }

  lemma InputFacts(x: Input)
    requires GoodInput(x)
    ensures WellPlaced(x.facts) && PlacedAt(x.at, x.facts, x.env)
  {
  }

  // Builds the bundle: plans the hub pages and every document's path, then renders. The result's
  // links all lead to its files exactly when no skipped fact is linked.
  method BuildBundle(facts: seq<Fact>, retired: seq<Retired>, env: Env) returns (files: Files, ghost x: Input)
    requires WellPlaced(facts)
    ensures x.facts == facts && x.retired == retired && x.env == env && |x.dtags| == |x.etags| == |x.facts| && TagsPlanned(x)
    ensures forall i :: 0 <= i < |facts| ==> (DocPath(facts[i], env.slug) in files <==> !facts[i].fails)
    ensures (forall p :: p in files ==> p != [] && FileLeads(files, p)) <==> NoneLinkedSkipped(x)
    ensures (forall i :: 0 <= i < |facts| ==> !facts[i].fails) ==> forall p :: p in files ==> p != [] && FileLeads(files, p)
    ensures PlainNames(facts, env) ==> forall p, q :: p in files && q in files && JoinSegs(p) == JoinSegs(q) ==> p == q
    ensures IndexesExact(facts, files, env) && ViewsExact(x, files) && ConceptsExact(x, files)
    ensures forall p :: p in files ==> Reached(files, p)
  {
    hide IndexesExact, ViewsExact, ConceptsExact, Reached, SameUnderViews, GoodInput, WellPlaced, FileLeads, NoneLinkedSkipped, DocPath, Built, Assemble, TagsPlanned, PlainNames, JoinSegs;
    var input := PlanBundle(facts, retired, env);
    x := input;
    var b := RenderAll(input);
    files := Assemble(b);
    LinksLead(x, b);
    if PlainNames(facts, env) {
      FilesApart(x, b);
    }
    forall i | 0 <= i < |facts|
      ensures DocPath(facts[i], env.slug) in files <==> !facts[i].fails
    {
      DocumentIn(x, b, i);
    }
    IndexesTold(x, b);
    ViewsStay(x, b);
    ConceptsTold(x, b);
    forall p | p in files ensures Reached(files, p) {
      EveryFileReached(x, b, p);
    }
  }

  lemma TagListsShape(tags: TagLists, facts: seq<Fact>)
    requires TagListsOf(tags, facts)
    ensures |tags| == |facts|
    ensures forall i, j, k :: 0 <= i < |tags| && 0 <= j < k < |tags[i]| ==> tags[i][j] != tags[i][k]
  {
  }

  lemma RootsAre(concepts: map<Path, set<string>>, roots: set<Path>, some: seq<Fact>, env: Env)
    requires Holding(concepts, roots, some, env)
    ensures concepts.Keys == roots
  {
  }

  // The views' directories become children of their parents.
  method RegisterViews(views: Files, subdirs: map<Path, set<string>>, ghost roots: set<Path>) returns (next: map<Path, set<string>>)
    requires Registered(subdirs, roots)
    ensures Registered(next, roots + ViewRoots(views))
  {
    hide Registered;
    next := subdirs;
    var dirs := ViewRoots(views);
    var rest := dirs;
    assert roots + (dirs - rest) == roots;
    while rest != {}
      invariant rest <= dirs && Registered(next, roots + (dirs - rest))
      decreases |rest|
    {
      var d :| d in rest;
      next := RegisterDir(next, d, roots + (dirs - rest));
      assert roots + (dirs - rest) + {d} == roots + (dirs - (rest - {d}));
      rest := rest - {d};
    }
    assert roots + (dirs - rest) == roots + dirs;
  }

  // ---------- paths as files ----------

  predicate NoSlash(p: Path) {
    forall i :: 0 <= i < |p| ==> '/' !in p[i]
  }

  /** Nothing a path is made of holds a slash: directories are cut at slashes, and slugs have none. */
  ghost predicate PlainNames(facts: seq<Fact>, env: Env) {
    (forall t :: '/' !in env.slug(t)) && forall f :: f in facts ==> NoSlash(f.dir)
  }

  // Different paths of such segments are different files.
  lemma {:induction false} JoinSegsInjective(a: Path, b: Path)
    requires a != [] && b != [] && NoSlash(a) && NoSlash(b) && JoinSegs(a) == JoinSegs(b)
    ensures a == b
    decreases |a|
  {
    HeadOf(a);
    HeadOf(b);
    if |a| > 1 && |b| > 1 {
      assert JoinSegs(a)[|a[0]| + 1..] == JoinSegs(a[1..]) && JoinSegs(b)[|b[0]| + 1..] == JoinSegs(b[1..]);
      JoinSegsInjective(a[1..], b[1..]);
      assert a == [a[0]] + a[1..] && b == [b[0]] + b[1..];
    }
  }

  // The first segment ends at the first slash.
  lemma HeadOf(a: Path)
    requires a != [] && NoSlash(a)
    ensures First(JoinSegs(a), '/') == |a[0]| && JoinSegs(a)[..|a[0]|] == a[0] && (|a| > 1 <==> |a[0]| < |JoinSegs(a)|)
  {
    var s := JoinSegs(a);
    if |a| == 1 {
      NoFirst(a[0], '/');
    } else {
      assert s == a[0] + ("/" + JoinSegs(a[1..]));
      FirstIs(s, '/', |a[0]|);
    }
  }

  lemma PrefixNoSlash(p: Path, q: Path)
    requires p <= q && NoSlash(q)
    ensures NoSlash(p)
  {
  }

  lemma FileNameNoSlash(f: Fact, env: Env)
    requires (forall t :: '/' !in env.slug(t)) && FactId(f.base)
    ensures '/' !in FileName(f, env.slug)
  {
  }

  lemma PageNameNoSlash(pages: map<string, string>, tags: TagLists, env: Env, min: nat, k: string)
    requires (forall t :: '/' !in env.slug(t)) && Hubs.Planned(pages, tags, env.slug, min) && k in pages
    ensures '/' !in pages[k]
  {
    var n: nat :| n >= 1 && pages[k] == Hubs.Name(env.slug(k), n);
    assert '/' !in ".md" && '/' !in Itoa(n);
  }

  lemma ViewNoSlash(x: Input, p: Path)
    requires |x.dtags| == |x.etags| == |x.facts| && TagsPlanned(x) && PlainNames(x.facts, x.env) && ViewNamed(x.plan, p)
    ensures NoSlash(p)
  {
    hide Hubs.Planned, Tags;
    if k :| k in x.plan.domain && p == DomainPage(x.plan, k) {
      PageNameNoSlash(x.plan.domain, x.dtags, x.env, Hubs.DOMAIN_MIN, k);
    }
    if k :| k in x.plan.entity && p == EntityPage(x.plan, k) {
      PageNameNoSlash(x.plan.entity, x.etags, x.env, Hubs.ENTITY_MIN, k);
    }
  }

  lemma ViewsNoSlash(x: Input, views: Files)
    requires |x.dtags| == |x.etags| == |x.facts| && TagsPlanned(x) && PlainNames(x.facts, x.env) && ViewsMade(x, views)
    ensures forall p :: p in views ==> NoSlash(p)
  {
    hide TagsPlanned, PlainNames, Closed, LinkedFrom, InViews;
    forall p | p in views ensures NoSlash(p) {
      assert ViewNamed(x.plan, p);
      ViewNoSlash(x, p);
    }
  }

  lemma RootsNoSlash(x: Input, b: Build)
    requires |x.dtags| == |x.etags| == |x.facts| && Built(x, b) && TagsPlanned(x) && PlainNames(x.facts, x.env)
    ensures forall r :: r in b.roots + ViewRoots(b.views) ==> NoSlash(r)
  {
    hide TagsPlanned, Registered, AllDirs, Indexed, GoodInput, Documents, Tags;
    ViewsNoSlash(x, b.views);
    hide ViewsMade;
    forall r | r in b.roots + ViewRoots(b.views) ensures NoSlash(r) {
      if r in b.roots {
        var f :| Shows(x.facts, f) && f.dir == r;
        assert f in x.facts;
      } else {
        var p :| p in b.views && p != [] && DirOf(p) == r;
        PrefixNoSlash(r, p);
      }
    }
  }

  lemma DirsNoSlash(b: Build)
    requires Registered(b.subdirs, b.roots + ViewRoots(b.views)) && AllDirs(b.dirs, b.subdirs, b.roots)
    requires forall r :: r in b.roots + ViewRoots(b.views) ==> NoSlash(r)
    ensures forall d :: d in b.dirs ==> NoSlash(d)
  {
    hide ViewRoots;
    forall d | d in b.dirs ensures NoSlash(d) {
      if d in b.subdirs {
        var c :| c in b.subdirs[d];
        assert OnTheWay(b.roots + ViewRoots(b.views), d, c);
        var r :| r in b.roots + ViewRoots(b.views) && d + [c] <= r;
        PrefixNoSlash(d + [c], r);
        PrefixNoSlash(d, d + [c]);
      } else if d != [] {
        var r :| r in b.roots && d <= r;
        PrefixNoSlash(d, r);
      }
    }
  }

  lemma FileNoSlash(x: Input, b: Build, p: Path)
    requires |x.dtags| == |x.etags| == |x.facts| && Built(x, b) && TagsPlanned(x) && PlainNames(x.facts, x.env)
    requires p in Assemble(b)
    ensures p != [] && NoSlash(p)
  {
    hide Built, TagsPlanned, PlainNames, Assemble, DocPath, Indexed, Registered, AllDirs, NoSlash;
    FileAt(x, b, p);
    if p in b.docs {
      DocFileNoSlash(x, b, p);
    } else if p in b.views {
      ViewFilesNoSlash(x, b);
    } else {
      AllDirsNoSlash(x, b);
      BuiltDirs(x, b);
      IndexNoSlash(b.indexes, b.dirs, b.subdirs, b.concepts, p);
    }
  }

  lemma AllDirsNoSlash(x: Input, b: Build)
    requires |x.dtags| == |x.etags| == |x.facts| && Built(x, b) && TagsPlanned(x) && PlainNames(x.facts, x.env)
    ensures forall d :: d in b.dirs ==> NoSlash(d)
  {
    hide Built, TagsPlanned, PlainNames, Registered, AllDirs, Indexed, ViewRoots, NoSlash;
    RootsNoSlash(x, b);
    BuiltDirs(x, b);
    DirsNoSlash(b);
  }

  lemma IndexNoSlash(indexes: Files, dirs: set<Path>, subdirs: map<Path, set<string>>, concepts: map<Path, set<string>>, p: Path)
    requires Indexed(indexes, dirs, subdirs, concepts) && p in indexes && forall d :: d in dirs ==> NoSlash(d)
    ensures p != [] && NoSlash(p)
  {
    hide Indexed, IndexDoc, NoSlash;
    IndexedShape(indexes, dirs, subdirs, concepts, p);
    AppendNoSlash(DirOf(p));
  }

  lemma AppendNoSlash(d: Path)
    requires NoSlash(d)
    ensures NoSlash(d + [INDEX])
  {
    assert '/' !in INDEX;
  }

  // So no two of the bundle's documents are written to one file.
  lemma FilesApart(x: Input, b: Build)
    requires |x.dtags| == |x.etags| == |x.facts| && Built(x, b) && TagsPlanned(x) && PlainNames(x.facts, x.env)
    ensures forall p :: p in Assemble(b) ==> p != [] && NoSlash(p)
    ensures forall p, q :: p in Assemble(b) && q in Assemble(b) && JoinSegs(p) == JoinSegs(q) ==> p == q
  {
    hide Built, TagsPlanned, PlainNames, Assemble, JoinSegs, NoSlash;
    forall p | p in Assemble(b) ensures p != [] && NoSlash(p) {
      FileNoSlash(x, b, p);
    }
    forall p, q | p in Assemble(b) && q in Assemble(b) && JoinSegs(p) == JoinSegs(q) ensures p == q {
      JoinSegsInjective(p, q);
    }
  }

  lemma DocFileNoSlash(x: Input, b: Build, p: Path)
    requires |x.dtags| == |x.etags| == |x.facts| && Built(x, b) && PlainNames(x.facts, x.env) && p in b.docs
    ensures NoSlash(p)
  {
    hide Built, FileName;
    DocShape(x, b, p);
    BuiltLengths(x, b);
    var f :| Shows(x.facts, f) && DocPath(f, x.env.slug) == p;
    ShownPlaced(x, f);
    FileNameNoSlash(f, x.env);
  }

  lemma ViewFilesNoSlash(x: Input, b: Build)
    requires |x.dtags| == |x.etags| == |x.facts| && Built(x, b) && TagsPlanned(x) && PlainNames(x.facts, x.env)
    ensures forall p :: p in b.views ==> NoSlash(p)
  {
    hide TagsPlanned, PlainNames, ViewsMade, Registered, AllDirs, Indexed, GoodInput, Documents, Holding, Tags;
    ViewsNoSlash(x, b.views);
  }

  // ---------- slugs ----------

  const SLUG_MAX := 60

  predicate SlugChar(c: char) {
    'a' <= c <= 'z' || '0' <= c <= '9'
  }

  /** Letters and digits kept, each run of anything else one hyphen. */
  method Hyphenate(folded: string) returns (s: string)
    ensures forall i :: 0 <= i < |s| ==> SlugChar(s[i]) || s[i] == '-'
    ensures forall i :: 0 <= i < |s| - 1 ==> s[i] != '-' || s[i + 1] != '-'
  {
    s := "";
    var prevHyphen := false;
    for k := 0 to |folded|
      invariant forall i :: 0 <= i < |s| ==> SlugChar(s[i]) || s[i] == '-'
      invariant forall i :: 0 <= i < |s| - 1 ==> s[i] != '-' || s[i + 1] != '-'
      invariant prevHyphen <==> s != "" && s[|s| - 1] == '-'
    {
      if SlugChar(folded[k]) {
        s := s + [folded[k]];
        prevHyphen := false;
      } else if !prevHyphen {
        s := s + "-";
        prevHyphen := true;
      }
    }
  }

  /** Cut at the last hyphen within the limit, and at the limit when there is none. */
  function TruncateAtHyphen(s: string): (r: string)
    ensures |r| <= SLUG_MAX && r <= s
    ensures |s| <= SLUG_MAX ==> r == s
    ensures |s| > SLUG_MAX && r != s[..SLUG_MAX] ==> s[|r|] == '-' && r != ""
  {
    if |s| <= SLUG_MAX then s
    else
      var head := s[..SLUG_MAX];
      var i := Last(head, '-');
      if 0 < i < |head| then head[..i] else head
  }

  // A slug is at most 60 letters, digits and single hyphens, and starts with none: never a slash.
  method Slugify(folded: string) returns (s: string)
    ensures |s| <= SLUG_MAX && forall i :: 0 <= i < |s| ==> SlugChar(s[i]) || s[i] == '-'
    ensures '/' !in s && (s != "" ==> s[0] != '-')
    ensures forall i :: 0 <= i < |s| - 1 ==> s[i] != '-' || s[i + 1] != '-'
  {
    var h := Hyphenate(folded);
    var i, j := 0, |h|;
    while i < j && h[i] == '-'
      invariant 0 <= i <= j
    {
      i := i + 1;
    }
    while i < j && h[j - 1] == '-'
      invariant i <= j <= |h| && (i < j ==> h[i] != '-')
    {
      j := j - 1;
    }
    s := TruncateAtHyphen(h[i..j]);
    assert forall k :: 0 <= k < |s| ==> s[k] == h[i..j][k] == h[i + k];
  }

  // ---------- backlinks ----------

  // Every other fact that g's citations link lists g as citing it if and only if each local reference
  // of g to a fact of the bundle is there, too, as that fact's own path.
  lemma CitersComplete(facts: seq<Fact>, at: map<string, Path>, env: Env, g: Fact)
    requires WellPlaced(facts) && PlacedAt(at, facts, env) && g in facts
    ensures (forall f :: f in facts && FactPath(f) != FactPath(g) && DocPath(f, env.slug) in Cited(g, at, env) ==>
              DocPath(g, env.slug) in Citers(f, facts, env)) <==>
            (forall r :: r in Refs(g, env) && Local(r, env.id) && Target(r, env.id) in at && Target(r, env.id) != FactPath(g) ==>
              Target(r, env.id) in Refs(g, env))
  {
    hide Refs, DocPath, JoinSegs, FactPath, Local, Target;
    forall f | f in facts && FactPath(f) != FactPath(g)
      ensures DocPath(g, env.slug) in Citers(f, facts, env) <==> FactPath(f) in Refs(g, env)
      ensures DocPath(f, env.slug) in Cited(g, at, env) <==> LinksByRef(g, f, env)
    {
      ListedBare(facts, env, g, f);
      LinkedByRef(facts, at, env, g, f);
    }
    forall r | r in Refs(g, env) && Local(r, env.id) && Target(r, env.id) in at && Target(r, env.id) != FactPath(g)
      ensures exists f :: f in facts && FactPath(f) == Target(r, env.id) && LinksByRef(g, f, env)
    {
      var f :| f in facts && FactPath(f) == Target(r, env.id);
      assert LinksByRef(g, f, env);
    }
  }

  /** A reference of g, in whatever form, names f. */
  ghost predicate LinksByRef(g: Fact, f: Fact, env: Env) {
    exists r :: r in Refs(g, env) && Local(r, env.id) && Target(r, env.id) == FactPath(f)
  }

  lemma LinkedByRef(facts: seq<Fact>, at: map<string, Path>, env: Env, g: Fact, f: Fact)
    requires WellPlaced(facts) && PlacedAt(at, facts, env) && g in facts && f in facts
    ensures DocPath(f, env.slug) in Cited(g, at, env) <==> LinksByRef(g, f, env)
  {
    hide Refs, DocPath, JoinSegs, FactPath, Local, Target;
    if DocPath(f, env.slug) in Cited(g, at, env) {
      var r :| r in Refs(g, env) && Local(r, env.id) && Target(r, env.id) in at && at[Target(r, env.id)] == DocPath(f, env.slug);
      var h :| h in facts && FactPath(h) == Target(r, env.id);
      DocPathsDistinct(h, f, env.slug);
    }
  }

  lemma ListedBare(facts: seq<Fact>, env: Env, g: Fact, f: Fact)
    requires WellPlaced(facts) && g in facts && f in facts && FactPath(f) != FactPath(g)
    ensures DocPath(g, env.slug) in Citers(f, facts, env) <==> FactPath(f) in Refs(g, env)
  {
    UnderKb(f);
    hide Refs, DocPath, JoinSegs, FactPath;
    if DocPath(g, env.slug) in Citers(f, facts, env) {
      var h :| h in facts && CitesBare(h, f, env) && DocPath(h, env.slug) == DocPath(g, env.slug);
      DocPathsDistinct(h, g, env.slug);
      var i :| 0 <= i < |facts| && facts[i] == h;
      var j :| 0 <= j < |facts| && facts[j] == g;
      assert i == j;
    }
  }

  lemma UnderKb(f: Fact)
    requires |f.dir| >= 1 && f.dir[0] == KB
    ensures IsPrefix("kb/", FactPath(f))
  {
    var p := f.dir + [f.base + MD];
    assert FactPath(f) == p[0] + ("/" + JoinSegs(p[1..]));
    assert FactPath(f)[..3] == "kb/";
  }

  // A citation in canonical form links the fact it names, but that fact's document does not list the
  // citing one: only bare paths are turned around.
  lemma CanonicalCitationNotListed(f: Fact, g: Fact, env: Env)
    requires RepoId(env.id) && FactPath(f) != "" && Lower(FactPath(f)) == FactPath(f) && FactPath(f) != FactPath(g)
    requires Refs(g, env) == [QualifyKbPath(env.id, FactPath(f))]
    ensures LinksFact(g, f, env) && !CitesBare(g, f, env)
  {
    var r := QualifyKbPath(env.id, FactPath(f));
    CanonicalIsLocal(FactPath(f), env.id);
    assert r in Refs(g, env);
    assert |r| == |KB_SCHEME| + |env.id| + 1 + |FactPath(f)|;
  }
}
