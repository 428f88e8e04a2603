/**
 Learning a batch of facts (internal/mcp/learn.go): folding each incoming fact into the
 near-duplicate it matches, stamping evidence weights and canonical refs, with the facts, their
 paths, the pending files, the donated embeddings and the retractions kept in step.
*/
module Learn {
  import opened Wrappers
  import opened Strings

  type Path = string
  type Vec = seq<real>

  datatype Error = Invalid(index: nat) | Unserializable(index: nat) | Duplicate(first: nat, again: nat)

  datatype Fact = Fact(
    path: Path,              // the fact's identity: its path in normal form
    title: string, body: string, kind: string, leaf: string, origin: string,
    domain: seq<string>, entities: seq<string>,
    confidence: real, sources: int, refs: seq<string>, weight: real)

  const HYPOTHESIS := "hypothesis"
  const DISTILLED := "distilled"
  const DISCOVERED := "discovered"

  /** What a call sees from outside: the branch's readable facts by on-disk path, and the
      serializer, the ontology's verdict, the embedder and path normalisation. */
  datatype World = World(
    corpus: map<Path, Fact>,
    ser: Fact -> Option<string>,
    valid: (string, Fact) -> bool,
    embed: (string, string) -> Vec,
    lower: Path -> Path)

  ghost predicate Sound(w: World) {
    && (forall p :: p in w.corpus ==> w.corpus[p].path == w.lower(p))
    && (forall p :: w.lower(w.lower(p)) == w.lower(p))
  }

  /** One call's input: the built facts, their topics ("" for private state), their paths, and
      what the search for each found. */
  datatype Input = Input(facts: seq<Fact>, topics: seq<string>, paths: seq<Path>, hits: seq<Option<Path>>)

  ghost predicate Distinct(paths: seq<Path>) {
    forall i, j :: 0 <= i < j < |paths| ==> paths[i] != paths[j]
  }

  /** Built facts at distinct paths that are not yet in the branch. */
  ghost predicate Fresh(w: World, input: Input) {
    && |input.facts| == |input.topics| == |input.paths| == |input.hits|
    && Distinct(input.paths)
    && (forall i :: 0 <= i < |input.paths| ==> input.paths[i] !in w.corpus)
    && (forall i :: 0 <= i < |input.paths| ==> input.facts[i].path == w.lower(input.paths[i]))
  }

  lemma Lengths(w: World, input: Input)
    requires Fresh(w, input)
    ensures |input.facts| == |input.topics| == |input.paths| == |input.hits|
  {
  }

  // ---------- merging ----------

  /** The incoming fact's identity survives: more confident, or as confident with no fewer sources. */
  predicate NewFactWins(f: Fact, existing: Fact) {
    if f.confidence != existing.confidence then f.confidence > existing.confidence
    else f.sources >= existing.sources
  }

  function MergeFacts(w: World, f: Fact, existing: Fact, existingPath: Path): Fact {
    var id := if NewFactWins(f, existing) then f else existing;
    Fact(w.lower(existing.path), id.title, id.body, id.kind, id.leaf, id.origin,
         Firsts(f.domain + existing.domain), Firsts(f.entities + existing.entities),
         if f.confidence > existing.confidence then f.confidence else existing.confidence,
         f.sources + existing.sources,
         AppendUnique(Firsts(f.refs + existing.refs), existingPath), 0.0)
  }

  predicate Subsumes(f: Fact, existing: Fact) {
    existing.leaf == HYPOTHESIS && f.leaf != HYPOTHESIS
  }

  // ---------- what a call should come to ----------

  /** The readable existing fact input i matched. Private facts match nothing. */
  function Hit(w: World, input: Input, i: nat): Option<Path>
    requires i < |input.hits| && i < |input.topics|
  {
    if input.topics[i] != "" && input.hits[i].Some? && input.hits[i].value in w.corpus then input.hits[i] else None
  }

  /** Of the inputs that match one existing fact, the first absorbs it; the others stand alone. */
  ghost predicate Absorbs(w: World, input: Input, i: nat)
    requires i < |input.hits| && |input.hits| == |input.topics|
  {
    Hit(w, input, i).Some? && forall j :: 0 <= j < i ==> Hit(w, input, j) != Hit(w, input, i)
  }

  ghost predicate Settles(w: World, input: Input, i: nat)
    requires i < |input.hits| && |input.hits| == |input.topics| == |input.facts|
  {
    Absorbs(w, input, i) && Subsumes(input.facts[i], w.corpus[Hit(w, input, i).value])
  }

  ghost predicate Merges(w: World, input: Input, i: nat)
    requires i < |input.hits| && |input.hits| == |input.topics| == |input.facts|
  {
    Absorbs(w, input, i) && !Subsumes(input.facts[i], w.corpus[Hit(w, input, i).value])
  }

  ghost function FinalFact(w: World, input: Input, i: nat): Fact
    requires i < |input.hits| && |input.hits| == |input.topics| == |input.facts|
  {
    var f := input.facts[i];
    if Settles(w, input, i) then f.(refs := AppendUnique(f.refs, Hit(w, input, i).value))
    else if Merges(w, input, i) then MergeFacts(w, f, w.corpus[Hit(w, input, i).value], Hit(w, input, i).value)
    else f
  }

  ghost function FinalPath(w: World, input: Input, i: nat): Path
    requires i < |input.hits| && |input.hits| == |input.topics| == |input.facts| == |input.paths|
  {
    if Merges(w, input, i) then Hit(w, input, i).value else input.paths[i]
  }

  /** The hypotheses the first n inputs settle, in order. */
  ghost function Retracted(w: World, input: Input, n: nat): seq<Path>
    requires n <= |input.hits| && |input.hits| == |input.topics| == |input.facts|
  {
    if n == 0 then []
    else if Settles(w, input, n - 1) then Retracted(w, input, n - 1) + [Hit(w, input, n - 1).value]
    else Retracted(w, input, n - 1)
  }

  /** What the existing facts merged into cited already. */
  ghost predicate PriorRefs(w: World, input: Input, n: nat, prior: map<Path, seq<string>>)
    requires n <= |input.hits| && |input.hits| == |input.topics| == |input.facts| == |input.paths|
  {
    && (forall i :: 0 <= i < n && Merges(w, input, i) ==> FinalPath(w, input, i) in prior)
    && (forall p :: p in prior ==> p in w.corpus && prior[p] == w.corpus[p].refs)
    && (forall p :: p in prior ==> exists i :: 0 <= i < n && Merges(w, input, i) && FinalPath(w, input, i) == p)
  }

  /** The vector embedded for input i describes what is written at its final path. */
  ghost predicate Donates(w: World, input: Input, i: nat)
    requires i < |input.hits| && |input.hits| == |input.topics| == |input.facts|
  {
    input.topics[i] != "" && (Merges(w, input, i) ==> NewFactWins(input.facts[i], w.corpus[Hit(w, input, i).value]))
  }

  /** The call is refused over input i: what it comes to cannot be written. */
  ghost predicate Fails(w: World, input: Input, i: nat)
    requires i < |input.hits| && |input.hits| == |input.topics| == |input.facts|
  {
    && Absorbs(w, input, i)
    && (w.ser(FinalFact(w, input, i)).None? || (Merges(w, input, i) && !w.valid(input.topics[i], FinalFact(w, input, i))))
  }

  // ---------- in step ----------

  /** Facts, paths and pending files are in step. */
  ghost predicate InStep(w: World, facts: seq<Fact>, paths: seq<Path>, files: map<Path, string>) {
    && |facts| == |paths| && Distinct(paths)
    && (forall p :: p in files <==> p in paths)
    && forall i :: 0 <= i < |paths| ==> Written(w, facts[i], paths[i], files)
  }

  ghost predicate Written(w: World, f: Fact, path: Path, files: map<Path, string>) {
    path in files && w.ser(f) == Some(files[path]) && f.path == w.lower(path)
  }

  lemma FinalPathsDistinct(w: World, input: Input)
    requires Fresh(w, input)
    ensures forall i, j :: 0 <= i < j < |input.paths| ==> FinalPath(w, input, i) != FinalPath(w, input, j)
  {
    forall i, j | 0 <= i < j < |input.paths|
      ensures FinalPath(w, input, i) != FinalPath(w, input, j)
    {
      if Merges(w, input, i) && Merges(w, input, j) {
        assert Hit(w, input, i) != Hit(w, input, j);
      }
    }
  }

  // ---------- folding duplicates in ----------

  ghost predicate Progress(w: World, input: Input, i: nat, facts: seq<Fact>, paths: seq<Path>, donate: seq<Path>)
    requires Fresh(w, input) && i <= |input.facts|
  {
    && |facts| == |paths| == |donate| == |input.facts|
    && (forall j :: 0 <= j < i ==> facts[j] == FinalFact(w, input, j) && paths[j] == FinalPath(w, input, j))
    && (forall j :: 0 <= j < i ==> donate[j] == if Donates(w, input, j) then FinalPath(w, input, j) else "")
    && (forall j :: i <= j < |facts| ==> facts[j] == input.facts[j] && paths[j] == input.paths[j] && donate[j] == input.paths[j])
  }

  ghost predicate Consumed(w: World, input: Input, i: nat, consumed: set<Path>)
    requires Fresh(w, input) && i <= |input.facts|
  {
    && (forall j :: 0 <= j < i && Hit(w, input, j).Some? ==> Hit(w, input, j).value in consumed)
    && (forall p :: p in consumed ==> exists j :: 0 <= j < i && Hit(w, input, j) == Some(p))
  }

  // Whether input i is the first to match is what the consumed set tells.
  lemma AbsorbsIffUnconsumed(w: World, input: Input, i: nat, consumed: set<Path>)
    requires Fresh(w, input) && i < |input.facts| && Consumed(w, input, i, consumed)
    ensures Absorbs(w, input, i) <==> Hit(w, input, i).Some? && Hit(w, input, i).value !in consumed
  {
  }

  lemma ConsumedNext(w: World, input: Input, i: nat, consumed: set<Path>)
    requires Fresh(w, input) && i < |input.facts| && Consumed(w, input, i, consumed)
    ensures Consumed(w, input, i + 1, if Hit(w, input, i).Some? then consumed + {Hit(w, input, i).value} else consumed)
  {
    var next := if Hit(w, input, i).Some? then consumed + {Hit(w, input, i).value} else consumed;
    forall p | p in next
      ensures exists j :: 0 <= j < i + 1 && Hit(w, input, j) == Some(p)
    {
      if p in consumed {
        var j :| 0 <= j < i && Hit(w, input, j) == Some(p);
        assert j < i + 1;
      } else {
        assert Hit(w, input, i) == Some(p);
      }
    }
  }

  lemma RetractedConsumed(w: World, input: Input, i: nat, consumed: set<Path>)
    requires Fresh(w, input) && i <= |input.facts| && Consumed(w, input, i, consumed)
    ensures forall p :: p in Retracted(w, input, i) ==> p in consumed
  {
    RetractedFrom(w, input, i);
  }

  lemma {:induction false} RetractedFrom(w: World, input: Input, i: nat)
    requires Fresh(w, input) && i <= |input.facts|
    ensures forall p :: p in Retracted(w, input, i) <==> exists j :: 0 <= j < i && Settles(w, input, j) && Hit(w, input, j) == Some(p)
    decreases i
  {
    if i > 0 {
      RetractedFrom(w, input, i - 1);
      forall p
        ensures p in Retracted(w, input, i) <==> exists j :: 0 <= j < i && Settles(w, input, j) && Hit(w, input, j) == Some(p)
      {
        if exists j :: 0 <= j < i && Settles(w, input, j) && Hit(w, input, j) == Some(p) {
          var j :| 0 <= j < i && Settles(w, input, j) && Hit(w, input, j) == Some(p);
          assert j < i - 1 ==> p in Retracted(w, input, i - 1);
        }
      }
    }
  }

  // Rewriting a fact where it stands keeps the files in step.
  lemma InStepRewrite(w: World, facts: seq<Fact>, paths: seq<Path>, files: map<Path, string>, i: nat, f: Fact)
    requires InStep(w, facts, paths, files) && i < |facts| && w.ser(f).Some? && f.path == w.lower(paths[i])
    ensures InStep(w, facts[i := f], paths, files[paths[i] := w.ser(f).value])
  {
    var facts', files' := facts[i := f], files[paths[i] := w.ser(f).value];
    forall j | 0 <= j < |paths|
      ensures Written(w, facts'[j], paths[j], files')
    {
      assert Written(w, facts[j], paths[j], files);
    }
  }

  // Moving a fact to a path no other fact of the batch has keeps them in step.
  lemma InStepMove(w: World, facts: seq<Fact>, paths: seq<Path>, files: map<Path, string>, i: nat, f: Fact, to: Path)
    requires InStep(w, facts, paths, files) && i < |facts| && w.ser(f).Some? && f.path == w.lower(to)
    requires to !in paths
    ensures InStep(w, facts[i := f], paths[i := to], (files - {paths[i]})[to := w.ser(f).value])
  {
    var facts', paths', files' := facts[i := f], paths[i := to], (files - {paths[i]})[to := w.ser(f).value];
    forall j | 0 <= j < |paths|
      ensures Written(w, facts'[j], paths'[j], files')
    {
      assert Written(w, facts[j], paths[j], files);
    }
    forall p
      ensures p in files' <==> p in paths'
    {
      if p in paths && p != paths[i] {
        var j :| 0 <= j < |paths| && paths[j] == p;
        assert paths'[j] == p;
      }
      assert paths'[i] == to;
    }
  }

  lemma MergeTargetFree(w: World, input: Input, i: nat, facts: seq<Fact>, paths: seq<Path>, donate: seq<Path>)
    requires Fresh(w, input) && i < |input.facts| && Progress(w, input, i, facts, paths, donate) && Absorbs(w, input, i)
    ensures Hit(w, input, i).value !in paths
  {
    forall j | 0 <= j < |paths|
      ensures paths[j] != Hit(w, input, i).value
    {
      if j < i { assert Hit(w, input, j) != Hit(w, input, i); }
    }
  }

  /** How far a call's loop has come. */
  datatype Loop = Loop(facts: seq<Fact>, paths: seq<Path>, files: map<Path, string>, donate: seq<Path>,
                       consumed: set<Path>, retract: seq<Path>, prior: map<Path, seq<string>>)

  ghost predicate LoopInv(w: World, input: Input, i: nat, l: Loop) {
    && Fresh(w, input) && i <= |input.facts|
    && Progress(w, input, i, l.facts, l.paths, l.donate)
    && InStep(w, l.facts, l.paths, l.files)
    && Consumed(w, input, i, l.consumed)
    && l.retract == Retracted(w, input, i)
    && PriorRefs(w, input, i, l.prior)
  }

  lemma LoopStarts(w: World, input: Input, files: map<Path, string>)
    requires Fresh(w, input) && InStep(w, input.facts, input.paths, files)
    ensures LoopInv(w, input, 0, Loop(input.facts, input.paths, files, input.paths, {}, [], map[]))
  {
  }

  lemma PriorRefsNext(w: World, input: Input, i: nat, prior: map<Path, seq<string>>)
    requires Fresh(w, input) && i < |input.facts| && PriorRefs(w, input, i, prior)
    ensures PriorRefs(w, input, i + 1,
              if Merges(w, input, i) then prior[FinalPath(w, input, i) := w.corpus[FinalPath(w, input, i)].refs] else prior)
  {
    var next := if Merges(w, input, i) then prior[FinalPath(w, input, i) := w.corpus[FinalPath(w, input, i)].refs] else prior;
    forall p | p in next
      ensures exists j :: 0 <= j < i + 1 && Merges(w, input, j) && FinalPath(w, input, j) == p
    {
      if p in prior {
        var j :| 0 <= j < i && Merges(w, input, j) && FinalPath(w, input, j) == p;
        assert j < i + 1;
      }
    }
  }

  lemma ProgressAlone(w: World, input: Input, i: nat, facts: seq<Fact>, paths: seq<Path>, donate: seq<Path>)
    requires Fresh(w, input) && i < |input.facts| && Progress(w, input, i, facts, paths, donate) && !Absorbs(w, input, i)
    ensures Progress(w, input, i + 1, facts, paths, if input.topics[i] == "" then donate[i := ""] else donate)
  {
    hide Hit, Absorbs, Fresh;
  }

  // An input left alone: private, matching nothing readable, or not the first to match.
  lemma LeftAlone(w: World, input: Input, i: nat, l: Loop)
    requires LoopInv(w, input, i, l) && i < |input.facts|
    requires Hit(w, input, i).None? || Hit(w, input, i).value in l.consumed
    ensures LoopInv(w, input, i + 1, if input.topics[i] == "" then l.(donate := l.donate[i := ""]) else l)
  {
    hide Hit, Absorbs, Consumed, PriorRefs, InStep, Fresh, Progress, FinalPath;
    Lengths(w, input);
    AbsorbsIffUnconsumed(w, input, i, l.consumed);
    ConsumedNext(w, input, i, l.consumed);
    PriorRefsNext(w, input, i, l.prior);
    ProgressAlone(w, input, i, l.facts, l.paths, l.donate);
    if Hit(w, input, i).Some? { assert l.consumed + {Hit(w, input, i).value} == l.consumed; }
  }

  // The first to match a hypothesis it settles.
  lemma Settled(w: World, input: Input, i: nat, l: Loop)
    requires Sound(w) && LoopInv(w, input, i, l) && i < |input.facts|
    requires Hit(w, input, i).Some? && Hit(w, input, i).value !in l.consumed
    requires Subsumes(input.facts[i], w.corpus[Hit(w, input, i).value])
    requires w.ser(FinalFact(w, input, i)).Some?
    ensures var m := Hit(w, input, i).value;
            var f := FinalFact(w, input, i);
            && f == input.facts[i].(refs := AppendUnique(input.facts[i].refs, m))
            && LoopInv(w, input, i + 1, l.(facts := l.facts[i := f], files := l.files[l.paths[i] := w.ser(f).value],
                         consumed := l.consumed + {m}, retract := AppendUnique(l.retract, m)))
  {
    var f := FinalFact(w, input, i);
    AbsorbsIffUnconsumed(w, input, i, l.consumed);
    ConsumedNext(w, input, i, l.consumed);
    PriorRefsNext(w, input, i, l.prior);
    RetractedConsumed(w, input, i, l.consumed);
    InStepRewrite(w, l.facts, l.paths, l.files, i, f);
    hide Hit, Absorbs, Consumed, PriorRefs, InStep, Fresh;
  }

  lemma ProgressMerged(w: World, input: Input, i: nat, facts: seq<Fact>, paths: seq<Path>, donate: seq<Path>)
    requires Fresh(w, input) && i < |input.facts| && Progress(w, input, i, facts, paths, donate) && Merges(w, input, i)
    ensures Progress(w, input, i + 1, facts[i := FinalFact(w, input, i)], paths[i := FinalPath(w, input, i)],
              donate[i := if NewFactWins(input.facts[i], w.corpus[Hit(w, input, i).value]) then FinalPath(w, input, i) else ""])
  {
    hide Fresh, MergeFacts, FinalFact, NewFactWins;
  }

  // The first to match another fact: merged at that fact's path.
  lemma Merged(w: World, input: Input, i: nat, l: Loop)
    requires Sound(w) && LoopInv(w, input, i, l) && i < |input.facts|
    requires Hit(w, input, i).Some? && Hit(w, input, i).value !in l.consumed
    requires !Subsumes(input.facts[i], w.corpus[Hit(w, input, i).value])
    requires w.ser(FinalFact(w, input, i)).Some?
    ensures var m := Hit(w, input, i).value;
            var e := w.corpus[m];
            var f := FinalFact(w, input, i);
            && f == MergeFacts(w, input.facts[i], e, m)
            && LoopInv(w, input, i + 1, Loop(l.facts[i := f], l.paths[i := m], (l.files - {l.paths[i]})[m := w.ser(f).value],
                         l.donate[i := if NewFactWins(input.facts[i], e) then m else ""],
                         l.consumed + {m}, l.retract, l.prior[m := e.refs]))
  {
    var f := FinalFact(w, input, i);
    var m := Hit(w, input, i).value;
    AbsorbsIffUnconsumed(w, input, i, l.consumed);
    ConsumedNext(w, input, i, l.consumed);
    PriorRefsNext(w, input, i, l.prior);
    MergeTargetFree(w, input, i, l.facts, l.paths, l.donate);
    assert f.path == w.lower(m);
    InStepMove(w, l.facts, l.paths, l.files, i, f, m);
    ProgressMerged(w, input, i, l.facts, l.paths, l.donate);
    hide Hit, Absorbs, Consumed, PriorRefs, InStep, Fresh, MergeFacts, Progress;
  }

  // ---------- the same, told without how it is computed ----------

  /** Input i, not private, found the readable fact at p, and no earlier input found it. */
  ghost predicate FirstMatch(w: World, input: Input, i: nat, p: Path)
    requires i < |input.hits| && |input.hits| == |input.topics|
  {
    && input.topics[i] != "" && input.hits[i] == Some(p) && p in w.corpus
    && forall j :: 0 <= j < i && input.topics[j] != "" ==> input.hits[j] != Some(p)
  }

  /** m is f merged into e, stored at p: the words of the more confident, of f when they tie and it has
      no fewer sources; the higher confidence, all sources, and what either lists, f's first. */
  ghost predicate MergedFrom(w: World, m: Fact, f: Fact, e: Fact, p: Path) {
    && (f.confidence > e.confidence || (f.confidence == e.confidence && f.sources >= e.sources) ==>
          (m.title, m.body, m.kind, m.leaf, m.origin) == (f.title, f.body, f.kind, f.leaf, f.origin))
    && (f.confidence < e.confidence || (f.confidence == e.confidence && f.sources < e.sources) ==>
          (m.title, m.body, m.kind, m.leaf, m.origin) == (e.title, e.body, e.kind, e.leaf, e.origin))
    && m.confidence in {f.confidence, e.confidence} && m.confidence >= f.confidence && m.confidence >= e.confidence
    && m.sources == f.sources + e.sources
    && m.refs == Firsts(f.refs + e.refs + [p])
    && m.domain == Firsts(f.domain + e.domain) && m.entities == Firsts(f.entities + e.entities)
    && m.path == w.lower(e.path)
  }

  /** What input i comes to: itself; or itself citing the hypothesis it settles; or a merge, at the
      stored fact's path. */
  ghost predicate ComesTo(w: World, input: Input, i: nat, f: Fact, path: Path)
    requires i < |input.hits| && |input.hits| == |input.topics| == |input.facts| == |input.paths|
  {
    var g := input.facts[i];
    && ((forall p :: !FirstMatch(w, input, i, p)) ==> f == g && path == input.paths[i])
    && (forall p :: FirstMatch(w, input, i, p) ==>
          if w.corpus[p].leaf == "hypothesis" && g.leaf != "hypothesis" then
            path == input.paths[i] && f == g.(refs := if p in g.refs then g.refs else g.refs + [p])
          else path == p && MergedFrom(w, f, g, w.corpus[p], p))
  }

  /** A vector goes with input i unless it is private or merged into a more confident fact, or into one
      as confident with more sources. */
  ghost predicate OwnWords(w: World, input: Input, i: nat)
    requires i < |input.hits| && |input.hits| == |input.topics| == |input.facts|
  {
    var g := input.facts[i];
    input.topics[i] != "" && forall p :: FirstMatch(w, input, i, p) ==>
      var e := w.corpus[p];
      (e.leaf == "hypothesis" && g.leaf != "hypothesis") || g.confidence > e.confidence
      || (g.confidence == e.confidence && g.sources >= e.sources)
  }

  lemma FirstMatchAbsorbs(w: World, input: Input, i: nat)
    requires Fresh(w, input) && i < |input.facts|
    ensures Absorbs(w, input, i) <==> exists p :: FirstMatch(w, input, i, p)
    ensures forall p :: FirstMatch(w, input, i, p) ==> Hit(w, input, i) == Some(p)
  {
    if Absorbs(w, input, i) {
      var p := Hit(w, input, i).value;
      forall j | 0 <= j < i && input.topics[j] != "" ensures input.hits[j] != Some(p) {
        assert Hit(w, input, j) != Hit(w, input, i);
      }
      assert FirstMatch(w, input, i, p);
    }
    if p :| FirstMatch(w, input, i, p) {
      assert Hit(w, input, i) == Some(p);
    }
  }

  lemma FinalComesTo(w: World, input: Input, i: nat)
    requires Sound(w) && Fresh(w, input) && i < |input.facts|
    ensures ComesTo(w, input, i, FinalFact(w, input, i), FinalPath(w, input, i))
    ensures Donates(w, input, i) <==> OwnWords(w, input, i)
    ensures forall p :: Settles(w, input, i) && Hit(w, input, i) == Some(p) <==>
              FirstMatch(w, input, i, p) && w.corpus[p].leaf == "hypothesis" && input.facts[i].leaf != "hypothesis"
  {
    FirstMatchAbsorbs(w, input, i);
    hide Absorbs, Hit, MergeFacts, NewFactWins, FinalFact, FinalPath, OwnWords, ComesTo, Donates, Sound, Fresh;
    if p :| FirstMatch(w, input, i, p) {
      assert FirstMatch(w, input, i, p) ==> p in w.corpus;
      hide FirstMatch;
      AbsorbedComesTo(w, input, i, p);
      AbsorbedDonates(w, input, i, p);
    } else {
      hide FirstMatch;
      AloneComesTo(w, input, i);
    }
  }

  lemma AloneComesTo(w: World, input: Input, i: nat)
    requires Fresh(w, input) && i < |input.facts| && !Absorbs(w, input, i) && forall p :: !FirstMatch(w, input, i, p)
    ensures ComesTo(w, input, i, FinalFact(w, input, i), FinalPath(w, input, i))
    ensures Donates(w, input, i) <==> OwnWords(w, input, i)
  {
    hide Absorbs, FirstMatch, MergeFacts, MergedFrom;
  }

  lemma AbsorbedComesTo(w: World, input: Input, i: nat, p: Path)
    requires Fresh(w, input) && i < |input.facts| && Absorbs(w, input, i) && Hit(w, input, i) == Some(p) && p in w.corpus
    requires forall q :: FirstMatch(w, input, i, q) ==> q == p
    requires FirstMatch(w, input, i, p)
    ensures ComesTo(w, input, i, FinalFact(w, input, i), FinalPath(w, input, i))
  {
    MergeKeeps(w, input.facts[i], w.corpus[p], p);
    hide Absorbs, Hit, FirstMatch, MergeFacts, MergedFrom, Fresh;
  }

  lemma AbsorbedDonates(w: World, input: Input, i: nat, p: Path)
    requires Fresh(w, input) && i < |input.facts| && Absorbs(w, input, i) && Hit(w, input, i) == Some(p) && p in w.corpus
    requires forall q :: FirstMatch(w, input, i, q) ==> q == p
    requires FirstMatch(w, input, i, p)
    ensures Donates(w, input, i) <==> OwnWords(w, input, i)
  {
    hide Absorbs, Hit, FirstMatch, Fresh;
  }

  /** Input i is folded, its vector kept for its path if its own words are written there. */
  ghost predicate Told(w: World, input: Input, i: nat, facts: seq<Fact>, paths: seq<Path>, donate: seq<Path>) {
    && |input.hits| == |input.topics| == |input.facts| == |input.paths| && i < |input.facts|
    && i < |facts| && i < |paths| && i < |donate|
    && ComesTo(w, input, i, facts[i], paths[i]) && donate[i] == if OwnWords(w, input, i) then paths[i] else ""
  }

  lemma LoopTold(w: World, input: Input, i: nat, l: Loop)
    requires Sound(w) && Fresh(w, input) && i < |input.facts| && LoopInv(w, input, i + 1, l)
    ensures Told(w, input, i, l.facts, l.paths, l.donate)
  {
    hide Sound, ComesTo, OwnWords, Donates, FinalFact, FinalPath, InStep, Consumed, PriorRefs, Retracted;
    FinalComesTo(w, input, i);
  }

  /** What a batch comes to: each input's fact at its path, the hypotheses settled retracted, and the
      vectors of those whose own words are written at their paths. */
  ghost predicate AsTold(w: World, input: Input, vecs: seq<Vec>, facts: seq<Fact>, paths: seq<Path>,
                         retract: seq<Path>, embs: map<Path, Vec>)
    requires |input.hits| == |input.topics| == |input.facts| == |input.paths|
  {
    && |facts| == |paths| == |input.facts|
    && (forall i :: 0 <= i < |facts| ==> ComesTo(w, input, i, facts[i], paths[i]))
    && Carries(w, input, vecs, paths, retract, embs)
  }

  /** Exactly the hypotheses settled are retracted, and exactly the vectors of those whose own words are
      written are carried. */
  ghost predicate Carries(w: World, input: Input, vecs: seq<Vec>, paths: seq<Path>, retract: seq<Path>, embs: map<Path, Vec>)
    requires |input.hits| == |input.topics| == |input.facts| == |input.paths| == |paths|
  {
    && (forall p :: p in retract <==> exists i :: 0 <= i < |paths| && FirstMatch(w, input, i, p)
                                       && w.corpus[p].leaf == "hypothesis" && input.facts[i].leaf != "hypothesis")
    && (forall i :: 0 <= i < |paths| && i < |vecs| && OwnWords(w, input, i) && vecs[i] != [] && paths[i] != "" ==>
          paths[i] in embs && embs[paths[i]] == vecs[i])
    && (forall p :: p in embs ==> exists i :: 0 <= i < |paths| && i < |vecs| && paths[i] == p && OwnWords(w, input, i))
  }

  lemma FoldedAsTold(w: World, input: Input, vecs: seq<Vec>, l: Loop, embs: map<Path, Vec>)
    requires Sound(w) && Fresh(w, input) && Folded(w, input, l) && Donated(w, input, vecs, |input.facts|, embs)
    ensures |input.hits| == |input.topics| == |input.facts| == |input.paths|
    ensures AsTold(w, input, vecs, l.facts, l.paths, l.retract, embs)
  {
    Lengths(w, input);
    RetractedFrom(w, input, |input.facts|);
    hide Sound, Fresh, FinalFact, FinalPath, Donates, OwnWords, ComesTo, Settles, FirstMatch, InStep;
    forall i | 0 <= i < |input.facts|
      ensures ComesTo(w, input, i, l.facts[i], l.paths[i]) && (Donates(w, input, i) <==> OwnWords(w, input, i))
    {
      FinalComesTo(w, input, i);
    }
    forall i, p | 0 <= i < |input.facts|
      ensures Settles(w, input, i) && Hit(w, input, i) == Some(p) <==>
                FirstMatch(w, input, i, p) && w.corpus[p].leaf == "hypothesis" && input.facts[i].leaf != "hypothesis"
    {
      FinalComesTo(w, input, i);
    }
  }

  /** The facts of a call, in memory until they are committed. */
  class Batch {
    const facts: array<Fact>
    const paths: array<Path>
    var files: map<Path, string>

    constructor (facts: array<Fact>, paths: array<Path>, files: map<Path, string>)
      ensures this.facts == facts && this.paths == paths && this.files == files
    {
      this.facts, this.paths, this.files := facts, paths, files;
    }

    ghost predicate Valid(w: World)
      reads this, facts, paths
    {
      InStep(w, facts[..], paths[..], files)
    }

    method ApplyDedupMerge(w: World, ghost input: Input, topics: seq<string>, hits: seq<Option<Path>>, vecs: seq<Vec>)
      returns (err: Option<Error>, embByPath: map<Path, Vec>, retract: seq<Path>, priorRefs: map<Path, seq<string>>)
      requires Valid(w) && Sound(w) && Fresh(w, input)
      requires input == Input(facts[..], topics, paths[..], hits)
      modifies this`files, facts, paths
      ensures err.Some? <==> exists i :: 0 <= i < |input.facts| && Fails(w, input, i)
      ensures err.None? ==> Folded(w, input, Loop(facts[..], paths[..], files, [], {}, retract, priorRefs))
      ensures err.None? ==> Donated(w, input, vecs, |input.facts|, embByPath)
      ensures |input.hits| == |input.topics| == |input.facts| == |input.paths|
      ensures err.None? ==> AsTold(w, input, vecs, facts[..], paths[..], retract, embByPath)
    {
      Lengths(w, input);
      LoopStarts(w, input, files);
      hide LoopInv, Sound, Fails, InStep, Fresh, Folded, Donated, Donates, AsTold, FinalPath, FinalFact, Retracted, PriorRefs, Absorbs, Hit;
      embByPath := map[];
      var donate := new Path[facts.Length];
      CopyPaths(donate);
      ghost var l;
      err, retract, priorRefs, l := FoldAll(w, input, topics, hits, donate);
      if err.Some? { return; }
      LoopEnds(w, input, l);
      embByPath := Donations(w, input, donate[..], vecs, l);
      FoldedAsTold(w, input, vecs, Loop(facts[..], paths[..], files, [], {}, retract, priorRefs), embByPath);
    }

    // Every input in turn, until one cannot be written.
    method FoldAll(w: World, ghost input: Input, topics: seq<string>, hits: seq<Option<Path>>, donate: array<Path>)
      returns (err: Option<Error>, retract: seq<Path>, priorRefs: map<Path, seq<string>>, ghost l: Loop)
      requires Sound(w) && donate != paths && input.topics == topics && input.hits == hits
      requires facts.Length == |input.facts| == |topics| == |hits|
      requires LoopInv(w, input, 0, Loop(facts[..], paths[..], files, donate[..], {}, [], map[]))
      modifies this`files, facts, paths, donate
      ensures err.Some? <==> exists i :: 0 <= i < |input.facts| && Fails(w, input, i)
      ensures err.None? ==> facts[..] == l.facts && paths[..] == l.paths && files == l.files && donate[..] == l.donate
      ensures err.None? ==> l.retract == retract && l.prior == priorRefs && LoopInv(w, input, |input.facts|, l)
    {
      hide LoopInv, Sound, Fails;
      retract, priorRefs := [], map[];
      err := None;
      var consumed: set<Path> := {};
      var i := 0;
      l := Loop(facts[..], paths[..], files, donate[..], {}, [], map[]);
      while i < facts.Length
        invariant 0 <= i <= facts.Length
        invariant facts[..] == l.facts && paths[..] == l.paths && files == l.files && donate[..] == l.donate
        invariant l.consumed == consumed && l.retract == retract && l.prior == priorRefs
        invariant LoopInv(w, input, i, l) && err.None?
        invariant forall j :: 0 <= j < i ==> !Fails(w, input, j)
      {
        err, consumed, retract, priorRefs := FoldOne(w, input, i, topics[i], hits[i], l, donate, consumed, retract, priorRefs);
        if err.Some? {
          assert Fails(w, input, i);
          return;
        }
        l := Loop(facts[..], paths[..], files, donate[..], consumed, retract, priorRefs);
        i := i + 1;
      }
    }

    // Seeded from the on-disk paths, where a fact kept as it is will be written.
    method CopyPaths(donate: array<Path>)
      requires donate.Length == paths.Length && donate != paths
      modifies donate
      ensures donate[..] == paths[..]
    {
      for i := 0 to paths.Length
        invariant donate[..i] == paths[..i]
      {
        donate[i] := paths[i];
      }
    }

    // Folds input i in, or leaves it alone; the caller's loop state moves with the batch.
    method FoldOne(w: World, ghost input: Input, i: nat, topic: string, hit: Option<Path>, ghost l: Loop,
                   donate: array<Path>, consumed: set<Path>, retract: seq<Path>, priorRefs: map<Path, seq<string>>)
      returns (err: Option<Error>, consumed': set<Path>, retract': seq<Path>, priorRefs': map<Path, seq<string>>)
      requires Sound(w) && LoopInv(w, input, i, l) && i < |input.facts|
      requires facts[..] == l.facts && paths[..] == l.paths && files == l.files && donate[..] == l.donate
      requires l.consumed == consumed && l.retract == retract && l.prior == priorRefs
      requires input.topics[i] == topic && input.hits[i] == hit && donate != paths
      modifies this`files, facts, paths, donate
      ensures |input.hits| == |input.topics| == |input.facts| && (err.Some? <==> Fails(w, input, i))
      ensures err.None? ==> LoopInv(w, input, i + 1, Loop(facts[..], paths[..], files, donate[..], consumed', retract', priorRefs'))
      ensures err.None? ==> Told(w, input, i, facts[..], paths[..], donate[..])
    {
      LoopFacts(w, input, i, l);
      AbsorbsHere(w, input, i, l);
      hide LoopInv, Sound, Absorbs, FinalFact, Told;
      err, consumed', retract', priorRefs' := None, consumed, retract, priorRefs;
      var f := facts[i];
      if topic == "" {
        donate[i] := "";
        LeftAlone(w, input, i, l);
        assert donate[..] == l.donate[i := ""];
        LoopTold(w, input, i, l.(donate := donate[..]));
        return;
      }
      if hit.None? || hit.value in consumed || hit.value !in w.corpus {
        LeftAlone(w, input, i, l);
        LoopTold(w, input, i, l);
        return;
      }
      var m := hit.value;
      var existing := w.corpus[m];
      if Subsumes(f, existing) {
        consumed' := consumed + {m};
        retract' := AppendUnique(retract, m);
        SettlesHere(w, input, i, l);
        f := f.(refs := AppendUnique(f.refs, m));
        facts[i] := f;
        if w.ser(f).None? { return Some(Unserializable(i)), consumed', retract', priorRefs'; }
        files := files[paths[i] := w.ser(f).value];
        Settled(w, input, i, l);
        assert facts[..] == l.facts[i := f];
        LoopTold(w, input, i, Loop(facts[..], paths[..], files, donate[..], consumed', retract', priorRefs'));
        return;
      }
      SettlesHere(w, input, i, l);
      var merged := MergeFacts(w, f, existing, m);
      donate[i] := if NewFactWins(f, existing) then m else "";
      if !w.valid(topic, merged) { return Some(Invalid(i)), consumed', retract', priorRefs'; }
      consumed' := consumed + {m};
      files := files - {paths[i]};
      paths[i] := m;
      priorRefs' := priorRefs[m := existing.refs];
      if w.ser(merged).None? { return Some(Unserializable(i)), consumed', retract', priorRefs'; }
      files := files[m := w.ser(merged).value];
      facts[i] := merged;
      Merged(w, input, i, l);
      assert facts[..] == l.facts[i := merged] && paths[..] == l.paths[i := m];
      assert donate[..] == l.donate[i := if NewFactWins(input.facts[i], existing) then m else ""];
      LoopTold(w, input, i, Loop(facts[..], paths[..], files, donate[..], consumed', retract', priorRefs'));
    }
  }

  /** What a finished loop left behind. */
  ghost predicate Folded(w: World, input: Input, l: Loop)
    requires Fresh(w, input)
  {
    var n := |input.facts|;
    && |l.facts| == |l.paths| == n
    && InStep(w, l.facts, l.paths, l.files)
    && (forall i :: 0 <= i < n ==> !Fails(w, input, i))
    && (forall i :: 0 <= i < n ==> l.facts[i] == FinalFact(w, input, i) && l.paths[i] == FinalPath(w, input, i))
    && l.retract == Retracted(w, input, n) && PriorRefs(w, input, n, l.prior)
  }

  /** The donated vectors: one for each input whose own title and body are written, at its path. */
  ghost predicate Donated(w: World, input: Input, vecs: seq<Vec>, n: nat, embs: map<Path, Vec>)
    requires Fresh(w, input) && n <= |input.facts|
  {
    && (forall i :: 0 <= i < n && i < |vecs| && Gives(w, input, vecs[i], i) ==>
          FinalPath(w, input, i) in embs && embs[FinalPath(w, input, i)] == vecs[i])
    && (forall p :: p in embs ==> exists i :: 0 <= i < n && i < |vecs| && Gives(w, input, vecs[i], i) && FinalPath(w, input, i) == p)
  }

  ghost predicate Gives(w: World, input: Input, vec: Vec, i: nat)
    requires Fresh(w, input) && i < |input.facts|
  {
    Donates(w, input, i) && vec != [] && FinalPath(w, input, i) != ""
  }

  lemma DonatedNext(w: World, input: Input, vecs: seq<Vec>, n: nat, embs: map<Path, Vec>)
    requires Fresh(w, input) && n < |input.facts| && Donated(w, input, vecs, n, embs)
    ensures Donated(w, input, vecs, n + 1,
              if n < |vecs| && Gives(w, input, vecs[n], n) then embs[FinalPath(w, input, n) := vecs[n]] else embs)
  {
    FinalPathsDistinct(w, input);
    hide Gives, FinalPath, Fresh;
    var next := if n < |vecs| && Gives(w, input, vecs[n], n) then embs[FinalPath(w, input, n) := vecs[n]] else embs;
    forall p | p in next
      ensures exists i :: 0 <= i < n + 1 && i < |vecs| && Gives(w, input, vecs[i], i) && FinalPath(w, input, i) == p
    {
      if p in embs {
        var i :| 0 <= i < n && i < |vecs| && Gives(w, input, vecs[i], i) && FinalPath(w, input, i) == p;
        assert i < n + 1;
      }
    }
  }

  lemma LoopEnds(w: World, input: Input, l: Loop)
    requires LoopInv(w, input, |input.facts|, l)
    requires forall i :: 0 <= i < |input.facts| ==> !Fails(w, input, i)
    ensures Folded(w, input, Loop(l.facts, l.paths, l.files, [], {}, l.retract, l.prior))
    ensures |l.donate| == |input.facts|
    ensures forall j :: 0 <= j < |l.donate| ==> l.donate[j] == if Donates(w, input, j) then FinalPath(w, input, j) else ""
  {
    hide Fails;
  }

  // Keys each surviving vector by the path its fact is written at.
  method Donations(w: World, ghost input: Input, donate: seq<Path>, vecs: seq<Vec>, ghost l: Loop) returns (embs: map<Path, Vec>)
    requires Fresh(w, input) && |donate| == |input.facts|
    requires forall j :: 0 <= j < |donate| ==> donate[j] == if Donates(w, input, j) then FinalPath(w, input, j) else ""
    ensures Donated(w, input, vecs, |input.facts|, embs)
  {
    hide Donates, FinalPath;
    embs := map[];
    for i := 0 to |donate|
      invariant Donated(w, input, vecs, i, embs)
    {
      DonatedNext(w, input, vecs, i, embs);
      if donate[i] == "" || i >= |vecs| || vecs[i] == [] {
        continue;
      }
      embs := embs[donate[i] := vecs[i]];
    }
  }

  lemma LoopFacts(w: World, input: Input, i: nat, l: Loop)
    requires LoopInv(w, input, i, l) && i < |input.facts|
    ensures |l.facts| == |l.paths| == |l.donate| == |input.facts| == |input.topics| == |input.hits| == |input.paths|
    ensures l.facts[i] == input.facts[i] && l.paths[i] == input.paths[i]
  {
  }

  lemma AbsorbsHere(w: World, input: Input, i: nat, l: Loop)
    requires LoopInv(w, input, i, l) && i < |input.facts| && |input.hits| == |input.topics| == |input.facts| == |input.paths|
    ensures Absorbs(w, input, i) <==> Hit(w, input, i).Some? && Hit(w, input, i).value !in l.consumed
  {
    AbsorbsIffUnconsumed(w, input, i, l.consumed);
  }

  lemma SettlesHere(w: World, input: Input, i: nat, l: Loop)
    requires LoopInv(w, input, i, l) && i < |input.facts| && |input.hits| == |input.topics| == |input.facts| == |input.paths|
    requires Hit(w, input, i).Some? && Hit(w, input, i).value !in l.consumed
    ensures var m := Hit(w, input, i).value;
            FinalFact(w, input, i) == if Subsumes(input.facts[i], w.corpus[m]) then input.facts[i].(refs := AppendUnique(input.facts[i].refs, m))
                                      else MergeFacts(w, input.facts[i], w.corpus[m], m)
  {
    AbsorbsIffUnconsumed(w, input, i, l.consumed);
    hide LoopInv, Consumed, Absorbs, MergeFacts;
  }

  // ---------- what the outcome means ----------

  ghost predicate AbsorbsInto(w: World, input: Input, i: nat, p: Path)
    requires i < |input.hits| && |input.hits| == |input.topics|
  {
    Absorbs(w, input, i) && Hit(w, input, i) == Some(p)
  }

  // Of the inputs that match an existing fact exactly one, the first, is folded into it or
  // settles it.
  lemma AbsorbedOnce(w: World, input: Input, p: Path)
    requires Fresh(w, input)
    requires exists j :: 0 <= j < |input.facts| && Hit(w, input, j) == Some(p)
    ensures exists i :: 0 <= i < |input.facts| && AbsorbsInto(w, input, i, p)
    ensures forall i, j :: 0 <= i < |input.facts| && 0 <= j < |input.facts| && AbsorbsInto(w, input, i, p) && AbsorbsInto(w, input, j, p) ==>
              i == j
  {
    var j :| 0 <= j < |input.facts| && Hit(w, input, j) == Some(p);
    var i := FirstHit(w, input, p, j);
  }

  lemma {:induction false} FirstHit(w: World, input: Input, p: Path, j: nat) returns (i: nat)
    requires Fresh(w, input) && j < |input.facts| && Hit(w, input, j) == Some(p)
    ensures i <= j && AbsorbsInto(w, input, i, p)
    decreases j
  {
    if k :| 0 <= k < j && Hit(w, input, k) == Some(p) {
      i := FirstHit(w, input, p, k);
    } else {
      i := j;
    }
  }

  // What is retracted is a hypothesis, listed once, and nothing in the call is written there.
  lemma RetractsApart(w: World, input: Input)
    requires Fresh(w, input)
    ensures var retract := Retracted(w, input, |input.facts|);
            && Distinct(retract)
            && (forall p :: p in retract ==> p in w.corpus && w.corpus[p].leaf == HYPOTHESIS)
            && (forall p, i :: p in retract && 0 <= i < |input.facts| ==> FinalPath(w, input, i) != p)
  {
    RetractedFrom(w, input, |input.facts|);
    RetractedOnce(w, input, |input.facts|);
    forall p, i | p in Retracted(w, input, |input.facts|) && 0 <= i < |input.facts|
      ensures FinalPath(w, input, i) != p
    {
      var j :| 0 <= j < |input.facts| && Settles(w, input, j) && Hit(w, input, j) == Some(p);
    }
  }

  lemma {:induction false} RetractedOnce(w: World, input: Input, n: nat)
    requires Fresh(w, input) && n <= |input.facts|
    ensures Distinct(Retracted(w, input, n))
    decreases n
  {
    if n > 0 {
      RetractedOnce(w, input, n - 1);
      RetractedFrom(w, input, n - 1);
      var before := Retracted(w, input, n - 1);
      if Settles(w, input, n - 1) {
        assert Hit(w, input, n - 1).value !in before;
        assert Retracted(w, input, n) == before + [Hit(w, input, n - 1).value];
        assert forall i :: 0 <= i < |before| ==> before[i] in before;
      }
    }
  }

  // A merged fact is stored as told, and stays cited; nothing either side listed is dropped, and
  // nothing is listed twice.
  lemma MergeKeeps(w: World, f: Fact, e: Fact, p: Path)
    ensures var m := MergeFacts(w, f, e, p);
            && MergedFrom(w, m, f, e, p)
            && (forall x :: x in m.refs <==> x in f.refs || x in e.refs || x == p)
            && (forall i, j :: 0 <= i < j < |m.refs| ==> m.refs[i] != m.refs[j])
            && (forall x :: x in m.domain <==> x in f.domain || x in e.domain)
            && (forall x :: x in m.entities <==> x in f.entities || x in e.entities)
  {
    FirstsSnoc(f.refs + e.refs, p);
  }

  // Every input's own words are written, unless an existing fact more confident, or as confident with
  // more sources, absorbed it; and then that fact's words still are.
  lemma NoBodyLost(w: World, input: Input, i: nat)
    requires Fresh(w, input) && i < |input.facts|
    ensures var f, e := input.facts[i], FinalFact(w, input, i);
            || (e.title == f.title && e.body == f.body)
            || exists p :: OutdoneBy(w, input, i, p) && e.title == w.corpus[p].title && e.body == w.corpus[p].body
    ensures OwnWords(w, input, i) ==> FinalFact(w, input, i).title == input.facts[i].title && FinalFact(w, input, i).body == input.facts[i].body
  {
    FirstMatchAbsorbs(w, input, i);
    hide Absorbs, Hit, MergeFacts, NewFactWins, FinalFact, FinalPath, OwnWords, Fresh, OutdoneBy;
    if p :| FirstMatch(w, input, i, p) {
      AbsorbedWords(w, input, i, p);
    } else {
      hide FirstMatch;
      AloneWords(w, input, i);
    }
  }

  lemma AloneWords(w: World, input: Input, i: nat)
    requires Fresh(w, input) && i < |input.facts| && !Absorbs(w, input, i)
    ensures FinalFact(w, input, i) == input.facts[i]
  {
    hide Absorbs, MergeFacts;
  }

  lemma AbsorbedWords(w: World, input: Input, i: nat, p: Path)
    requires Fresh(w, input) && i < |input.facts| && Absorbs(w, input, i) && Hit(w, input, i) == Some(p) && FirstMatch(w, input, i, p)
    ensures var f, e := input.facts[i], FinalFact(w, input, i);
      (e.title == f.title && e.body == f.body)
      || (OutdoneBy(w, input, i, p) && !OwnWords(w, input, i) && e.title == w.corpus[p].title && e.body == w.corpus[p].body)
  {
    MergeKeeps(w, input.facts[i], w.corpus[p], p);
    assert p in w.corpus;
    hide Absorbs, Hit, FirstMatch, MergeFacts, Fresh, Firsts;
    var f, e := input.facts[i], w.corpus[p];
    assert OwnWords(w, input, i) ==> Subsumes(f, e) || f.confidence > e.confidence || (f.confidence == e.confidence && f.sources >= e.sources);
  }

  /** Input i is absorbed by the fact at p, which is more confident, or as confident with more sources. */
  ghost predicate OutdoneBy(w: World, input: Input, i: nat, p: Path)
    requires i < |input.hits| && |input.hits| == |input.topics| == |input.facts| == |input.paths|
  {
    FirstMatch(w, input, i, p) && FinalPath(w, input, i) == p &&
    var f, e := input.facts[i], w.corpus[p];
    f.confidence < e.confidence || (f.confidence == e.confidence && f.sources < e.sources)
  }

  ghost function Sources(facts: seq<Fact>): int {
    if facts == [] then 0 else Sources(facts[..|facts| - 1]) + facts[|facts| - 1].sources
  }

  ghost function MergedSources(w: World, input: Input, n: nat): int
    requires Fresh(w, input) && n <= |input.facts|
  {
    if n == 0 then 0 else
      MergedSources(w, input, n - 1) + (if Merges(w, input, n - 1) then w.corpus[FinalPath(w, input, n - 1)].sources else 0)
  }

  // Evidence is neither lost nor counted twice: what is written carries the inputs' sources and,
  // once each, those of the facts merged into.
  lemma {:induction false} SourcesConserved(w: World, input: Input, final: seq<Fact>, n: nat)
    requires Fresh(w, input) && n <= |input.facts| && |final| == |input.facts|
    requires forall i :: 0 <= i < |final| ==> final[i] == FinalFact(w, input, i)
    ensures Sources(final[..n]) == Sources(input.facts[..n]) + MergedSources(w, input, n)
    decreases n
  {
    if n > 0 {
      SourcesConserved(w, input, final, n - 1);
      assert final[..n][..n - 1] == final[..n - 1] && input.facts[..n][..n - 1] == input.facts[..n - 1];
      hide Firsts, Absorbs;
    }
  }

  ghost predicate Describes(w: World, input: Input, i: nat, p: Path, vec: Vec)
    requires Fresh(w, input) && i < |input.facts|
  {
    FinalPath(w, input, i) == p && vec == w.embed(FinalFact(w, input, i).title, FinalFact(w, input, i).body)
  }

  // A donated vector describes the title and body written at its path.
  lemma DonationsDescribe(w: World, input: Input, vecs: seq<Vec>, embs: map<Path, Vec>)
    requires Fresh(w, input) && Donated(w, input, vecs, |input.facts|, embs)
    requires forall i :: 0 <= i < |vecs| && i < |input.facts| ==> vecs[i] == w.embed(input.facts[i].title, input.facts[i].body)
    ensures forall p :: p in embs ==> exists i :: 0 <= i < |input.facts| && Describes(w, input, i, p, embs[p])
  {
    forall p | p in embs
      ensures exists i :: 0 <= i < |input.facts| && Describes(w, input, i, p, embs[p])
    {
      var i :| 0 <= i < |input.facts| && i < |vecs| && Gives(w, input, vecs[i], i) && FinalPath(w, input, i) == p;
      NoBodyLost(w, input, i);
      hide MergeFacts, Firsts;
      assert Describes(w, input, i, p, embs[p]);
    }
  }

  // ---------- the stages around it ----------

  /** The weight stamped on a derived fact: only when it is positive and new. */
  function Weighted(f: Fact, weigh: Fact -> Option<real>): Fact {
    if (f.origin == DISTILLED || f.origin == DISCOVERED) && weigh(f).Some? && weigh(f).value > 0.0
    then f.(weight := weigh(f).value) else f
  }

  // Rewriting facts one by one, each where it stands, keeps the batch in step.
  lemma RewriteNext(w: World, facts: seq<Fact>, paths: seq<Path>, files: map<Path, string>, i: nat, f: Fact)
    requires InStep(w, facts, paths, files) && i < |facts| && (w.ser(f).Some? || f == facts[i]) && f.path == facts[i].path
    ensures InStep(w, facts[i := f], paths, if f == facts[i] then files else files[paths[i] := w.ser(f).value])
  {
    assert Written(w, facts[i], paths[i], files);
    if f == facts[i] {
      assert facts[i := f] == facts;
    } else {
      InStepRewrite(w, facts, paths, files, i, f);
    }
  }

  method ComputeEvidenceWeights(b: Batch, w: World, weigh: Fact -> Option<real>) returns (err: Option<Error>)
    requires b.Valid(w)
    modifies b`files, b.facts
    ensures err.None? ==> b.Valid(w)
    ensures err.None? ==> forall i :: 0 <= i < b.facts.Length ==> b.facts[i] == Weighted(old(b.facts[i]), weigh)
    ensures err.Some? ==> err.value.Unserializable? && err.value.index < b.facts.Length
                          && w.ser(Weighted(old(b.facts[err.value.index]), weigh)).None?
  {
    hide InStep;
    Shape(w, b.facts[..], b.paths[..], b.files);
    for i := 0 to b.facts.Length
      invariant InStep(w, b.facts[..], b.paths[..], b.files)
      invariant forall j :: 0 <= j < i ==> b.facts[j] == Weighted(old(b.facts[j]), weigh)
      invariant forall j :: i <= j < b.facts.Length ==> b.facts[j] == old(b.facts[j])
    {
      var f := b.facts[i];
      ghost var facts, files := b.facts[..], b.files;
      if f.origin != DISTILLED && f.origin != DISCOVERED { continue; }
      var weight := weigh(f);
      if weight.None? { continue; }
      if weight.value <= 0.0 || weight.value == f.weight { continue; }
      f := f.(weight := weight.value);
      b.facts[i] := f;
      if w.ser(f).None? { return Some(Unserializable(i)); }
      b.files := b.files[b.paths[i] := w.ser(f).value];
      RewriteNext(w, facts, b.paths[..], files, i, f);
      assert b.facts[..] == facts[i := f];
    }
    err := None;
  }

  lemma Shape(w: World, facts: seq<Fact>, paths: seq<Path>, files: map<Path, string>)
    requires InStep(w, facts, paths, files)
    ensures |facts| == |paths|
  {
  }

  // Stores each fact's refs in canonical form.
  method CanonicalizeRefs(b: Batch, w: World, canon: seq<string> -> seq<string>) returns (err: Option<Error>)
    requires b.Valid(w)
    modifies b`files, b.facts
    ensures err.None? ==> b.Valid(w)
    ensures err.None? ==> forall i :: 0 <= i < b.facts.Length ==> b.facts[i] == old(b.facts[i]).(refs := canon(old(b.facts[i]).refs))
    ensures err.Some? ==> err.value.Unserializable? && err.value.index < b.facts.Length
                          && w.ser(old(b.facts[err.value.index]).(refs := canon(old(b.facts[err.value.index]).refs))).None?
  {
    hide InStep;
    Shape(w, b.facts[..], b.paths[..], b.files);
    for i := 0 to b.facts.Length
      invariant InStep(w, b.facts[..], b.paths[..], b.files)
      invariant forall j :: 0 <= j < i ==> b.facts[j] == old(b.facts[j]).(refs := canon(old(b.facts[j]).refs))
      invariant forall j :: i <= j < b.facts.Length ==> b.facts[j] == old(b.facts[j])
    {
      var f := b.facts[i];
      ghost var facts, files := b.facts[..], b.files;
      var refs := canon(f.refs);
      if refs == f.refs { continue; }
      f := f.(refs := refs);
      b.facts[i] := f;
      if w.ser(f).None? { return Some(Unserializable(i)); }
      b.files := b.files[b.paths[i] := w.ser(f).value];
      RewriteNext(w, facts, b.paths[..], files, i, f);
      assert b.facts[..] == facts[i := f];
    }
    err := None;
  }

  // One path is one fact per call: reports the first input whose path an earlier one has, and
  // that earlier one.
  method CheckDistinct(paths: seq<Path>) returns (dup: Option<Error>)
    ensures dup.None? <==> Distinct(paths)
    ensures dup.Some? ==> dup.value.Duplicate? && dup.value.first < dup.value.again < |paths|
                          && paths[dup.value.first] == paths[dup.value.again] && Distinct(paths[..dup.value.again])
  {
    var seen: map<Path, nat> := map[];
    for i := 0 to |paths|
      invariant forall j :: 0 <= j < i ==> paths[j] in seen && seen[paths[j]] == j
      invariant forall p :: p in seen ==> seen[p] < i && paths[seen[p]] == p
      invariant Distinct(paths[..i])
    {
      if paths[i] in seen {
        return Some(Duplicate(seen[paths[i]], i));
      }
      seen := seen[paths[i] := i];
      assert forall j :: 0 <= j < i ==> paths[..i][j] == paths[j] && paths[..i + 1][j] == paths[j];
    }
    assert paths[..|paths|] == paths;
    dup := None;
  }

  // The refs the gate judges: each fact's, by the path it will be written at.
  method RefsByPath(facts: seq<Fact>, paths: seq<Path>) returns (refs: map<Path, seq<string>>)
    requires |facts| == |paths| && Distinct(paths)
    ensures forall p :: p in refs <==> p in paths
    ensures forall i :: 0 <= i < |paths| ==> paths[i] in refs && refs[paths[i]] == facts[i].refs
  {
    refs := map[];
    for i := 0 to |facts|
      invariant forall p :: p in refs <==> p in paths[..i]
      invariant forall j :: 0 <= j < i ==> paths[j] in refs && refs[paths[j]] == facts[j].refs
    {
      refs := refs[paths[i] := facts[i].refs];
      assert paths[..i + 1] == paths[..i] + [paths[i]];
    }
    assert paths[..|paths|] == paths;
  }

  // ---------- a whole call ----------

  /** What a call commits, and what the gate was asked. */
  datatype Commit = Commit(files: map<Path, string>, retract: seq<Path>, embs: map<Path, Vec>,
                           judged: map<Path, seq<string>>, prior: map<Path, seq<string>>)

  datatype Outcome = Committed(commit: Commit) | Refused | Failed(error: Error)

  // Serializes the built facts under their paths.
  method Serialize(w: World, facts: seq<Fact>, paths: seq<Path>) returns (files: map<Path, string>)
    requires |facts| == |paths|
    requires forall i :: 0 <= i < |facts| ==> w.ser(facts[i]).Some? && facts[i].path == w.lower(paths[i])
    ensures Distinct(paths) ==> InStep(w, facts, paths, files)
  {
    files := map[];
    for i := 0 to |facts|
      invariant forall p :: p in files <==> p in paths[..i]
      invariant Distinct(paths) ==> forall j :: 0 <= j < i ==> Written(w, facts[j], paths[j], files)
    {
      files := files[paths[i] := w.ser(facts[i]).value];
      assert paths[..i + 1] == paths[..i] + [paths[i]];
    }
    assert paths[..|paths|] == paths;
  }

  /** A commit and the facts it writes are in step: the files are exactly the facts' paths and
      contents, nothing written is retracted, and a donated vector describes what is written. */
  ghost predicate Coherent(w: World, facts: seq<Fact>, paths: seq<Path>, commit: Commit) {
    && InStep(w, facts, paths, commit.files)
    && Distinct(commit.retract)
    && (forall p :: p in commit.retract ==> p in w.corpus && w.corpus[p].leaf == HYPOTHESIS && p !in commit.files)
    && (forall p :: p in commit.embs ==> p in commit.files)
    && (forall i :: 0 <= i < |facts| && paths[i] in commit.embs ==>
          commit.embs[paths[i]] == w.embed(facts[i].title, facts[i].body))
    && (forall p :: p in commit.judged <==> p in commit.files)
  }

  lemma RetractOutside(w: World, input: Input, paths: seq<Path>)
    requires Fresh(w, input) && |paths| == |input.facts|
    requires forall i :: 0 <= i < |paths| ==> paths[i] == FinalPath(w, input, i)
    ensures forall p :: p in Retracted(w, input, |input.facts|) ==> p !in paths
  {
    RetractsApart(w, input);
    hide FinalPath, Retracted, Fresh;
  }

  lemma EmbsDescribe(w: World, input: Input, vecs: seq<Vec>, paths: seq<Path>, facts: seq<Fact>, embs: map<Path, Vec>)
    requires Fresh(w, input) && |paths| == |facts| == |input.facts|
    requires forall i :: 0 <= i < |paths| ==> paths[i] == FinalPath(w, input, i)
    requires forall i :: 0 <= i < |facts| ==> facts[i].title == FinalFact(w, input, i).title && facts[i].body == FinalFact(w, input, i).body
    requires forall i :: 0 <= i < |vecs| && i < |input.facts| ==> vecs[i] == w.embed(input.facts[i].title, input.facts[i].body)
    requires Donated(w, input, vecs, |input.facts|, embs)
    ensures forall p :: p in embs ==> p in paths
    ensures forall i :: 0 <= i < |facts| && paths[i] in embs ==> embs[paths[i]] == w.embed(facts[i].title, facts[i].body)
  {
    DonationsDescribe(w, input, vecs, embs);
    FinalPathsDistinct(w, input);
    hide FinalFact, FinalPath, Donated, Fresh;
    forall p | p in embs
      ensures p in paths
    {
      var j :| 0 <= j < |input.facts| && Describes(w, input, j, p, embs[p]);
      assert paths[j] == p;
    }
    forall i | 0 <= i < |facts| && paths[i] in embs
      ensures embs[paths[i]] == w.embed(facts[i].title, facts[i].body)
    {
      var j :| 0 <= j < |input.facts| && Describes(w, input, j, paths[i], embs[paths[i]]);
      assert FinalPath(w, input, j) == paths[i];
    }
  }

  lemma CoherentAfter(w: World, input: Input, folded: Loop, vecs: seq<Vec>, facts: seq<Fact>, commit: Commit)
    requires Fresh(w, input) && Folded(w, input, folded)
    requires forall i :: 0 <= i < |vecs| && i < |input.facts| ==> vecs[i] == w.embed(input.facts[i].title, input.facts[i].body)
    requires Donated(w, input, vecs, |input.facts|, commit.embs)
    requires InStep(w, facts, folded.paths, commit.files) && commit.retract == folded.retract
    requires forall i :: 0 <= i < |facts| && i < |input.facts| ==> facts[i].title == FinalFact(w, input, i).title && facts[i].body == FinalFact(w, input, i).body
    requires forall p :: p in commit.judged <==> p in folded.paths
    ensures Coherent(w, facts, folded.paths, commit)
  {
    assert |facts| == |folded.paths|;
    RetractsApart(w, input);
    RetractOutside(w, input, folded.paths);
    EmbsDescribe(w, input, vecs, folded.paths, facts, commit.embs);
    hide FinalFact, FinalPath, Retracted, Donated, Fresh, Written;
  }

  /** What is stored for input i: its folded fact, weighed, its refs judged as they were and stored
      in canonical form. */
  ghost predicate Stored(w: World, input: Input, weigh: Fact -> Option<real>, canon: seq<string> -> seq<string>,
                         judged: map<Path, seq<string>>, i: nat, f: Fact, path: Path)
    requires Fresh(w, input) && i < |input.facts|
  {
    var folded := FinalFact(w, input, i);
    && path == FinalPath(w, input, i) && path in judged && judged[path] == folded.refs
    && f == Weighted(folded, weigh).(refs := canon(folded.refs))
  }

  /** The same, told without how it is computed: what input i comes to, cited as judged and stored in
      canonical form, weighed if it is derived and its evidence weighs anything. */
  ghost predicate StoredAsTold(w: World, input: Input, weigh: Fact -> Option<real>, canon: seq<string> -> seq<string>,
                               judged: map<Path, seq<string>>, i: nat, f: Fact, path: Path)
    requires i < |input.hits| && |input.hits| == |input.topics| == |input.facts| == |input.paths|
  {
    exists g :: ComesTo(w, input, i, g, path) && path in judged && judged[path] == g.refs
      && f == g.(refs := canon(g.refs), weight :=
                 if g.origin in {"distilled", "discovered"} && weigh(g).Some? && weigh(g).value > 0.0 then weigh(g).value else g.weight)
  }

  lemma StoredTold(w: World, input: Input, weigh: Fact -> Option<real>, canon: seq<string> -> seq<string>,
                   judged: map<Path, seq<string>>, facts: seq<Fact>, paths: seq<Path>)
    requires Sound(w) && Fresh(w, input) && |facts| == |paths| == |input.facts|
    requires forall i :: 0 <= i < |facts| ==> Stored(w, input, weigh, canon, judged, i, facts[i], paths[i])
    ensures |input.hits| == |input.topics| == |input.facts| == |input.paths|
    ensures forall i :: 0 <= i < |facts| ==> StoredAsTold(w, input, weigh, canon, judged, i, facts[i], paths[i])
  {
    Lengths(w, input);
    hide Sound, Fresh, Stored, StoredAsTold;
    forall i | 0 <= i < |facts| ensures StoredAsTold(w, input, weigh, canon, judged, i, facts[i], paths[i]) {
      assert Stored(w, input, weigh, canon, judged, i, facts[i], paths[i]);
      OneStoredTold(w, input, weigh, canon, judged, i, facts[i], paths[i]);
    }
  }

  lemma OneStoredTold(w: World, input: Input, weigh: Fact -> Option<real>, canon: seq<string> -> seq<string>,
                      judged: map<Path, seq<string>>, i: nat, f: Fact, path: Path)
    requires Sound(w) && Fresh(w, input) && i < |input.facts| && Stored(w, input, weigh, canon, judged, i, f, path)
    ensures |input.hits| == |input.topics| == |input.facts| == |input.paths|
    ensures StoredAsTold(w, input, weigh, canon, judged, i, f, path)
  {
    hide Sound, Fresh, FinalFact, FinalPath, ComesTo, Donates, OwnWords, Settles, FirstMatch, Hit;
    Lengths(w, input);
    FinalComesTo(w, input, i);
    var g := FinalFact(w, input, i);
    assert ComesTo(w, input, i, g, path) && judged[path] == g.refs;
  }

  lemma StagesCompose(w: World, input: Input, folded: Loop, weigh: Fact -> Option<real>, canon: seq<string> -> seq<string>,
                      weighed: seq<Fact>, facts: seq<Fact>, judged: map<Path, seq<string>>)
    requires Fresh(w, input) && |folded.facts| == |folded.paths| == |weighed| == |facts| == |input.facts|
    requires forall i :: 0 <= i < |facts| ==> folded.facts[i] == FinalFact(w, input, i) && folded.paths[i] == FinalPath(w, input, i)
    requires forall i :: 0 <= i < |facts| ==> weighed[i] == Weighted(folded.facts[i], weigh)
    requires forall i :: 0 <= i < |facts| ==> facts[i] == weighed[i].(refs := canon(weighed[i].refs))
    requires forall i :: 0 <= i < |facts| ==> folded.paths[i] in judged && judged[folded.paths[i]] == weighed[i].refs
    ensures forall i :: 0 <= i < |facts| ==> Stored(w, input, weigh, canon, judged, i, facts[i], folded.paths[i])
    ensures forall i :: 0 <= i < |facts| && i < |input.facts| ==>
              facts[i].title == FinalFact(w, input, i).title && facts[i].body == FinalFact(w, input, i).body
  {
    hide Fresh, FinalFact, FinalPath;
  }

  /** The refs the gate judges: each final path's. */
  ghost predicate Judges(w: World, input: Input, judged: map<Path, seq<string>>)
    requires Fresh(w, input)
  {
    && (forall i :: 0 <= i < |input.facts| ==> FinalPath(w, input, i) in judged && judged[FinalPath(w, input, i)] == FinalFact(w, input, i).refs)
    && (forall p :: p in judged ==> exists i :: 0 <= i < |input.facts| && FinalPath(w, input, i) == p)
  }

  function AsStored(f: Fact, weigh: Fact -> Option<real>, canon: seq<string> -> seq<string>): Fact {
    Weighted(f, weigh).(refs := canon(f.refs))
  }

  /** Nothing stops the call: the folds are possible, every fact can be written as weighed and as
      stored, and the gate accepts. */
  ghost predicate Passes(w: World, input: Input, weigh: Fact -> Option<real>,
                         accept: (map<Path, seq<string>>, map<Path, seq<string>>) -> bool, canon: seq<string> -> seq<string>)
    requires Fresh(w, input)
  {
    && (forall i :: 0 <= i < |input.facts| ==> !Fails(w, input, i))
    && (forall i :: 0 <= i < |input.facts| ==> w.ser(Weighted(FinalFact(w, input, i), weigh)).Some?)
    && (exists judged, prior :: Judges(w, input, judged) && PriorRefs(w, input, |input.facts|, prior) && accept(judged, prior))
    && (forall i :: 0 <= i < |input.facts| ==> w.ser(AsStored(FinalFact(w, input, i), weigh, canon)).Some?)
  }

  lemma JudgedUnique(w: World, input: Input, a: map<Path, seq<string>>, b: map<Path, seq<string>>)
    requires Fresh(w, input) && Judges(w, input, a) && Judges(w, input, b)
    ensures a == b
  {
    hide FinalFact, FinalPath;
    forall p ensures (p in a <==> p in b) && (p in a ==> a[p] == b[p]) {
      if p in a {
        var i :| 0 <= i < |input.facts| && FinalPath(w, input, i) == p;
      }
    }
  }

  lemma PriorUnique(w: World, input: Input, a: map<Path, seq<string>>, b: map<Path, seq<string>>)
    requires Fresh(w, input) && PriorRefs(w, input, |input.facts|, a) && PriorRefs(w, input, |input.facts|, b)
    ensures a == b
  {
    hide FinalPath, Merges;
    forall p ensures (p in a <==> p in b) && (p in a ==> a[p] == b[p]) {
    }
  }

  lemma GateDecides(w: World, input: Input, weigh: Fact -> Option<real>,
                    accept: (map<Path, seq<string>>, map<Path, seq<string>>) -> bool, canon: seq<string> -> seq<string>,
                    judged: map<Path, seq<string>>, prior: map<Path, seq<string>>)
    requires Fresh(w, input) && Judges(w, input, judged) && PriorRefs(w, input, |input.facts|, prior) && !accept(judged, prior)
    ensures !Passes(w, input, weigh, accept, canon)
  {
    Lengths(w, input);
    hide Fresh, FinalFact, FinalPath, Fails, Merges, Judges, PriorRefs;
    forall j, p | Judges(w, input, j) && PriorRefs(w, input, |input.facts|, p) ensures j == judged && p == prior {
      JudgedUnique(w, input, j, judged);
      PriorUnique(w, input, p, prior);
    }
  }

  lemma WrittenPasses(w: World, input: Input, weigh: Fact -> Option<real>,
                      accept: (map<Path, seq<string>>, map<Path, seq<string>>) -> bool, canon: seq<string> -> seq<string>,
                      weighed: seq<Fact>, paths: seq<Path>, mid: map<Path, string>, facts: seq<Fact>, files: map<Path, string>,
                      judged: map<Path, seq<string>>, prior: map<Path, seq<string>>)
    requires Fresh(w, input) && |weighed| == |facts| == |paths| == |input.facts|
    requires forall i :: 0 <= i < |input.facts| ==> !Fails(w, input, i)
    requires forall i :: 0 <= i < |facts| ==> weighed[i] == Weighted(FinalFact(w, input, i), weigh)
    requires forall i :: 0 <= i < |facts| ==> facts[i] == AsStored(FinalFact(w, input, i), weigh, canon)
    requires InStep(w, weighed, paths, mid) && InStep(w, facts, paths, files)
    requires Judges(w, input, judged) && PriorRefs(w, input, |input.facts|, prior) && accept(judged, prior)
    ensures Passes(w, input, weigh, accept, canon)
  {
    Lengths(w, input);
    hide Fresh, FinalFact, FinalPath, Fails, Merges, Judges, PriorRefs, Weighted;
    forall i | 0 <= i < |facts|
      ensures w.ser(Weighted(FinalFact(w, input, i), weigh)).Some? && w.ser(AsStored(FinalFact(w, input, i), weigh, canon)).Some?
    {
      assert Written(w, weighed[i], paths[i], mid) && Written(w, facts[i], paths[i], files);
    }
  }

  lemma JudgedAll(w: World, input: Input, weigh: Fact -> Option<real>, weighed: seq<Fact>, paths: seq<Path>, judged: map<Path, seq<string>>)
    requires Fresh(w, input) && |weighed| == |paths| == |input.facts|
    requires forall i :: 0 <= i < |paths| ==> paths[i] == FinalPath(w, input, i) && weighed[i] == Weighted(FinalFact(w, input, i), weigh)
    requires forall p :: p in judged <==> p in paths
    requires forall i :: 0 <= i < |paths| ==> paths[i] in judged && judged[paths[i]] == weighed[i].refs
    ensures Judges(w, input, judged)
  {
    hide Fresh, FinalFact, FinalPath;
  }

  // Folds, weighs, asks the gate, canonicalizes: one call, all or nothing. It commits exactly when the
  // fresh paths are distinct and nothing stops it.
  method LearnCall(b: Batch, w: World, topics: seq<string>, hits: seq<Option<Path>>, vecs: seq<Vec>,
                   weigh: Fact -> Option<real>, accept: (map<Path, seq<string>>, map<Path, seq<string>>) -> bool,
                   canon: seq<string> -> seq<string>)
      returns (r: Outcome)
    requires Sound(w) && b.facts.Length == b.paths.Length == |topics| == |hits|
    requires forall i :: 0 <= i < b.facts.Length ==> w.ser(b.facts[i]).Some? && b.facts[i].path == w.lower(b.paths[i]) && b.paths[i] !in w.corpus
    requires forall i :: 0 <= i < |vecs| && i < b.facts.Length ==> vecs[i] == w.embed(b.facts[i].title, b.facts[i].body)
    modifies b`files, b.facts, b.paths
    ensures var input := Input(old(b.facts[..]), topics, old(b.paths[..]), hits);
      r.Committed? <==> Distinct(old(b.paths[..])) && Passes(w, input, weigh, accept, canon)
    ensures r.Committed? ==>
      var input := Input(old(b.facts[..]), topics, old(b.paths[..]), hits);
      && Coherent(w, b.facts[..], b.paths[..], r.commit)
      && accept(r.commit.judged, r.commit.prior)
      && PriorRefs(w, input, |input.facts|, r.commit.prior)
      && (forall i :: 0 <= i < b.facts.Length ==> Stored(w, input, weigh, canon, r.commit.judged, i, b.facts[i], b.paths[i]))
      && (forall i :: 0 <= i < b.facts.Length ==> StoredAsTold(w, input, weigh, canon, r.commit.judged, i, b.facts[i], b.paths[i]))
      && Carries(w, input, vecs, b.paths[..], r.commit.retract, r.commit.embs)
  {
    hide Folded, Donated, InStep, FinalFact, FinalPath, Retracted, Coherent, PriorRefs, Stored, Passes, Judges, StoredAsTold, Carries, ComesTo;
    b.files := Serialize(w, b.facts[..], b.paths[..]);
    var dup := CheckDistinct(b.paths[..]);
    if dup.Some? { return Failed(dup.value); }
    ghost var input := Input(b.facts[..], topics, b.paths[..], hits);
    assert Fresh(w, input);
    hide Fresh, Distinct;
    var err, embs, retract, prior := b.ApplyDedupMerge(w, input, topics, hits, vecs);
    if err.Some? {
      FoldStops(w, input, weigh, accept, canon);
      return Failed(err.value);
    }
    ghost var folded := Loop(b.facts[..], b.paths[..], b.files, [], {}, retract, prior);
    FoldedFacts(w, input, folded);
    r := StoreFolded(b, w, input, folded, vecs, weigh, accept, canon, retract, embs, prior);
    if r.Committed? {
      StoredTold(w, input, weigh, canon, r.commit.judged, b.facts[..], b.paths[..]);
    }
  }

  // The rest of the call: weigh, ask the gate, canonicalize, commit.
  method StoreFolded(b: Batch, w: World, ghost input: Input, ghost folded: Loop, ghost vecs: seq<Vec>,
                     weigh: Fact -> Option<real>, accept: (map<Path, seq<string>>, map<Path, seq<string>>) -> bool,
                     canon: seq<string> -> seq<string>, retract: seq<Path>, embs: map<Path, Vec>, prior: map<Path, seq<string>>)
      returns (r: Outcome)
    requires b.Valid(w) && Fresh(w, input) && Folded(w, input, folded) && Donated(w, input, vecs, |input.facts|, embs)
    requires folded == Loop(b.facts[..], b.paths[..], b.files, [], {}, retract, prior)
    requires forall i :: 0 <= i < |vecs| && i < |input.facts| ==> vecs[i] == w.embed(input.facts[i].title, input.facts[i].body)
    modifies b`files, b.facts
    ensures r.Committed? <==> Passes(w, input, weigh, accept, canon)
    ensures r.Committed? ==>
      && b.facts.Length == |input.facts| == b.paths.Length
      && Coherent(w, b.facts[..], b.paths[..], r.commit)
      && accept(r.commit.judged, r.commit.prior)
      && PriorRefs(w, input, |input.facts|, r.commit.prior)
      && (forall i :: 0 <= i < b.facts.Length ==> Stored(w, input, weigh, canon, r.commit.judged, i, b.facts[i], b.paths[i]))
      && r.commit.retract == retract && r.commit.embs == embs
  {
    FoldedFacts(w, input, folded);
    hide Folded, Donated, InStep, FinalFact, FinalPath, Retracted, Coherent, PriorRefs, Stored, Passes, Judges, Fails, Fresh, Distinct;
    var err := ComputeEvidenceWeights(b, w, weigh);
    if err.Some? {
      WeightStops(w, input, weigh, accept, canon, err.value.index);
      return Failed(err.value);
    }
    ghost var weighed, mid := b.facts[..], b.files;
    Shape(w, b.facts[..], b.paths[..], b.files);
    var judged := RefsByPath(b.facts[..], b.paths[..]);
    JudgedAll(w, input, weigh, weighed, folded.paths, judged);
    if !accept(judged, prior) {
      GateDecides(w, input, weigh, accept, canon, judged, prior);
      return Refused;
    }
    err := CanonicalizeRefs(b, w, canon);
    if err.Some? {
      StoreStops(w, input, weigh, accept, canon, weighed, err.value.index);
      return Failed(err.value);
    }
    hide Weighted;
    r := Committed(Commit(b.files, retract, embs, judged, prior));
    StagesCompose(w, input, folded, weigh, canon, weighed, b.facts[..], judged);
    AllStored(w, input, weigh, canon, weighed, b.facts[..]);
    WrittenPasses(w, input, weigh, accept, canon, weighed, folded.paths, mid, b.facts[..], b.files, judged, prior);
    CoherentAfter(w, input, folded, vecs, b.facts[..], r.commit);
  }

  lemma AllStored(w: World, input: Input, weigh: Fact -> Option<real>, canon: seq<string> -> seq<string>, weighed: seq<Fact>, facts: seq<Fact>)
    requires Fresh(w, input) && |weighed| == |facts| == |input.facts|
    requires forall i :: 0 <= i < |facts| ==> weighed[i] == Weighted(FinalFact(w, input, i), weigh)
    requires forall i :: 0 <= i < |facts| ==> facts[i] == weighed[i].(refs := canon(weighed[i].refs))
    ensures forall i :: 0 <= i < |facts| ==> facts[i] == AsStored(FinalFact(w, input, i), weigh, canon)
  {
    Lengths(w, input);
    hide Fresh, FinalFact;
  }

  lemma FoldStops(w: World, input: Input, weigh: Fact -> Option<real>,
                  accept: (map<Path, seq<string>>, map<Path, seq<string>>) -> bool, canon: seq<string> -> seq<string>)
    requires Fresh(w, input) && exists i :: 0 <= i < |input.facts| && Fails(w, input, i)
    ensures !Passes(w, input, weigh, accept, canon)
  {
    hide Fresh, Fails;
  }

  lemma WeightStops(w: World, input: Input, weigh: Fact -> Option<real>,
                    accept: (map<Path, seq<string>>, map<Path, seq<string>>) -> bool, canon: seq<string> -> seq<string>, i: nat)
    requires Fresh(w, input) && i < |input.facts| && w.ser(Weighted(FinalFact(w, input, i), weigh)).None?
    ensures !Passes(w, input, weigh, accept, canon)
  {
    hide Fresh, Fails, FinalFact;
  }

  lemma StoreStops(w: World, input: Input, weigh: Fact -> Option<real>,
                   accept: (map<Path, seq<string>>, map<Path, seq<string>>) -> bool, canon: seq<string> -> seq<string>,
                   weighed: seq<Fact>, i: nat)
    requires Fresh(w, input) && i < |weighed| == |input.facts| && weighed[i] == Weighted(FinalFact(w, input, i), weigh)
    requires w.ser(weighed[i].(refs := canon(weighed[i].refs))).None?
    ensures !Passes(w, input, weigh, accept, canon)
  {
    Lengths(w, input);
    hide Fresh, Fails, FinalFact;
    assert weighed[i].(refs := canon(weighed[i].refs)) == AsStored(FinalFact(w, input, i), weigh, canon);
  }

  lemma FoldedFacts(w: World, input: Input, folded: Loop)
    requires Fresh(w, input) && Folded(w, input, folded)
    ensures |folded.facts| == |folded.paths| == |input.facts| && Distinct(folded.paths)
    ensures InStep(w, folded.facts, folded.paths, folded.files)
    ensures PriorRefs(w, input, |input.facts|, folded.prior)
    ensures forall i :: 0 <= i < |input.facts| ==> !Fails(w, input, i)
    ensures forall i :: 0 <= i < |folded.facts| ==> folded.facts[i] == FinalFact(w, input, i) && folded.paths[i] == FinalPath(w, input, i)
  {
  }
}
