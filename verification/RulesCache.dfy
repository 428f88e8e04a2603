/**
 Ontology rules (internal/fact/ontology.go, validation.go): a cache of rules keyed by joined topic
 path must run what a walk of the ontology's tree would, and a stored ontology that is a subset of
 a preset must apply nothing the preset does not.

 Compiling and evaluating a rule are parameters.
*/
module RulesCache {
  import opened Wrappers
  import opened RefSyntax

  datatype Rule = Rule(name: string, body: string, message: string)

  /** A node of the ontology; Nil is a topic written without a body. */
  datatype Node = Nil | Node(rules: seq<Rule>, children: map<string, Node>)

  datatype Ontology = Ontology(rules: seq<Rule>, topics: map<string, Node>)

  type Cache = map<string, seq<Rule>>

  /** Evaluating a rule on a fact: it passes, it fails, or it cannot be evaluated. */
  datatype Verdict = Pass | Fail | Broken

  datatype Outcome = Valid | Violates(topic: string, rule: Rule) | CannotTell(topic: string, rule: Rule)

  const ROOT := "<root>"

  // ---------- topic paths ----------

  function Join(segs: seq<string>): string {
    if segs == [] then "" else if |segs| == 1 then segs[0] else Join(segs[..|segs| - 1]) + ("/" + segs[|segs| - 1])
  }

  function Split(s: string): (segs: seq<string>)
    ensures segs != []
  {
    var i := First(s, '/');
    if i == |s| then [s] else [s[..i]] + Split(s[i + 1..])
  }

  ghost predicate NoSlash(segs: seq<string>) {
    forall i :: 0 <= i < |segs| ==> '/' !in segs[i]
  }

  // The last slash is found from the end.
  lemma CutLast(a: string, x: string, b: string, y: string)
    requires '/' !in x && '/' !in y && a + ("/" + x) == b + ("/" + y)
    ensures a == b && x == y
  {
    var s := a + ("/" + x);
    assert forall k :: |a| < k < |s| ==> s[k] == x[k - |a| - 1] && s[k] != '/';
    assert forall k :: |b| < k < |s| ==> s[k] == y[k - |b| - 1] && s[k] != '/';
    assert s[|a|] == '/' && s[|b|] == '/';
    assert |a| == |b|;
    assert s[..|a|] == a && s[..|b|] == b && s[|a| + 1..] == x && s[|b| + 1..] == y;
  }

  // Joined paths of slash-free keys are the same only when the keys are.
  lemma {:induction false} JoinInjective(a: seq<string>, b: seq<string>)
    requires a != [] && b != [] && NoSlash(a) && NoSlash(b) && Join(a) == Join(b)
    ensures a == b
    decreases |a|
  {
    JoinSlashes(a);
    JoinSlashes(b);
    var x, y := a[|a| - 1], b[|b| - 1];
    assert a == a[..|a| - 1] + [x] && b == b[..|b| - 1] + [y];
    if |a| > 1 {
      CutLast(Join(a[..|a| - 1]), x, Join(b[..|b| - 1]), y);
      JoinInjective(a[..|a| - 1], b[..|b| - 1]);
    }
  }

  lemma JoinSlashes(a: seq<string>)
    requires a != [] && NoSlash(a)
    ensures '/' in Join(a) <==> |a| > 1
  {
    if |a| > 1 {
      var s := Join(a);
      assert s[|Join(a[..|a| - 1])|] == '/';
    }
  }

  // ---------- the tree ----------

  /** The node a list of keys leads to, below n. */
  function Below(n: Node, keys: seq<string>): Option<Node>
    decreases |keys|
  {
    if keys == [] then Some(n)
    else if n.Nil? || keys[0] !in n.children then None
    else Below(n.children[keys[0]], keys[1..])
  }

  function NodeAt(o: Ontology, keys: seq<string>): Option<Node> {
    if keys == [] || keys[0] !in o.topics then None else Below(o.topics[keys[0]], keys[1..])
  }

  function RulesOf(n: Node): seq<Rule> {
    if n.Nil? then [] else n.rules
  }

  /** Keys without a slash, at every level. */
  ghost predicate GoodNode(n: Node)
    decreases n
  {
    n.Node? ==> forall k :: k in n.children ==> '/' !in k && GoodNode(n.children[k])
  }

  ghost predicate GoodKeys(o: Ontology) {
    forall k :: k in o.topics ==> '/' !in k && k != ROOT && GoodNode(o.topics[k])
  }

  predicate KeyChar(c: char) {
    'a' <= c <= 'z' || '0' <= c <= '9' || c == '-'
  }

  /** Lower-case words joined by single dashes. */
  predicate ValidKey(k: string) {
    && k != "" && k[0] != '-' && k[|k| - 1] != '-'
    && (forall i :: 0 <= i < |k| ==> KeyChar(k[i]))
    && (forall i :: 0 <= i < |k| - 1 ==> k[i] != '-' || k[i + 1] != '-')
  }

  /** What the parser admits: it looks at the keys of topics and of their children, and no deeper. */
  ghost predicate Admitted(o: Ontology) {
    forall k :: k in o.topics ==>
      ValidKey(k) && (o.topics[k].Node? ==> forall c :: c in o.topics[k].children ==> ValidKey(c))
  }

  /** The rules run at one topic, with it. */
  function At(topic: string, rules: seq<Rule>): seq<(string, Rule)> {
    seq(|rules|, i requires 0 <= i < |rules| => (topic, rules[i]))
  }

  /** The rules met on the way down from a node, as far as the path goes. */
  function AlongNode(n: Node, prefix: string, segs: seq<string>): seq<(string, Rule)>
    decreases |segs|
  {
    if segs == [] || n.Nil? || Lower(segs[0]) !in n.children then []
    else
      var key := Lower(segs[0]);
      var child := n.children[key];
      var topic := prefix + ("/" + key);
      At(topic, RulesOf(child)) + AlongNode(child, topic, segs[1..])
  }

  /** Every rule that applies along a topic path: the root's, then each node's on the way down. */
  function Along(o: Ontology, segs: seq<string>): seq<(string, Rule)>
    requires segs != []
  {
    var top := Lower(segs[0]);
    At(ROOT, o.rules)
    + if top in o.topics then At(top, RulesOf(o.topics[top])) + AlongNode(o.topics[top], top, segs[1..]) else []
  }

  /** The first rule that does not pass. */
  function FirstBad(rules: seq<(string, Rule)>, eval: Rule -> Verdict): Outcome {
    if rules == [] then Valid
    else match eval(rules[0].1) {
      case Pass => FirstBad(rules[1..], eval)
      case Fail => Violates(rules[0].0, rules[0].1)
      case Broken => CannotTell(rules[0].0, rules[0].1)
    }
  }

  lemma {:induction false} FirstBadJoin(a: seq<(string, Rule)>, b: seq<(string, Rule)>, eval: Rule -> Verdict)
    ensures FirstBad(a + b, eval) == if FirstBad(a, eval).Valid? then FirstBad(b, eval) else FirstBad(a, eval)
    decreases |a|
  {
    if a == [] {
      assert a + b == b;
    } else {
      assert (a + b)[0] == a[0] && (a + b)[1..] == a[1..] + b;
      FirstBadJoin(a[1..], b, eval);
    }
  }

  // ---------- the cache ----------

  function Cached(cache: Cache, topic: string): seq<Rule> {
    if topic in cache then cache[topic] else []
  }

  /** A node at or below n, found by path + keys, that has these rules. */
  ghost predicate ReachesAt(n: Node, path: seq<string>, t: string, rules: seq<Rule>) {
    exists keys :: ReachesBy(n, path, keys, t, rules)
  }

  ghost predicate ReachesBy(n: Node, path: seq<string>, keys: seq<string>, t: string, rules: seq<Rule>) {
    Below(n, keys).Some? && RulesOf(Below(n, keys).value) == rules && t == Join(path + keys)
  }

  /** The same, by way of one of these children, or n itself. */
  ghost predicate ReachesSome(n: Node, path: seq<string>, done: set<string>, t: string, rules: seq<Rule>) {
    exists keys :: (keys == [] || keys[0] in done) && ReachesBy(n, path, keys, t, rules)
  }

  /** The cache was given rules of nodes at or below n and nothing else, and every node with rules has
      given some to its key. */
  ghost predicate Gained(was: Cache, now: Cache, path: seq<string>, n: Node) {
    && was.Keys <= now.Keys
    && (forall t :: t in now ==> (t in was && now[t] == was[t]) || (now[t] != [] && ReachesAt(n, path, t, now[t])))
    && (forall t, rules :: ReachesAt(n, path, t, rules) && rules != [] ==> t in now)
  }

  ghost predicate GainedSome(was: Cache, now: Cache, path: seq<string>, n: Node, done: set<string>) {
    && was.Keys <= now.Keys
    && (forall t :: t in now ==> (t in was && now[t] == was[t]) || (now[t] != [] && ReachesSome(n, path, done, t, now[t])))
    && (forall t, rules :: ReachesSome(n, path, done, t, rules) && rules != [] ==> t in now)
  }

  lemma {:induction false} BelowNoSlash(n: Node, keys: seq<string>)
    requires GoodNode(n) && Below(n, keys).Some?
    ensures NoSlash(keys)
    decreases |keys|
  {
    if keys != [] {
      BelowNoSlash(n.children[keys[0]], keys[1..]);
      assert forall i :: 0 < i < |keys| ==> keys[i] == keys[1..][i - 1];
    }
  }

  lemma ChildGained(was: Cache, mid: Cache, now: Cache, path: seq<string>, n: Node, done: set<string>, k: string)
    requires n.Node? && k in n.children
    requires GainedSome(was, mid, path, n, done) && Gained(mid, now, path + [k], n.children[k])
    ensures GainedSome(was, now, path, n, done + {k})
  {
    hide Join, Below, RulesOf;
    forall t, rules
      ensures ReachesAt(n.children[k], path + [k], t, rules) ==> ReachesSome(n, path, done + {k}, t, rules)
      ensures ReachesSome(n, path, done, t, rules) ==> ReachesSome(n, path, done + {k}, t, rules)
      ensures ReachesSome(n, path, done + {k}, t, rules) ==>
                ReachesSome(n, path, done, t, rules) || ReachesAt(n.children[k], path + [k], t, rules)
    {
      ChildReaches(n, path, done, k, t, rules);
    }
    hide ReachesAt, ReachesSome;
  }

  lemma ChildReaches(n: Node, path: seq<string>, done: set<string>, k: string, t: string, rules: seq<Rule>)
    requires n.Node? && k in n.children
    ensures ReachesAt(n.children[k], path + [k], t, rules) ==> ReachesSome(n, path, done + {k}, t, rules)
    ensures ReachesSome(n, path, done, t, rules) ==> ReachesSome(n, path, done + {k}, t, rules)
    ensures ReachesSome(n, path, done + {k}, t, rules) ==>
              ReachesSome(n, path, done, t, rules) || ReachesAt(n.children[k], path + [k], t, rules)
  {
    hide Join, RulesOf;
    if keys :| ReachesBy(n.children[k], path + [k], keys, t, rules) {
      var deep := [k] + keys;
      assert deep[1..] == keys && path + [k] + keys == path + deep;
      assert ReachesBy(n, path, deep, t, rules);
    }
    if keys :| (keys == [] || keys[0] in done) && ReachesBy(n, path, keys, t, rules) {
      assert keys == [] || keys[0] in done + {k};
    }
    if keys :| (keys == [] || keys[0] in done + {k}) && ReachesBy(n, path, keys, t, rules) {
      if keys != [] && keys[0] == k {
        assert path + [k] + keys[1..] == path + keys;
        assert ReachesBy(n.children[k], path + [k], keys[1..], t, rules);
      }
    }
  }

  // ---------- building ----------

  // Compiles a node's rules and, child by child, everything below it.
  method Walk(cache: Cache, prefix: string, ghost path: seq<string>, n: Node, compiles: Rule -> bool) returns (ok: bool, out: Cache)
    requires path != [] && prefix == Join(path)
    ensures ok ==> Gained(cache, out, path, n)
    ensures ok <==> AllCompile(n, compiles)
    decreases n
  {
    hide GainedSome, Gained;
    out := cache;
    ok := true;
    if n.Nil? {
      NilGained(cache, path);
      return;
    }
    if exists r :: r in n.rules && !compiles(r) { return false, out; }
    if n.rules != [] { out := out[prefix := n.rules]; }
    OwnGained(cache, path, n);
    var rest := n.children.Keys;
    ghost var done: set<string> := {};
    while rest != {}
      invariant done <= n.children.Keys && rest == n.children.Keys - done
      invariant GainedSome(cache, out, path, n, done)
      invariant forall k :: k in done ==> AllCompile(n.children[k], compiles)
      decreases |rest|
    {
      var k :| k in rest;
      assert prefix + ("/" + k) == Join(path + [k]) by { assert (path + [k])[..|path|] == path; }
      ghost var mid := out;
      ok, out := Walk(out, prefix + ("/" + k), path + [k], n.children[k], compiles);
      if !ok { return; }
      ChildGained(cache, mid, out, path, n, done, k);
      done := done + {k};
      rest := rest - {k};
    }
    assert done == n.children.Keys;
    AllGained(cache, out, path, n);
  }

  /** Every rule at or below a node compiles. */
  ghost predicate AllCompile(n: Node, compiles: Rule -> bool)
    decreases n
  {
    n.Node? ==> (forall r :: r in n.rules ==> compiles(r)) && forall k :: k in n.children ==> AllCompile(n.children[k], compiles)
  }

  lemma NilGained(cache: Cache, path: seq<string>)
    ensures Gained(cache, cache, path, Nil)
  {
  }

  lemma OwnGained(cache: Cache, path: seq<string>, n: Node)
    requires n.Node?
    ensures GainedSome(cache, if n.rules != [] then cache[Join(path) := n.rules] else cache, path, n, {})
  {
    hide Join;
    assert path + [] == path && Below(n, []) == Some(n);
    assert ReachesBy(n, path, [], Join(path), n.rules);
    forall t, rules | ReachesSome(n, path, {}, t, rules) ensures t == Join(path) && rules == n.rules {
      var keys :| (keys == [] || keys[0] in {}) && ReachesBy(n, path, keys, t, rules);
      assert keys == [];
    }
  }

  lemma AllGained(was: Cache, now: Cache, path: seq<string>, n: Node)
    requires n.Node? && GainedSome(was, now, path, n, n.children.Keys)
    ensures Gained(was, now, path, n)
  {
    hide Join, RulesOf;
    forall t, rules ensures ReachesAt(n, path, t, rules) <==> ReachesSome(n, path, n.children.Keys, t, rules) {
      if keys :| ReachesBy(n, path, keys, t, rules) {
        assert keys == [] || keys[0] in n.children.Keys;
      }
    }
  }

  /** A node of the ontology, or its root, whose joined key is t, with its rules. */
  ghost predicate Site(o: Ontology, t: string, rules: seq<Rule>) {
    (t == ROOT && rules == o.rules) || exists keys :: SiteBy(o, keys, t, rules)
  }

  ghost predicate SiteBy(o: Ontology, keys: seq<string>, t: string, rules: seq<Rule>) {
    keys != [] && NodeAt(o, keys).Some? && RulesOf(NodeAt(o, keys).value) == rules && t == Join(keys)
  }

  /** The cache answers for every node of the ontology, and for the root. */
  ghost predicate Answers(cache: Cache, o: Ontology) {
    forall t, rules :: Site(o, t, rules) ==> Cached(cache, t) == rules
  }

  /** Any two nodes with one joined key, the root counting as one, have the same rules. */
  ghost predicate NoClash(o: Ontology) {
    forall t, a, b :: Site(o, t, a) && Site(o, t, b) ==> a == b
  }

  /** Each key of the cache holds the rules of some node of that key, and no key of a node with rules
      is missing. */
  ghost predicate BuiltFrom(cache: Cache, o: Ontology) {
    && (forall t :: t in cache ==> cache[t] != [] && Site(o, t, cache[t]))
    && (forall t, rules :: Site(o, t, rules) && rules != [] ==> t in cache)
  }

  /** The same of the root and the topics gone through. */
  ghost predicate BuiltSome(cache: Cache, o: Ontology, done: set<string>) {
    && (forall t :: t in cache ==> cache[t] != [] && SiteSome(o, done, t, cache[t]))
    && (forall t, rules :: SiteSome(o, done, t, rules) && rules != [] ==> t in cache)
  }

  ghost predicate SiteSome(o: Ontology, done: set<string>, t: string, rules: seq<Rule>) {
    (t == ROOT && rules == o.rules) || exists k :: k in done && k in o.topics && ReachesAt(o.topics[k], [k], t, rules)
  }

  lemma SiteReached(o: Ontology, t: string, rules: seq<Rule>)
    ensures Site(o, t, rules) <==> SiteSome(o, o.topics.Keys, t, rules)
  {
    hide Join, RulesOf;
    if keys :| SiteBy(o, keys, t, rules) {
      var k := keys[0];
      assert [k] + keys[1..] == keys;
      assert ReachesBy(o.topics[k], [k], keys[1..], t, rules);
    }
    if k, keys :| k in o.topics && ReachesBy(o.topics[k], [k], keys, t, rules) {
      var all := [k] + keys;
      assert all[1..] == keys;
      assert SiteBy(o, all, t, rules);
    }
  }

  // Compiles the root's rules, then every topic's: once, when the ontology is parsed. Two nodes of
  // one key leave it the rules of one of them, so the cache answers for every node if and only if no
  // two clash.
  method BuildRulesCache(o: Ontology, compiles: Rule -> bool) returns (ok: bool, cache: Cache)
    ensures ok <==> (forall r :: r in o.rules ==> compiles(r)) && forall k :: k in o.topics ==> AllCompile(o.topics[k], compiles)
    ensures ok ==> BuiltFrom(cache, o) && (Answers(cache, o) <==> NoClash(o))
  {
    hide BuiltSome, BuiltFrom, Gained, AllCompile, Answers, NoClash, Join;
    cache := map[];
    ok := true;
    if exists r :: r in o.rules && !compiles(r) { return false, cache; }
    if o.rules != [] { cache := cache[ROOT := o.rules]; }
    RootBuilt(o, cache);
    var rest := o.topics.Keys;
    ghost var done: set<string> := {};
    while rest != {}
      invariant done <= o.topics.Keys && rest == o.topics.Keys - done
      invariant BuiltSome(cache, o, done)
      invariant forall k :: k in done ==> AllCompile(o.topics[k], compiles)
      decreases |rest|
    {
      var k :| k in rest;
      ghost var was := cache;
      JoinOne(k);
      ok, cache := Walk(cache, k, [k], o.topics[k], compiles);
      if !ok { return; }
      TopicBuilt(o, was, cache, done, k);
      done := done + {k};
      rest := rest - {k};
    }
    assert done == o.topics.Keys;
    AllBuilt(o, cache);
    AnswersExactly(o, cache);
  }

  lemma JoinOne(k: string)
    ensures Join([k]) == k
  {
  }

  lemma RootBuilt(o: Ontology, cache: Cache)
    requires cache == if o.rules != [] then map[ROOT := o.rules] else map[]
    ensures BuiltSome(cache, o, {})
  {
  }

  lemma TopicBuilt(o: Ontology, was: Cache, now: Cache, done: set<string>, k: string)
    requires k in o.topics && BuiltSome(was, o, done) && Gained(was, now, [k], o.topics[k])
    ensures BuiltSome(now, o, done + {k})
  {
    hide ReachesAt;
    forall t, rules
      ensures SiteSome(o, done + {k}, t, rules) <==> SiteSome(o, done, t, rules) || ReachesAt(o.topics[k], [k], t, rules)
    {
      if ReachesAt(o.topics[k], [k], t, rules) {
        assert k in done + {k};
      }
    }
    hide SiteSome;
  }

  lemma AllBuilt(o: Ontology, cache: Cache)
    requires BuiltSome(cache, o, o.topics.Keys)
    ensures BuiltFrom(cache, o)
  {
    hide Site, SiteSome;
    forall t, rules ensures Site(o, t, rules) <==> SiteSome(o, o.topics.Keys, t, rules) {
      SiteReached(o, t, rules);
    }
  }

  // Whatever cache was built, it answers for every node exactly when no two nodes clash; and where
  // two clash no cache does.
  lemma AnswersExactly(o: Ontology, cache: Cache)
    requires BuiltFrom(cache, o)
    ensures Answers(cache, o) <==> NoClash(o)
  {
    hide Site;
    if NoClash(o) {
      forall t, rules | Site(o, t, rules) ensures Cached(cache, t) == rules {
        assert t in cache ==> Site(o, t, cache[t]);
      }
    }
  }

  lemma ClashUnanswered(o: Ontology, cache: Cache)
    requires !NoClash(o)
    ensures !Answers(cache, o)
  {
    hide Site;
  }

  // Slash-free keys do not clash.
  lemma GoodKeysApart(o: Ontology)
    requires GoodKeys(o)
    ensures NoClash(o)
  {
    hide RulesOf, NodeAt, Join;
    forall t, a, b | Site(o, t, a) && Site(o, t, b) ensures a == b {
      if x, y :| SiteBy(o, x, t, a) && SiteBy(o, y, t, b) {
        KeysNoSlash(o, x);
        KeysNoSlash(o, y);
        JoinInjective(x, y);
      }
      if x :| SiteBy(o, x, t, a) {
        KeysNoSlash(o, x);
      }
      if y :| SiteBy(o, y, t, b) {
        KeysNoSlash(o, y);
      }
    }
  }

  lemma KeysNoSlash(o: Ontology, keys: seq<string>)
    requires GoodKeys(o) && keys != [] && NodeAt(o, keys).Some?
    ensures NoSlash(keys) && Join(keys) != ROOT
  {
    BelowNoSlash(o.topics[keys[0]], keys[1..]);
    assert forall i :: 0 < i < |keys| ==> keys[i] == keys[1..][i - 1];
    JoinSlashes(keys);
  }

  // ---------- validating ----------

  // Runs the rules the cache has for a topic; none when it has none.
  method RunRulesCached(cache: Cache, topic: string, eval: Rule -> Verdict) returns (r: Outcome)
    ensures r == FirstBad(At(topic, Cached(cache, topic)), eval)
  {
    var rules := Cached(cache, topic);
    ghost var all := At(topic, rules);
    assert all[0..] == all;
    for i := 0 to |rules|
      invariant FirstBad(all, eval) == FirstBad(all[i..], eval)
    {
      assert all[i..][0] == (topic, rules[i]) && all[i..][1..] == all[i + 1..];
      match eval(rules[i])
      case Pass =>
      case Fail => return Violates(topic, rules[i]);
      case Broken => return CannotTell(topic, rules[i]);
    }
    r := Valid;
  }

  /** What the cache has along a topic path, in the order it is asked. */
  function CachedNode(cache: Cache, n: Node, prefix: string, segs: seq<string>): seq<(string, Rule)>
    decreases |segs|
  {
    if segs == [] || n.Nil? || Lower(segs[0]) !in n.children then []
    else
      var topic := prefix + ("/" + Lower(segs[0]));
      At(topic, Cached(cache, topic)) + CachedNode(cache, n.children[Lower(segs[0])], topic, segs[1..])
  }

  function CachedAlong(cache: Cache, o: Ontology, segs: seq<string>): seq<(string, Rule)>
    requires segs != []
  {
    var top := Lower(segs[0]);
    At(ROOT, Cached(cache, ROOT))
    + if top in o.topics then At(top, Cached(cache, top)) + CachedNode(cache, o.topics[top], top, segs[1..]) else []
  }

  /** Keys a topic path can lead through. */
  ghost predicate Walkable(keys: seq<string>) {
    keys != [] && NoSlash(keys) && forall i :: 0 <= i < |keys| ==> Lower(keys[i]) == keys[i]
  }

  /** The root, and every node a topic path can lead to, has its own rules cached. */
  ghost predicate Serves(cache: Cache, o: Ontology) {
    Cached(cache, ROOT) == o.rules &&
    forall keys :: Walkable(keys) && NodeAt(o, keys).Some? ==> Cached(cache, Join(keys)) == RulesOf(NodeAt(o, keys).value)
  }

  // Validating runs what the cache has along the path and reports the first failure; and where the
  // cache serves every node a path can lead to, that is what a walk of the tree runs.
  method ValidateFact(o: Ontology, cache: Cache, topicPath: string, eval: Rule -> Verdict) returns (r: Outcome)
    ensures r == FirstBad(CachedAlong(cache, o, Split(topicPath)), eval)
    ensures Serves(cache, o) || Answers(cache, o) ==> r == FirstBad(Along(o, Split(topicPath)), eval)
  {
    hide CachedAlong, Along, At, Lower, Answers, Serves, Cached, RulesOf;
    var parts := Split(topicPath);
    if Answers(cache, o) {
      AnswersServes(cache, o);
    }
    if Serves(cache, o) {
      SplitNoSlash(topicPath);
      CachedIsWalk(cache, o, parts);
    }
    CachedStarts(cache, o, parts, eval);
    ghost var want := FirstBad(CachedAlong(cache, o, parts), eval);
    r := RunRulesCached(cache, ROOT, eval);
    var top := Lower(parts[0]);
    if !r.Valid? || top !in o.topics { return; }
    var node := o.topics[top];
    r := RunRulesCached(cache, top, eval);
    if !r.Valid? { return; }
    var prefix := top;
    for i := 1 to |parts|
      invariant r.Valid? && want == FirstBad(CachedNode(cache, node, prefix, parts[i..]), eval)
    {
      if node.Nil? || Lower(parts[i]) !in node.children { return; }
      CachedStep(cache, node, prefix, parts[i..], eval);
      assert parts[i..][1..] == parts[i + 1..];
      prefix := prefix + ("/" + Lower(parts[i]));
      r := RunRulesCached(cache, prefix, eval);
      if !r.Valid? { return; }
      node := node.children[Lower(parts[i])];
    }
  }

  lemma CachedStarts(cache: Cache, o: Ontology, parts: seq<string>, eval: Rule -> Verdict)
    requires parts != []
    ensures var top := Lower(parts[0]);
            var root := FirstBad(At(ROOT, Cached(cache, ROOT)), eval);
            FirstBad(CachedAlong(cache, o, parts), eval)
            == if !root.Valid? || top !in o.topics then root
               else if !FirstBad(At(top, Cached(cache, top)), eval).Valid? then FirstBad(At(top, Cached(cache, top)), eval)
               else FirstBad(CachedNode(cache, o.topics[top], top, parts[1..]), eval)
  {
    var top := Lower(parts[0]);
    if top in o.topics {
      FirstBadJoin(At(top, Cached(cache, top)), CachedNode(cache, o.topics[top], top, parts[1..]), eval);
      FirstBadJoin(At(ROOT, Cached(cache, ROOT)), At(top, Cached(cache, top)) + CachedNode(cache, o.topics[top], top, parts[1..]), eval);
    } else {
      FirstBadJoin(At(ROOT, Cached(cache, ROOT)), [], eval);
    }
  }

  lemma CachedStep(cache: Cache, node: Node, prefix: string, segs: seq<string>, eval: Rule -> Verdict)
    requires segs != [] && node.Node? && Lower(segs[0]) in node.children
    ensures var topic := prefix + ("/" + Lower(segs[0]));
            FirstBad(CachedNode(cache, node, prefix, segs), eval)
            == if FirstBad(At(topic, Cached(cache, topic)), eval).Valid?
               then FirstBad(CachedNode(cache, node.children[Lower(segs[0])], topic, segs[1..]), eval)
               else FirstBad(At(topic, Cached(cache, topic)), eval)
  {
    var topic := prefix + ("/" + Lower(segs[0]));
    FirstBadJoin(At(topic, Cached(cache, topic)), CachedNode(cache, node.children[Lower(segs[0])], topic, segs[1..]), eval);
  }

  lemma AnswersServes(cache: Cache, o: Ontology)
    requires Answers(cache, o)
    ensures Serves(cache, o)
  {
    hide RulesOf, NodeAt, Join;
    assert Site(o, ROOT, o.rules);
    forall keys | Walkable(keys) && NodeAt(o, keys).Some? ensures Cached(cache, Join(keys)) == RulesOf(NodeAt(o, keys).value) {
      assert SiteBy(o, keys, Join(keys), RulesOf(NodeAt(o, keys).value));
      assert Site(o, Join(keys), RulesOf(NodeAt(o, keys).value));
    }
  }

  lemma {:induction false} SplitNoSlash(s: string)
    ensures NoSlash(Split(s))
    decreases |s|
  {
    var i := First(s, '/');
    if i < |s| {
      SplitNoSlash(s[i + 1..]);
      var rest := Split(s[i + 1..]);
      assert Split(s) == [s[..i]] + rest;
      assert forall k :: 1 <= k < |Split(s)| ==> Split(s)[k] == rest[k - 1];
    }
  }

  lemma CachedIsWalk(cache: Cache, o: Ontology, segs: seq<string>)
    requires Serves(cache, o) && segs != [] && NoSlash(segs)
    ensures CachedAlong(cache, o, segs) == Along(o, segs)
  {
    var top := Lower(segs[0]);
    if top in o.topics {
      LowerTwice(segs[0]);
      LowerNoSlash(segs[0]);
      assert [top][1..] == [] && Walkable([top]) && NodeAt(o, [top]) == Some(o.topics[top]);
      assert Cached(cache, Join([top])) == RulesOf(o.topics[top]);
      assert forall i :: 0 <= i < |segs| - 1 ==> segs[1..][i] == segs[i + 1];
      CachedBelow(cache, o, [top], o.topics[top], top, segs[1..]);
    }
  }

  lemma LowerNoSlash(s: string)
    requires '/' !in s
    ensures '/' !in Lower(s)
  {
  }

  lemma {:induction false} CachedBelow(cache: Cache, o: Ontology, keys: seq<string>, n: Node, prefix: string, segs: seq<string>)
    requires Serves(cache, o) && Walkable(keys) && NodeAt(o, keys) == Some(n) && prefix == Join(keys) && NoSlash(segs)
    ensures CachedNode(cache, n, prefix, segs) == AlongNode(n, prefix, segs)
    decreases |segs|
  {
    if segs != [] && n.Node? && Lower(segs[0]) in n.children {
      var key := Lower(segs[0]);
      StepDown(o, keys, n, key);
      LowerTwice(segs[0]);
      LowerNoSlash(segs[0]);
      assert Walkable(keys + [key]);
      assert forall i :: 0 <= i < |segs| - 1 ==> segs[1..][i] == segs[i + 1];
      CachedBelow(cache, o, keys + [key], n.children[key], prefix + ("/" + key), segs[1..]);
    }
  }

  lemma StepDown(o: Ontology, keys: seq<string>, n: Node, key: string)
    requires keys != [] && NodeAt(o, keys) == Some(n) && n.Node? && key in n.children
    ensures NodeAt(o, keys + [key]) == Some(n.children[key]) && Join(keys + [key]) == Join(keys) + ("/" + key)
  {
    var deep := keys + [key];
    assert deep[..|keys|] == keys && deep[0] == keys[0] && deep[1..] == keys[1..] + [key];
    BelowOne(o.topics[keys[0]], keys[1..], key);
  }

  /** What the cache has along every topic path is what the tree has. */
  ghost predicate WalksAlike(cache: Cache, o: Ontology) {
    forall topicPath :: CachedAlong(cache, o, Split(topicPath)) == Along(o, Split(topicPath))
  }

  // The condition is exact: the cached walk is the tree's on every topic path if and only if every node
  // a path can lead to has its own rules cached.
  lemma ServesExactly(cache: Cache, o: Ontology)
    requires Admitted(o)
    ensures WalksAlike(cache, o) <==> Serves(cache, o)
  {
    hide CachedAlong, Along, Serves;
    if Serves(cache, o) {
      forall topicPath ensures CachedAlong(cache, o, Split(topicPath)) == Along(o, Split(topicPath)) {
        SplitNoSlash(topicPath);
        CachedIsWalk(cache, o, Split(topicPath));
      }
    }
    if WalksAlike(cache, o) {
      WalksServe(cache, o);
    }
  }

  lemma WalksServe(cache: Cache, o: Ontology)
    requires Admitted(o) && WalksAlike(cache, o)
    ensures Serves(cache, o)
  {
    assert Split("") == [""] && Lower("") == "" && "" !in o.topics;
    assert CachedAlong(cache, o, Split("")) == Along(o, Split(""));
    assert At(ROOT, Cached(cache, ROOT)) + [] == At(ROOT, Cached(cache, ROOT)) && At(ROOT, o.rules) + [] == At(ROOT, o.rules);
    AtInjective(ROOT, Cached(cache, ROOT), o.rules);
    hide Along, CachedAlong;
    forall keys | Walkable(keys) && NodeAt(o, keys).Some? ensures Cached(cache, Join(keys)) == RulesOf(NodeAt(o, keys).value) {
      SplitJoin(keys);
      assert CachedAlong(cache, o, Split(Join(keys))) == Along(o, Split(Join(keys)));
      if |keys| > 1 {
        var init := keys[..|keys| - 1];
        InitWalkable(o, keys);
        SplitJoin(init);
        assert CachedAlong(cache, o, Split(Join(init))) == Along(o, Split(Join(init)));
      }
      LastBlock(cache, o, keys);
      AtInjective(Join(keys), Cached(cache, Join(keys)), RulesOf(NodeAt(o, keys).value));
    }
  }

  lemma AtInjective(topic: string, a: seq<Rule>, b: seq<Rule>)
    ensures At(topic, a) == At(topic, b) ==> a == b
  {
    if At(topic, a) == At(topic, b) {
      assert |a| == |At(topic, a)| == |b|;
      forall i | 0 <= i < |a| ensures a[i] == b[i] {
        assert At(topic, a)[i] == (topic, a[i]) && At(topic, b)[i] == (topic, b[i]);
      }
    }
  }

  lemma InitWalkable(o: Ontology, keys: seq<string>)
    requires Walkable(keys) && NodeAt(o, keys).Some? && |keys| > 1
    ensures var init := keys[..|keys| - 1];
      Walkable(init) && NodeAt(o, init).Some? && NodeAt(o, init).value.Node? && keys[|keys| - 1] in NodeAt(o, init).value.children
  {
    var init := keys[..|keys| - 1];
    assert init[0] == keys[0] && init[1..] == keys[1..][..|keys| - 2];
    BelowInit(o.topics[keys[0]], keys[1..]);
  }

  lemma {:induction false} BelowInit(n: Node, keys: seq<string>)
    requires keys != [] && Below(n, keys).Some?
    ensures var init := keys[..|keys| - 1];
      Below(n, init).Some? && Below(n, init).value.Node? && keys[|keys| - 1] in Below(n, init).value.children
    decreases |keys|
  {
    if |keys| > 1 {
      var init := keys[..|keys| - 1];
      assert init[0] == keys[0] && init[1..] == keys[1..][..|keys| - 2];
      BelowInit(n.children[keys[0]], keys[1..]);
    }
  }

  lemma {:induction false} SplitJoin(keys: seq<string>)
    requires keys != [] && NoSlash(keys)
    ensures Split(Join(keys)) == keys
    decreases |keys|
  {
    if |keys| == 1 {
      SplitOne(keys[0]);
      assert keys == [keys[0]];
    } else {
      hide Split;
      var init, last := keys[..|keys| - 1], keys[|keys| - 1];
      assert keys == init + [last];
      SplitJoin(init);
      SplitMore(Join(init), last);
    }
  }

  lemma SplitOne(key: string)
    requires '/' !in key
    ensures Split(key) == [key]
  {
    NoFirst(key, '/');
  }

  lemma {:induction false} SplitMore(s: string, last: string)
    requires '/' !in last
    ensures Split(s + ("/" + last)) == Split(s) + [last]
    decreases |s|
  {
    var i := First(s, '/');
    if i == |s| {
      NoFirst(last, '/');
      SplitAt(s, last);
    } else {
      var rest := s[i + 1..];
      assert s == s[..i] + ("/" + rest);
      SplitMore(rest, last);
      SplitHead(s[..i], rest, last);
    }
  }

  lemma SplitHead(head: string, rest: string, last: string)
    requires '/' !in head && Split(rest + ("/" + last)) == Split(rest) + [last]
    ensures var s := head + ("/" + rest); Split(s + ("/" + last)) == Split(s) + [last]
  {
    hide Split;
    var s := head + ("/" + rest);
    assert s + ("/" + last) == head + ("/" + (rest + ("/" + last)));
    SplitAt(head, rest);
    SplitAt(head, rest + ("/" + last));
    assert [head] + (Split(rest) + [last]) == [head] + Split(rest) + [last];
  }

  lemma SplitAt(head: string, rest: string)
    requires '/' !in head
    ensures Split(head + ("/" + rest)) == [head] + Split(rest)
  {
    var t := head + ("/" + rest);
    assert t[..|head|] == head && t[|head|] == '/' && t[|head| + 1..] == rest;
    FirstIs(t, '/', |head|);
  }

  // A walk to a node is the walk to its parent, then the node's own block.
  lemma LastBlock(cache: Cache, o: Ontology, keys: seq<string>)
    requires Walkable(keys) && NodeAt(o, keys).Some? && CachedAlong(cache, o, keys) == Along(o, keys)
    requires Cached(cache, ROOT) == o.rules
    requires |keys| > 1 ==> CachedAlong(cache, o, keys[..|keys| - 1]) == Along(o, keys[..|keys| - 1])
    ensures At(Join(keys), Cached(cache, Join(keys))) == At(Join(keys), RulesOf(NodeAt(o, keys).value))
  {
    if |keys| == 1 {
      assert keys == [keys[0]] && keys[1..] == [];
      var root := At(ROOT, o.rules);
      var a, b := At(keys[0], Cached(cache, keys[0])), At(keys[0], RulesOf(o.topics[keys[0]]));
      assert CachedAlong(cache, o, keys) == root + a && Along(o, keys) == root + b;
      assert (root + a)[|root|..] == a && (root + b)[|root|..] == b;
    } else {
      var init := keys[..|keys| - 1];
      var topic := Join(keys);
      var a, b := At(topic, Cached(cache, topic)), At(topic, RulesOf(NodeAt(o, keys).value));
      AlongGrows(cache, o, keys);
      var c := Along(o, init);
      assert (c + a)[|c|..] == a && (c + b)[|c|..] == b;
    }
  }

  lemma AlongGrows(cache: Cache, o: Ontology, keys: seq<string>)
    requires Walkable(keys) && |keys| > 1 && NodeAt(o, keys).Some?
    ensures var init := keys[..|keys| - 1];
      CachedAlong(cache, o, keys) == CachedAlong(cache, o, init) + At(Join(keys), Cached(cache, Join(keys))) &&
      Along(o, keys) == Along(o, init) + At(Join(keys), RulesOf(NodeAt(o, keys).value))
  {
    hide At, Cached, RulesOf, Lower;
    var top, init := keys[0], keys[..|keys| - 1];
    assert init[0] == top && init[1..] == keys[1..][..|keys| - 2];
    assert forall i :: 0 <= i < |keys| - 1 ==> keys[1..][i] == keys[i + 1];
    assert [top] + keys[1..] == keys;
    NodeGrows(cache, o.topics[top], top, [top], keys[1..]);
    hide CachedNode, AlongNode, Below;
    assert Lower(top) == top;
  }

  lemma {:induction false} NodeGrows(cache: Cache, n: Node, prefix: string, path: seq<string>, keys: seq<string>)
    requires keys != [] && Below(n, keys).Some? && path != [] && prefix == Join(path)
    requires forall i :: 0 <= i < |keys| ==> Lower(keys[i]) == keys[i]
    ensures var init, topic := keys[..|keys| - 1], Join(path + keys);
      CachedNode(cache, n, prefix, keys) == CachedNode(cache, n, prefix, init) + At(topic, Cached(cache, topic)) &&
      AlongNode(n, prefix, keys) == AlongNode(n, prefix, init) + At(topic, RulesOf(Below(n, keys).value))
    decreases |keys|
  {
    var key, rest := keys[0], keys[1..];
    var topic := prefix + ("/" + key);
    assert (path + [key])[..|path|] == path && Join(path + [key]) == topic;
    assert keys == [key] + rest;
    hide At, Cached, RulesOf, Lower, Join, CachedNode, AlongNode;
    NodeUnfolds(cache, n, prefix, key, rest);
    var child := n.children[key];
    if |keys| == 1 {
      NoneUnder(cache, child, topic);
      NoneUnder(cache, n, prefix);
      assert keys == [key] && rest == [] && keys[..|keys| - 1] == [];
    } else {
      var init, last := rest[..|rest| - 1], Join(path + keys);
      assert keys[..|keys| - 1] == [key] + init;
      NodeUnfolds(cache, n, prefix, key, init);
      assert path + [key] + rest == path + keys;
      NodeGrows(cache, child, topic, path + [key], rest);
      Regroup(At(topic, Cached(cache, topic)), CachedNode(cache, child, topic, init), At(last, Cached(cache, last)));
      Regroup(At(topic, RulesOf(child)), AlongNode(child, topic, init), At(last, RulesOf(Below(n, keys).value)));
    }
  }

  lemma Regroup<T>(a: seq<T>, b: seq<T>, c: seq<T>)
    ensures a + (b + c) == a + b + c
  {
  }

  lemma NodeUnfolds(cache: Cache, n: Node, prefix: string, key: string, rest: seq<string>)
    requires n.Node? && key in n.children && Lower(key) == key
    ensures var topic := prefix + ("/" + key);
      CachedNode(cache, n, prefix, [key] + rest) == At(topic, Cached(cache, topic)) + CachedNode(cache, n.children[key], topic, rest) &&
      AlongNode(n, prefix, [key] + rest) == At(topic, RulesOf(n.children[key])) + AlongNode(n.children[key], topic, rest)
  {
    assert ([key] + rest)[1..] == rest;
  }

  lemma NoneUnder(cache: Cache, n: Node, prefix: string)
    ensures CachedNode(cache, n, prefix, []) == [] && AlongNode(n, prefix, []) == []
  {
  }

  lemma {:induction false} BelowOne(n: Node, keys: seq<string>, k: string)
    requires Below(n, keys).Some? && Below(n, keys).value.Node? && k in Below(n, keys).value.children
    ensures Below(n, keys + [k]) == Some(Below(n, keys).value.children[k])
    decreases |keys|
  {
    if keys == [] {
      assert (keys + [k])[0] == k && (keys + [k])[1..] == [];
    } else {
      assert (keys + [k])[0] == keys[0] && (keys + [k])[1..] == keys[1..] + [k];
      BelowOne(n.children[keys[0]], keys[1..], k);
    }
  }

  /** a > b > { c > d with rule r, "c/d" with rule s }. */
  function SlashedOntology(r: Rule, s: Rule): Ontology {
    Ontology([], map["a" := Node([], map["b" := SlashedNode(r, s)])])
  }

  function SlashedNode(r: Rule, s: Rule): Node {
    Node([], map["c" := Node([], map["d" := Node([r], map[])]), "c/d" := Node([s], map[])])
  }

  // The parser admits a slash below the second level, where two nodes can then want the same place in
  // the cache and none answers for both.
  lemma SlashKeysCollide(r: Rule, s: Rule)
    requires r != s
    ensures Admitted(SlashedOntology(r, s)) && !NoClash(SlashedOntology(r, s))
    ensures forall cache :: !Answers(cache, SlashedOntology(r, s))
  {
    var o := SlashedOntology(r, s);
    SlashedPaths(r, s);
    assert [r] != [s] by { assert [r][0] != [s][0]; }
    assert Site(o, "a/b/c/d", [r]) && Site(o, "a/b/c/d", [s]);
    forall cache ensures !Answers(cache, o) {
      ClashUnanswered(o, cache);
    }
  }

  // There the cache may hold the unreachable node's rules, and validation miss a failure or report one
  // that is not there.
  lemma SlashMisvalidates(r: Rule, s: Rule, eval: Rule -> Verdict)
    requires r != s && eval(r) != Pass && eval(s) == Pass
    ensures var o, cache := SlashedOntology(r, s), map["a/b/c/d" := [s]];
      BuiltFrom(cache, o) &&
      FirstBad(CachedAlong(cache, o, ["a", "b", "c", "d"]), eval) == Valid &&
      FirstBad(Along(o, ["a", "b", "c", "d"]), eval) != Valid
  {
    var o, cache := SlashedOntology(r, s), map["a/b/c/d" := [s]];
    SlashedPaths(r, s);
    SlashedSites(r, s);
    SlashedWalk(r, s);
    assert FirstBad([("a/b/c/d", s)], eval) == Valid by { assert [("a/b/c/d", s)][1..] == []; }
  }

  lemma SlashedSites(r: Rule, s: Rule)
    ensures BuiltFrom(map["a/b/c/d" := [s]], SlashedOntology(r, s))
  {
    var o := SlashedOntology(r, s);
    SlashedPaths(r, s);
    assert Site(o, "a/b/c/d", [s]);
    forall t, rules | Site(o, t, rules) && rules != [] ensures t == "a/b/c/d" {
      if keys :| SiteBy(o, keys, t, rules) {
        SlashedNodes(r, s, keys);
      }
    }
  }

  // Only two nodes of it have rules.
  lemma SlashedNodes(r: Rule, s: Rule, keys: seq<string>)
    requires keys != [] && NodeAt(SlashedOntology(r, s), keys).Some? && RulesOf(NodeAt(SlashedOntology(r, s), keys).value) != []
    ensures Join(keys) == "a/b/c/d"
  {
    SlashedPaths(r, s);
    var o := SlashedOntology(r, s);
    assert keys[0] == "a";
    var k1 := keys[1..];
    assert k1 != [] && k1[0] == "b";
    var k2 := k1[1..];
    assert Below(SlashedNode(r, s), k2) == NodeAt(o, keys);
    assert k2 != [];
    var b := SlashedNode(r, s);
    assert Below(b, k2) == Below(b.children[k2[0]], k2[1..]);
    if k2[0] == "c/d" {
      assert b.children["c/d"] == Node([s], map[]);
      assert k2[1..] == [];
      assert keys == ["a", "b", "c/d"];
    } else {
      assert k2[0] == "c";
      var k3 := k2[1..];
      assert b.children["c"] == Node([], map["d" := Node([r], map[])]);
      assert k3 != [];
      assert k3[0] == "d";
      assert Below(b.children["c"], k3) == Below(Node([r], map[]), k3[1..]);
      assert k3[1..] == [];
      assert keys == ["a", "b", "c", "d"];
    }
  }

  lemma SlashedWalk(r: Rule, s: Rule)
    ensures CachedAlong(map["a/b/c/d" := [s]], SlashedOntology(r, s), ["a", "b", "c", "d"]) == [("a/b/c/d", s)]
    ensures Along(SlashedOntology(r, s), ["a", "b", "c", "d"]) == [("a/b/c/d", r)]
  {
    var o, cache := SlashedOntology(r, s), map["a/b/c/d" := [s]];
    var segs := ["a", "b", "c", "d"];
    assert segs[1..] == ["b", "c", "d"] && ["b", "c", "d"][1..] == ["c", "d"] && ["c", "d"][1..] == ["d"] && ["d"][1..] == [];
    assert Lower("a") == "a" && Lower("b") == "b" && Lower("c") == "c" && Lower("d") == "d";
    var a := o.topics["a"];
    var b := a.children["b"];
    var c := b.children["c"];
    assert "a" + ("/" + "b") == "a/b" && "a/b" + ("/" + "c") == "a/b/c" && "a/b/c" + ("/" + "d") == "a/b/c/d";
    assert At("a/b/c/d", [s]) == [("a/b/c/d", s)] && At("a/b/c/d", [r]) == [("a/b/c/d", r)];
    assert Cached(cache, ROOT) == [] && Cached(cache, "a") == [] && Cached(cache, "a/b") == [] && Cached(cache, "a/b/c") == [];
    assert CachedNode(cache, c, "a/b/c", ["d"]) == [("a/b/c/d", s)] && AlongNode(c, "a/b/c", ["d"]) == [("a/b/c/d", r)];
    assert CachedNode(cache, b, "a/b", ["c", "d"]) == [("a/b/c/d", s)] && AlongNode(b, "a/b", ["c", "d"]) == [("a/b/c/d", r)];
    assert CachedNode(cache, a, "a", ["b", "c", "d"]) == [("a/b/c/d", s)] && AlongNode(a, "a", ["b", "c", "d"]) == [("a/b/c/d", r)];
  }

  lemma SlashedPaths(r: Rule, s: Rule)
    ensures SiteBy(SlashedOntology(r, s), ["a", "b", "c", "d"], "a/b/c/d", [r])
    ensures SiteBy(SlashedOntology(r, s), ["a", "b", "c/d"], "a/b/c/d", [s])
  {
    var o, b := SlashedOntology(r, s), SlashedNode(r, s);
    var x, y := ["a", "b", "c", "d"], ["a", "b", "c/d"];
    assert x[1..] == ["b", "c", "d"] && ["b", "c", "d"][1..] == ["c", "d"] && ["c", "d"][1..] == ["d"] && ["d"][1..] == [];
    assert y[1..] == ["b", "c/d"] && ["b", "c/d"][1..] == ["c/d"] && ["c/d"][1..] == [];
    assert "c" != "c/d" by { assert |"c"| != |"c/d"|; }
    assert Below(b.children["c"], ["d"]) == Below(b.children["c"].children["d"], []);
    assert Below(b, ["c", "d"]) == Below(b.children["c"], ["d"]) && Below(b, ["c/d"]) == Below(b.children["c/d"], []);
    assert NodeAt(o, x) == Below(o.topics["a"], ["b", "c", "d"]) == Below(b, ["c", "d"]);
    assert NodeAt(o, y) == Below(o.topics["a"], ["b", "c/d"]) == Below(b, ["c/d"]);
    assert x[..3] == ["a", "b", "c"] && ["a", "b", "c"][..2] == ["a", "b"] && ["a", "b"][..1] == ["a"] && y[..2] == ["a", "b"];
    assert Join(["a", "b"]) == "a" + ("/" + "b") == "a/b";
    assert Join(["a", "b", "c"]) == "a/b" + ("/" + "c") == "a/b/c";
    assert Join(x) == "a/b/c" + ("/" + "d") == "a/b/c/d";
    assert Join(y) == "a/b" + ("/" + "c/d") == "a/b/c/d";
  }

  // ---------- subsets ----------

  predicate RulesSubset(a: seq<Rule>, b: seq<Rule>) {
    forall r :: r in a ==> exists q :: q in b && q.name == r.name
  }

  predicate NodeIsSubset(n: Node, other: Node)
    decreases n
  {
    n.Nil?
    || (other.Node? && RulesSubset(n.rules, other.rules)
        && forall k :: k in n.children ==> k in other.children && NodeIsSubset(n.children[k], other.children[k]))
  }

  predicate IsSubsetOf(o: Ontology, other: Ontology) {
    RulesSubset(o.rules, other.rules)
    && forall k :: k in o.topics ==> k in other.topics && NodeIsSubset(o.topics[k], other.topics[k])
  }

  /** Every rule name of n is one of the other node's, which has a body if n has one. */
  ghost predicate NamesWithin(n: Node, other: Node) {
    n.Node? ==> other.Node? && forall r :: r in n.rules ==> exists q :: q in other.rules && q.name == r.name
  }

  ghost predicate WithinAt(n: Option<Node>, other: Option<Node>) {
    n.Some? ==> other.Some? && NamesWithin(n.value, other.value)
  }

  lemma {:induction false} SubsetBelow(n: Node, other: Node, keys: seq<string>)
    requires NodeIsSubset(n, other)
    ensures WithinAt(Below(n, keys), Below(other, keys))
    decreases |keys|
  {
    if keys != [] && n.Node? && keys[0] in n.children {
      SubsetBelow(n.children[keys[0]], other.children[keys[0]], keys[1..]);
    }
  }

  lemma {:induction false} BelowSubset(n: Node, other: Node)
    requires forall keys :: WithinAt(Below(n, keys), Below(other, keys))
    ensures NodeIsSubset(n, other)
    decreases n
  {
    assert WithinAt(Below(n, []), Below(other, []));
    if n.Node? {
      forall k | k in n.children ensures k in other.children && NodeIsSubset(n.children[k], other.children[k]) {
        ChildWithin(n, other, k);
        BelowSubset(n.children[k], other.children[k]);
      }
    }
  }

  lemma BelowChild(n: Node, k: string, keys: seq<string>)
    ensures Below(n, [k] + keys) == if n.Node? && k in n.children then Below(n.children[k], keys) else None
  {
    assert ([k] + keys)[1..] == keys;
  }

  lemma TopWithin(n: Node, other: Node, k: string)
    requires n.Node? && k in n.children && WithinAt(Below(n, [k]), Below(other, [k]))
    ensures other.Node? && k in other.children
  {
    hide NamesWithin;
    assert [k] + [] == [k];
    BelowChild(n, k, []);
    BelowChild(other, k, []);
  }

  lemma ChildWithin(n: Node, other: Node, k: string)
    requires n.Node? && k in n.children && forall keys :: WithinAt(Below(n, keys), Below(other, keys))
    ensures other.Node? && k in other.children
    ensures forall keys :: WithinAt(Below(n.children[k], keys), Below(other.children[k], keys))
  {
    hide NamesWithin;
    TopWithin(n, other, k);
    hide Below;
    forall keys ensures WithinAt(Below(n.children[k], keys), Below(other.children[k], keys)) {
      BelowChild(n, k, keys);
      BelowChild(other, k, keys);
      assert WithinAt(Below(n, [k] + keys), Below(other, [k] + keys));
    }
  }

  // An ontology is a subset if and only if, at the root and at every node of it, each rule's name is
  // that of a rule of the preset there: only names count.
  lemma SubsetExactly(o: Ontology, other: Ontology)
    ensures IsSubsetOf(o, other) <==>
      (forall r :: r in o.rules ==> exists q :: q in other.rules && q.name == r.name)
      && forall keys :: WithinAt(NodeAt(o, keys), NodeAt(other, keys))
  {
    if IsSubsetOf(o, other) {
      forall keys ensures WithinAt(NodeAt(o, keys), NodeAt(other, keys)) {
        if keys != [] && keys[0] in o.topics {
          SubsetBelow(o.topics[keys[0]], other.topics[keys[0]], keys[1..]);
        }
      }
    }
    if forall keys :: WithinAt(NodeAt(o, keys), NodeAt(other, keys)) {
      forall k | k in o.topics ensures k in other.topics && NodeIsSubset(o.topics[k], other.topics[k]) {
        TopicWithin(o, other, k);
      }
    }
  }

  lemma TopicWithin(o: Ontology, other: Ontology, k: string)
    requires k in o.topics && forall keys :: WithinAt(NodeAt(o, keys), NodeAt(other, keys))
    ensures k in other.topics && NodeIsSubset(o.topics[k], other.topics[k])
  {
    assert [k][1..] == [];
    assert WithinAt(NodeAt(o, [k]), NodeAt(other, [k]));
    forall keys ensures WithinAt(Below(o.topics[k], keys), Below(other.topics[k], keys)) {
      assert ([k] + keys)[1..] == keys;
      assert WithinAt(NodeAt(o, [k] + keys), NodeAt(other, [k] + keys));
    }
    BelowSubset(o.topics[k], other.topics[k]);
  }

  ghost predicate Applies(rules: seq<(string, Rule)>, name: string) {
    exists i :: 0 <= i < |rules| && rules[i].1.name == name
  }

  lemma AppliesJoin(a: seq<(string, Rule)>, b: seq<(string, Rule)>, name: string)
    ensures Applies(a + b, name) <==> Applies(a, name) || Applies(b, name)
  {
    var ab := a + b;
    if i :| 0 <= i < |a| && a[i].1.name == name { assert ab[i].1.name == name; }
    if i :| 0 <= i < |b| && b[i].1.name == name { assert ab[|a| + i].1.name == name; }
    if i :| 0 <= i < |ab| && ab[i].1.name == name {
      if i < |a| { assert a[i].1.name == name; } else { assert b[i - |a|].1.name == name; }
    }
  }

  lemma AppliesAt(topic: string, rules: seq<Rule>, name: string)
    ensures Applies(At(topic, rules), name) <==> exists r :: r in rules && r.name == name
  {
    var at := At(topic, rules);
    if i :| 0 <= i < |at| && at[i].1.name == name { assert rules[i] in rules; }
    if r :| r in rules && r.name == name {
      var i :| 0 <= i < |rules| && rules[i] == r;
      assert at[i].1.name == name;
    }
  }

  lemma {:induction false} NodeSubsetApplies(n: Node, other: Node, prefix: string, segs: seq<string>, name: string)
    requires NodeIsSubset(n, other) && Applies(AlongNode(n, prefix, segs), name)
    ensures Applies(AlongNode(other, prefix, segs), name)
    decreases |segs|
  {
    var key := Lower(segs[0]);
    var topic := prefix + ("/" + key);
    var c, d := n.children[key], other.children[key];
    AppliesJoin(At(topic, RulesOf(c)), AlongNode(c, topic, segs[1..]), name);
    AppliesJoin(At(topic, RulesOf(d)), AlongNode(d, topic, segs[1..]), name);
    AppliesAt(topic, RulesOf(c), name);
    AppliesAt(topic, RulesOf(d), name);
    if Applies(AlongNode(c, topic, segs[1..]), name) {
      NodeSubsetApplies(c, d, topic, segs[1..], name);
    }
  }

  // Every rule a subset applies along a topic path, the preset applies there too, by name.
  lemma SubsetApplies(o: Ontology, other: Ontology, segs: seq<string>, name: string)
    requires IsSubsetOf(o, other) && segs != [] && Applies(Along(o, segs), name)
    ensures Applies(Along(other, segs), name)
  {
    var top := Lower(segs[0]);
    AppliesAt(ROOT, o.rules, name);
    AppliesAt(ROOT, other.rules, name);
    AlongApplies(o, segs, name);
    AlongApplies(other, segs, name);
    if top in o.topics {
      AppliesAt(top, RulesOf(o.topics[top]), name);
      AppliesAt(top, RulesOf(other.topics[top]), name);
      if Applies(AlongNode(o.topics[top], top, segs[1..]), name) {
        NodeSubsetApplies(o.topics[top], other.topics[top], top, segs[1..], name);
      }
    }
  }

  lemma AlongApplies(o: Ontology, segs: seq<string>, name: string)
    requires segs != []
    ensures var top := Lower(segs[0]);
            Applies(Along(o, segs), name) <==>
              || Applies(At(ROOT, o.rules), name)
              || (top in o.topics && (Applies(At(top, RulesOf(o.topics[top])), name) || Applies(AlongNode(o.topics[top], top, segs[1..]), name)))
  {
    var top := Lower(segs[0]);
    if top in o.topics {
      AppliesJoin(At(top, RulesOf(o.topics[top])), AlongNode(o.topics[top], top, segs[1..]), name);
      AppliesJoin(At(ROOT, o.rules), At(top, RulesOf(o.topics[top])) + AlongNode(o.topics[top], top, segs[1..]), name);
    } else {
      AppliesJoin(At(ROOT, o.rules), [], name);
    }
  }
}
