/**
 The one-shot conversion of a legacy home (cmd/migrate_registry.go). A legacy repository is a file
 named after it, and its remote connection lives only in that file; afterwards the file is named
 after a uid and the connection lives only in the registry. Opening a database at the new schema
 destroys its copy of the connection, a rename can bury another file, and the process may die
 between any two writes.

 A `Home` is what survives a crash. The tool is a class whose `writes` field says how many more
 writes it gets, so a contract that holds for every value of it holds at every crash point.
*/
module Migration {
  import opened Wrappers
  import opened Sorting

  /** A row of a legacy database's `remotes` table. */
  datatype Remote = Remote(name: string, url: string, branch: string, auth: string, token: string)

  datatype Origin = Origin(url: string, branch: string, auth: string, token: string)

  /** repos/<name>.db, or repos/archive/<name>.db. */
  datatype Place = Repos(name: string) | Archive(name: string)

  /** A database file: some other thing, or a knowledge base, its root commit if that resolves, and the
      connection columns it still has. */
  datatype File = Stray | Base(id: nat, root: string, legacy: Option<seq<Remote>>)

  /** repos/archive/<file>.json. */
  datatype Manifest = Manifest(id: string, name: string)

  datatype Row = Row(name: string, archived: bool)

  datatype Home = Home(
    files: map<Place, File>,
    manifests: map<string, Manifest>,
    rows: map<string, Row>,
    origins: map<string, Origin>,
    legacyControl: bool)

  datatype Options = Options(force: bool, discard: bool)

  /** One repository of the plan. */
  datatype Entry = Entry(
    name: string, uid: string, archived: bool, src: Place, dst: Place,
    manifest: Option<string>, origin: Option<Origin>)

  datatype Refusal =
    | LooksMigrated
    | NamedAfterUid(name: string)
    | NamedAfterKsuid(name: string)
    | PastSchema(place: Place)
    | NoDatabase(uid: string)
    | NotABase(uid: string)
    | Orphan(name: string)
    | NothingToMigrate
    | Unbacked(uid: string)
    | SameIdentity(name: string, other: string)

  datatype Planned = Plan(entries: seq<Entry>) | Refused(why: Refusal)

  datatype Outcome = Done | Failed | Died

  /** Which renames, manifest removals and database openings fail, by position in the plan. */
  datatype Faults = Faults(rename: set<nat>, remove: set<nat>, open: set<nat>)

  // ---- the connection a legacy database holds ----

  function Connection(r: Remote): Origin {
    Origin(r.url, r.branch, r.auth, r.token)
  }

  /** The remote to carry across: the first called "origin" that has a url, else the first with a url. */
  ghost predicate Chosen(remotes: seq<Remote>, i: int) {
    0 <= i < |remotes| && remotes[i].url != "" &&
    if remotes[i].name == "origin" then
      forall j :: 0 <= j < i ==> remotes[j].url == "" || remotes[j].name != "origin"
    else
      forall j :: 0 <= j < |remotes| && remotes[j].url != "" ==> remotes[j].name != "origin" && i <= j
  }

  ghost function Selected(remotes: seq<Remote>): Option<Origin> {
    if i :| Chosen(remotes, i) then Some(Connection(remotes[i])) else None
  }

  method ReadLegacyOrigin(remotes: seq<Remote>) returns (found: Option<Origin>)
    ensures found == Selected(remotes)
    ensures found.None? <==> forall i :: 0 <= i < |remotes| ==> remotes[i].url == ""
    ensures found.Some? ==> exists i :: Chosen(remotes, i) && found.value == Connection(remotes[i])
  {
    found := None;
    ghost var first := 0;
    for i := 0 to |remotes|
      invariant forall j :: 0 <= j < i ==> remotes[j].url == "" || remotes[j].name != "origin"
      invariant found.None? ==> forall j :: 0 <= j < i ==> remotes[j].url == ""
      invariant found.Some? ==> 0 <= first < i && remotes[first].url != "" && found.value == Connection(remotes[first])
      invariant found.Some? ==> forall j :: 0 <= j < first ==> remotes[j].url == ""
    {
      if remotes[i].url == "" {
        continue;
      }
      if remotes[i].name == "origin" {
        assert Chosen(remotes, i);
        return Some(Connection(remotes[i]));
      }
      if found == None {
        found := Some(Connection(remotes[i]));
        first := i;
      }
    }
    if found.Some? {
      assert Chosen(remotes, first);
    }
  }

  /** What the registry records: a connection without a branch is to main. */
  function Recorded(o: Option<Origin>): Option<Origin> {
    if o.Some? && o.value.branch == "" then Some(o.value.(branch := "main")) else o
  }

  /** The registry holds, under uid, what the remotes of a database say: a connection exactly when some
      remote has a url, and then the chosen remote's, to main when it names no branch. */
  ghost predicate Carries(origins: map<string, Origin>, uid: string, remotes: seq<Remote>) {
    (uid in origins <==> exists i :: 0 <= i < |remotes| && remotes[i].url != "") &&
    forall i :: Chosen(remotes, i) && uid in origins ==>
      var o, r := origins[uid], remotes[i];
      o.url == r.url && o.auth == r.auth && o.token == r.token && o.branch == if r.branch == "" then "main" else r.branch
  }

  lemma {:induction false} OneChosen(remotes: seq<Remote>, i: int, j: int)
    requires Chosen(remotes, i) && Chosen(remotes, j)
    ensures i == j
  {
  }

  lemma SomeChosen(remotes: seq<Remote>)
    ensures (exists i :: Chosen(remotes, i)) <==> exists i :: 0 <= i < |remotes| && remotes[i].url != ""
  {
    if i :| 0 <= i < |remotes| && remotes[i].url != "" {
      var f := FirstWithUrl(remotes, i, false);
      if j :| 0 <= j < |remotes| && remotes[j].url != "" && remotes[j].name == "origin" {
        var g := FirstWithUrl(remotes, j, true);
        assert Chosen(remotes, g);
      } else {
        assert Chosen(remotes, f);
      }
    }
  }

  lemma {:induction false} FirstWithUrl(remotes: seq<Remote>, i: nat, named: bool) returns (f: nat)
    requires i < |remotes| && remotes[i].url != "" && (named ==> remotes[i].name == "origin")
    ensures f <= i && remotes[f].url != "" && (named ==> remotes[f].name == "origin")
    ensures forall j :: 0 <= j < f ==> remotes[j].url == "" || (named && remotes[j].name != "origin")
    decreases i
  {
    if j :| 0 <= j < i && remotes[j].url != "" && (named ==> remotes[j].name == "origin") {
      f := FirstWithUrl(remotes, j, named);
    } else {
      f := i;
    }
  }

  // What is recorded is what the remotes say.
  lemma RecordedCarries(origins: map<string, Origin>, uid: string, remotes: seq<Remote>)
    requires (if uid in origins then Some(origins[uid]) else None) == Recorded(Selected(remotes))
    ensures Carries(origins, uid, remotes)
  {
    SomeChosen(remotes);
    forall i, j | Chosen(remotes, i) && Chosen(remotes, j) ensures i == j {
      OneChosen(remotes, i, j);
    }
    hide Chosen;
  }

  // ---- the home ----

  function UidOf(file: string, m: Manifest): string {
    if m.id == "" then file else m.id
  }

  predicate Named(h: Home, uid: string) {
    exists m :: m in h.manifests && UidOf(m, h.manifests[m]) == uid
  }

  predicate Base62(c: char) {
    '0' <= c <= '9' || 'A' <= c <= 'Z' || 'a' <= c <= 'z'
  }

  function LastKsuid(): string { "aWgEPTl1tmebfsQzFP4bxwgy80V" }

  predicate IsKsuid(s: string) {
    |s| == 27 && (forall i :: 0 <= i < |s| ==> Base62(s[i])) && !Before(LastKsuid(), s)
  }

  predicate IsBase(h: Home, p: Place) {
    p in h.files && h.files[p].Base?
  }

  predicate IsLegacy(h: Home, p: Place) {
    IsBase(h, p) && h.files[p].legacy.Some?
  }

  function OriginOf(h: Home, uid: string): Option<Origin> {
    if uid in h.origins then Some(h.origins[uid]) else None
  }

  /** Where a registered repository's file was before the tool moved it. */
  function Former(rows: map<string, Row>, uid: string): Place
    requires uid in rows
  {
    if rows[uid].archived then Archive(uid) else Repos(rows[uid].name)
  }

  /** An identifier no one holds. */
  predicate Fresh(h: Home, uid: string) {
    IsKsuid(uid) && uid !in h.rows && Repos(uid) !in h.files && !Named(h, uid)
  }

  predicate MintedFresh(h: Home, minted: seq<string>) {
    |minted| >= |h.files| &&
    (forall i :: 0 <= i < |minted| ==> Fresh(h, minted[i])) &&
    (forall i, j :: 0 <= i < j < |minted| ==> minted[i] != minted[j])
  }

  /** Two bases grown from one root commit, as far as it resolves. */
  predicate SameRoot(h: Home, p: Place, q: Place)
    requires IsBase(h, p) && IsBase(h, q)
  {
    h.files[p].root != "" && h.files[p].root == h.files[q].root
  }

  // ---- what makes a home convertible ----

  /** Whether the files still back the row the registry holds for a uid. */
  ghost predicate Backed(h: Home, uid: string) {
    Named(h, uid) || (uid in h.rows && !h.rows[uid].archived && IsBase(h, Repos(h.rows[uid].name)))
  }

  ghost predicate Cause(h: Home, opts: Options, why: Refusal) {
    match why
    case LooksMigrated => h.rows != map[] && !opts.force
    case NamedAfterUid(name) => Repos(name) in h.files && name in h.rows
    case NamedAfterKsuid(name) => IsLegacy(h, Repos(name)) && IsKsuid(name)
    case PastSchema(place) => IsBase(h, place) && !IsLegacy(h, place) && (place.Archive? ==> Named(h, place.name))
    case NoDatabase(uid) => Named(h, uid) && Archive(uid) !in h.files
    case NotABase(uid) => Named(h, uid) && Archive(uid) in h.files && h.files[Archive(uid)].Stray?
    case Orphan(name) => Archive(name) in h.files && !Named(h, name)
    case NothingToMigrate => !h.legacyControl && forall p :: p in h.files ==> h.files[p].Stray?
    case Unbacked(uid) => !opts.discard && uid in h.origins && !Backed(h, uid)
    case SameIdentity(name, other) => name != other && IsLegacy(h, Repos(name)) && IsLegacy(h, Repos(other)) && h.files[Repos(name)].root != "" && h.files[Repos(name)].root == h.files[Repos(other)].root
  }

  ghost predicate Clear(h: Home, opts: Options) {
    forall why :: !Cause(h, opts, why)
  }

  /** An entry says where one legacy base is, where it goes and what connection it holds. */
  ghost predicate EntryFor(h: Home, e: Entry) {
    IsLegacy(h, e.src) && e.origin == Selected(h.files[e.src].legacy.value) && e.dst == Repos(e.uid) &&
    if e.archived then
      e.src == Archive(e.uid) &&
      e.manifest.Some? && e.manifest.value in h.manifests && UidOf(e.manifest.value, h.manifests[e.manifest.value]) == e.uid &&
      e.uid == (if h.manifests[e.manifest.value].id == "" then e.manifest.value else h.manifests[e.manifest.value].id) &&
      e.name == (if h.manifests[e.manifest.value].name == "" then e.uid else h.manifests[e.manifest.value].name)
    else
      e.src == Repos(e.name) && e.manifest == None &&
      (if e.uid in h.rows then h.rows[e.uid] == Row(e.name, false)
       else Fresh(h, e.uid) && forall u :: u in h.rows ==> h.rows[u] != Row(e.name, false))
  }

  /** A plan has an entry for every base and every manifest, active repositories first. */
  ghost predicate PlanOf(h: Home, plan: seq<Entry>) {
    (forall i :: 0 <= i < |plan| ==> EntryFor(h, plan[i])) &&
    (forall n :: IsBase(h, Repos(n)) ==> exists i :: 0 <= i < |plan| && plan[i].src == Repos(n)) &&
    (forall m :: m in h.manifests ==> exists i :: 0 <= i < |plan| && plan[i].manifest == Some(m)) &&
    (forall i, j :: 0 <= i < j < |plan| ==> plan[i].archived ==> plan[j].archived) &&
    (forall i, j :: 0 <= i < j < |plan| ==> plan[i] != plan[j]) &&
    (forall i, j :: 0 <= i < j < |plan| ==> !plan[j].archived ==> plan[i].uid != plan[j].uid && plan[i].src != plan[j].src)
  }

  ghost predicate UidsApart(plan: seq<Entry>) {
    forall i, j :: 0 <= i < j < |plan| ==> plan[i].uid != plan[j].uid
  }

  /** Two manifests never name one uid. */
  ghost predicate ManifestsApart(h: Home) {
    forall m, n :: m in h.manifests && n in h.manifests && UidOf(m, h.manifests[m]) == UidOf(n, h.manifests[n]) ==> m == n
  }

  // ---- planning, which only reads ----

  /** What the schema keeps of the registry: foreign keys and unique active names. */
  ghost predicate SchemaHolds(h: Home) {
    h.origins.Keys <= h.rows.Keys &&
    forall u, v :: u in h.rows && v in h.rows && !h.rows[u].archived && h.rows[u] == h.rows[v] ==> u == v
  }

  ghost predicate ActiveByName(h: Home, byName: map<string, string>) {
    (forall n :: n in byName ==> byName[n] in h.rows && h.rows[byName[n]] == Row(n, false)) &&
    (forall u :: u in h.rows && !h.rows[u].archived ==> h.rows[u].name in byName && byName[h.rows[u].name] == u)
  }

  /** The registry's active uids by name, so that a forced run mints no second uid. */
  method ReadExistingRegistry(h: Home) returns (byName: map<string, string>)
    requires SchemaHolds(h)
    ensures ActiveByName(h, byName)
  {
    byName := map[];
    var uids := SortedKeys(h.rows.Keys);
    for i := 0 to |uids|
      invariant forall n :: n in byName ==> byName[n] in h.rows && h.rows[byName[n]] == Row(n, false)
      invariant forall j :: 0 <= j < i ==> !h.rows[uids[j]].archived ==> h.rows[uids[j]].name in byName
    {
      if !h.rows[uids[i]].archived {
        byName := byName[h.rows[uids[i]].name := uids[i]];
      }
    }
  }

  /** The file passes every check the active scan makes. */
  ghost predicate ActiveClear(h: Home, name: string) {
    name !in h.rows &&
    (IsBase(h, Repos(name)) ==> IsLegacy(h, Repos(name)) && !IsKsuid(name))
  }

  /** An entry made from a file of that name. */
  predicate Taken(byName: map<string, string>, name: string, mint: string, e: Entry) {
    !e.archived && e.name == name && e.src == Repos(name) && e.uid == if name in byName then byName[name] else mint
  }

  /** One file of repos/: refused, skipped, or an entry. */
  method CaptureActive(h: Home, opts: Options, byName: map<string, string>, name: string, mint: string) returns (refused: Option<Refusal>, e: Option<Entry>)
    requires Repos(name) in h.files && ActiveByName(h, byName) && Fresh(h, mint)
    ensures refused.Some? ==> Cause(h, opts, refused.value)
    ensures refused.None? ==> ActiveClear(h, name) && (e.Some? <==> IsBase(h, Repos(name)))
    ensures e.Some? ==> EntryFor(h, e.value) && Taken(byName, name, mint, e.value)
  {
    var uid := if name in byName then byName[name] else mint;
    refused, e := None, None;
    if name in h.rows {
      return Some(NamedAfterUid(name)), None;
    }
    match h.files[Repos(name)]
    case Stray =>
    case Base(_, _, legacy) =>
      if legacy.None? {
        return Some(PastSchema(Repos(name))), None;
      }
      var origin := ReadLegacyOrigin(legacy.value);
      if IsKsuid(name) {
        return Some(NamedAfterKsuid(name)), None;
      }
      e := Some(Entry(name, uid, false, Repos(name), Repos(uid), None, origin));
  }

  /** The directory's listing, in order. */
  method ReposListed(h: Home) returns (names: seq<string>)
    ensures forall n :: n in names <==> Repos(n) in h.files
    ensures forall i, j :: 0 <= i < j < |names| ==> names[i] != names[j]
    ensures |names| <= |h.files|
  {
    names := SortedKeys(set p | p in h.files && p.Repos? :: p.name);
    ListingFits(h, names);
  }

  method CaptureActiveRepos(h: Home, opts: Options, minted: seq<string>) returns (r: Planned)
    requires SchemaHolds(h) && MintedFresh(h, minted)
    ensures r.Refused? ==> Cause(h, opts, r.why)
    ensures r.Plan? ==> forall n :: Repos(n) in h.files ==> ActiveClear(h, n)
    ensures r.Plan? ==> forall i :: 0 <= i < |r.entries| ==> EntryFor(h, r.entries[i]) && !r.entries[i].archived
    ensures r.Plan? ==> forall n :: IsBase(h, Repos(n)) ==> exists i :: 0 <= i < |r.entries| && r.entries[i].src == Repos(n)
    ensures r.Plan? ==> forall i, j :: 0 <= i < j < |r.entries| ==>
      r.entries[i].uid != r.entries[j].uid && r.entries[i].src != r.entries[j].src
  {
    hide EntryFor, Fresh, MintedFresh, Cause, ActiveClear, ActiveByName, Taken, IsBase;
    var byName := ReadExistingRegistry(h);
    var names := ReposListed(h);
    EnoughMinted(h, minted);
    var out: seq<Entry> := [];
    ghost var from: seq<nat> := [];
    for i := 0 to |names|
      invariant forall k :: 0 <= k < i ==> ActiveClear(h, names[k])
      invariant forall k :: 0 <= k < i && IsBase(h, Repos(names[k])) ==> k in from
      invariant |from| == |out|
      invariant forall j :: 0 <= j < |out| ==> from[j] < i
      invariant forall j :: 0 <= j < |out| ==> from[j] < |names| && EntryFor(h, out[j]) && Taken(byName, names[from[j]], minted[from[j]], out[j])
      invariant forall a, b :: 0 <= a < b < |from| ==> from[a] < from[b]
    {
      var refused, e := CaptureActive(h, opts, byName, names[i], minted[i]);
      if refused.Some? {
        return Refused(refused.value);
      }
      if e.Some? {
        from := from + [i];
        out := Added(out, e.value);
      }
    }
    AllTaken(h, names, minted, byName, from, out);
    r := Plan(out);
  }

  lemma AllTaken(h: Home, names: seq<string>, minted: seq<string>, byName: map<string, string>, from: seq<nat>, out: seq<Entry>)
    requires MintedFresh(h, minted) && |names| <= |minted|
    requires forall i, j :: 0 <= i < j < |names| ==> names[i] != names[j]
    requires ActiveByName(h, byName)
    requires forall n :: Repos(n) in h.files ==> n in names
    requires |from| == |out| && forall j :: 0 <= j < |out| ==> from[j] < |names| && EntryFor(h, out[j]) && Taken(byName, names[from[j]], minted[from[j]], out[j])
    requires forall a, b :: 0 <= a < b < |from| ==> from[a] < from[b]
    requires forall k :: 0 <= k < |names| && IsBase(h, Repos(names[k])) ==> k in from
    ensures forall i :: 0 <= i < |out| ==> EntryFor(h, out[i]) && !out[i].archived
    ensures forall n :: IsBase(h, Repos(n)) ==> exists i :: 0 <= i < |out| && out[i].src == Repos(n)
    ensures forall i, j :: 0 <= i < j < |out| ==> out[i].uid != out[j].uid && out[i].src != out[j].src
  {
    forall i | 0 <= i < |out| ensures EntryFor(h, out[i]) && !out[i].archived {
      assert Taken(byName, names[from[i]], minted[from[i]], out[i]);
    }
    forall n | IsBase(h, Repos(n)) ensures exists i :: 0 <= i < |out| && out[i].src == Repos(n) {
      var k :| 0 <= k < |names| && names[k] == n;
      var i :| 0 <= i < |from| && from[i] == k;
      assert Taken(byName, names[from[i]], minted[from[i]], out[i]);
    }
    forall i, j | 0 <= i < j < |out| ensures out[i].uid != out[j].uid && out[i].src != out[j].src {
      TakenApart(h, names, minted, byName, from[i], from[j], out[i], out[j]);
    }
  }

  lemma TakenApart(h: Home, names: seq<string>, minted: seq<string>, byName: map<string, string>, a: nat, b: nat, d: Entry, e: Entry)
    requires MintedFresh(h, minted) && a < b
    requires forall i, j :: 0 <= i < j < |names| ==> names[i] != names[j]
    requires ActiveByName(h, byName)
    requires b < |names| <= |minted| && Taken(byName, names[a], minted[a], d) && Taken(byName, names[b], minted[b], e)
    ensures d.uid != e.uid && d.src != e.src
  {
    hide EntryFor;
    assert Fresh(h, minted[a]) && Fresh(h, minted[b]);
  }

  function Added(out: seq<Entry>, e: Entry): (r: seq<Entry>)
    ensures |r| == |out| + 1 && r[|out|] == e && forall j :: 0 <= j < |out| ==> r[j] == out[j]
  {
    out + [e]
  }

  lemma EnoughMinted(h: Home, minted: seq<string>)
    requires MintedFresh(h, minted)
    ensures |minted| >= |h.files|
    ensures forall i :: 0 <= i < |minted| ==> Fresh(h, minted[i])
  {
  }

  lemma ListingFits(h: Home, names: seq<string>)
    requires forall k :: k in names <==> k in set p | p in h.files && p.Repos? :: p.name
    requires forall i, j :: 0 <= i < j < |names| ==> names[i] != names[j]
    ensures |names| <= |h.files|
    ensures forall k :: k in names <==> Repos(k) in h.files
  {
    forall k ensures k in names <==> Repos(k) in h.files {
      assert Repos(k) in h.files ==> Repos(k).name == k;
    }
    DistinctFit(names, h.files.Keys);
  }

  lemma {:induction false} DistinctFit(names: seq<string>, places: set<Place>)
    requires forall i, j :: 0 <= i < j < |names| ==> names[i] != names[j]
    requires forall i :: 0 <= i < |names| ==> Repos(names[i]) in places
    ensures |names| <= |places|
  {
    if names != [] {
      var last := |names| - 1;
      DistinctFit(names[..last], places - {Repos(names[last])});
    }
  }

  /** The archive agrees with its manifests in both directions. */
  ghost predicate ArchiveClear(h: Home) {
    (forall u :: Named(h, u) ==> IsLegacy(h, Archive(u))) &&
    (forall n :: Archive(n) in h.files ==> Named(h, n))
  }

  /** One manifest: refused, or an entry. A manifest asserts a base; one that is not there is refused. */
  method CaptureArchived(h: Home, opts: Options, file: string) returns (refused: Option<Refusal>, e: Entry)
    requires file in h.manifests
    ensures refused.Some? ==> Cause(h, opts, refused.value)
    ensures refused.None? ==> EntryFor(h, e) && e.archived && e.manifest == Some(file)
  {
    var m := h.manifests[file];
    var uid := UidOf(file, m);
    var src := Archive(uid);
    refused, e := None, Entry(if m.name == "" then uid else m.name, uid, true, src, Repos(uid), Some(file), None);
    assert Named(h, uid);
    if src !in h.files {
      return Some(NoDatabase(uid)), e;
    }
    match h.files[src]
    case Stray =>
      refused := Some(NotABase(uid));
    case Base(_, _, legacy) =>
      if legacy.None? {
        return Some(PastSchema(src)), e;
      }
      var origin := ReadLegacyOrigin(legacy.value);
      e := e.(origin := origin);
  }

  method CaptureArchivedRepos(h: Home, opts: Options) returns (r: Planned)
    ensures r.Refused? ==> Cause(h, opts, r.why)
    ensures r.Plan? ==> ArchiveClear(h)
    ensures r.Plan? ==> forall i :: 0 <= i < |r.entries| ==> EntryFor(h, r.entries[i]) && r.entries[i].archived
    ensures r.Plan? ==> forall m :: m in h.manifests ==> exists i :: 0 <= i < |r.entries| && r.entries[i].manifest == Some(m)
    ensures r.Plan? ==> forall i, j :: 0 <= i < j < |r.entries| ==> r.entries[i].manifest != r.entries[j].manifest
  {
    hide EntryFor, Named;
    var files := SortedKeys(h.manifests.Keys);
    var out: seq<Entry> := [];
    for i := 0 to |files|
      invariant |out| == i
      invariant forall k :: 0 <= k < i ==> out[k].manifest == Some(files[k]) && EntryFor(h, out[k]) && out[k].archived
    {
      var refused, e := CaptureArchived(h, opts, files[i]);
      if refused.Some? {
        return Refused(refused.value);
      }
      out := Added(out, e);
    }
    forall m | m in h.manifests ensures exists i :: 0 <= i < |out| && out[i].manifest == Some(m) {
      var k :| 0 <= k < |files| && files[k] == m;
      assert out[k].manifest == Some(m);
    }
    var names := SortedKeys(set p | p in h.files && p.Archive? :: p.name);
    ArchiveListed(h, names);
    for i := 0 to |names|
      invariant forall k :: 0 <= k < i ==> Named(h, names[k])
    {
      if forall k :: 0 <= k < |out| ==> out[k].src != Archive(names[i]) {
        NamedFound(h, out, names[i]);
        return Refused(Orphan(names[i]));
      }
      FoundNamed(h, out, names[i]);
    }
    ArchiveAgrees(h, out);
    r := Plan(out);
  }

  lemma ArchiveListed(h: Home, names: seq<string>)
    requires forall k :: k in names <==> k in set p | p in h.files && p.Archive? :: p.name
    ensures forall k :: k in names <==> Archive(k) in h.files
  {
    forall k ensures k in names <==> Archive(k) in h.files {
      assert Archive(k) in h.files ==> Archive(k).name == k;
    }
  }

  lemma FoundNamed(h: Home, out: seq<Entry>, name: string)
    requires forall i :: 0 <= i < |out| ==> EntryFor(h, out[i]) && out[i].archived
    requires exists k :: 0 <= k < |out| && out[k].src == Archive(name)
    ensures Named(h, name)
  {
    var k :| 0 <= k < |out| && out[k].src == Archive(name);
    assert EntryFor(h, out[k]);
  }

  lemma ArchiveAgrees(h: Home, out: seq<Entry>)
    requires forall i :: 0 <= i < |out| ==> EntryFor(h, out[i]) && out[i].archived
    requires forall m :: m in h.manifests ==> exists i :: 0 <= i < |out| && out[i].manifest == Some(m)
    requires forall n :: Archive(n) in h.files ==> Named(h, n)
    ensures ArchiveClear(h)
  {
    forall u | Named(h, u) ensures IsLegacy(h, Archive(u)) {
      NamedFound(h, out, u);
      var k :| 0 <= k < |out| && out[k].src == Archive(u);
      assert EntryFor(h, out[k]);
    }
  }

  lemma NamedFound(h: Home, out: seq<Entry>, name: string)
    requires forall i :: 0 <= i < |out| ==> EntryFor(h, out[i]) && out[i].archived
    requires forall m :: m in h.manifests ==> exists i :: 0 <= i < |out| && out[i].manifest == Some(m)
    ensures Named(h, name) ==> exists k :: 0 <= k < |out| && out[k].src == Archive(name)
  {
    if m :| m in h.manifests && UidOf(m, h.manifests[m]) == name {
      var i :| 0 <= i < |out| && out[i].manifest == Some(m);
      assert EntryFor(h, out[i]);
    }
  }

  /**
   Planning refuses a home exactly when something about it says not to convert it, and otherwise
   finds every knowledge base.
  */
  method PlanMigration(h: Home, opts: Options, minted: seq<string>) returns (r: Planned)
    requires SchemaHolds(h) && MintedFresh(h, minted)
    ensures r.Plan? <==> Clear(h, opts)
    ensures r.Refused? ==> Cause(h, opts, r.why)
    ensures r.Plan? ==> PlanOf(h, r.entries)
  {
    hide EntryFor, PlanOf, Backed, ActiveClear, ArchiveClear, Named, IsKsuid, Fresh, MintedFresh;
    if h.rows != map[] && !opts.force {
      assert Cause(h, opts, LooksMigrated);
      return Refused(LooksMigrated);
    }
    r := CaptureActiveRepos(h, opts, minted);
    if r.Refused? {
      assert Cause(h, opts, r.why);
      return;
    }
    var archived := CaptureArchivedRepos(h, opts);
    if archived.Refused? {
      assert Cause(h, opts, archived.why);
      return archived;
    }
    ghost var active := r.entries;
    var plan := r.entries + archived.entries;
    Together(h, active, archived.entries);
    BasesPlanned(h, plan);
    if plan == [] && !h.legacyControl {
      assert Cause(h, opts, NothingToMigrate);
      return Refused(NothingToMigrate);
    }
    var unbacked := UnbackedOrigin(h, plan);
    if unbacked.Some? && !opts.discard {
      assert Cause(h, opts, Unbacked(unbacked.value));
      return Refused(Unbacked(unbacked.value));
    }
    var twin := SurveyIdentities(h, opts, plan);
    if twin.Some? {
      return Refused(twin.value);
    }
    PlannedClear(h, opts, plan);
    r := Plan(plan);
  }

  /** No two active entries hold one knowledge base. */
  ghost predicate IdentitiesApart(h: Home, plan: seq<Entry>) {
    forall i, j :: 0 <= i < j < |plan| && !plan[i].archived && !plan[j].archived && IsBase(h, plan[i].src) && IsBase(h, plan[j].src) ==>
      !SameRoot(h, plan[i].src, plan[j].src)
  }

  /** Two active repositories of one root commit would both write the same branches; no flag allows it. */
  method SurveyIdentities(h: Home, opts: Options, plan: seq<Entry>) returns (refused: Option<Refusal>)
    requires PlanOf(h, plan)
    ensures refused.Some? ==> Cause(h, opts, refused.value)
    ensures refused.None? ==> IdentitiesApart(h, plan)
  {
    hide EntryFor, Named, Backed, IsKsuid;
    var byRoot: map<string, nat> := map[];
    for i := 0 to |plan|
      invariant forall r :: r in byRoot ==> byRoot[r] < i && SurveyedAs(h, plan[byRoot[r]], r)
      invariant forall k, r :: 0 <= k < i && SurveyedAs(h, plan[k], r) ==> r in byRoot && byRoot[r] == k
    {
      if !plan[i].archived {
        PlannedBase(h, plan, i);
        var root := h.files[plan[i].src].root;
        if root != "" {
          if root in byRoot {
            var k := byRoot[root];
            PlannedBase(h, plan, k);
            assert plan[k].src != plan[i].src;
            return Some(SameIdentity(plan[k].name, plan[i].name));
          }
          byRoot := byRoot[root := i];
        }
      }
    }
    refused := None;
    AllSurveyed(h, plan, byRoot);
  }

  lemma AllSurveyed(h: Home, plan: seq<Entry>, byRoot: map<string, nat>)
    requires forall k, r :: 0 <= k < |plan| && SurveyedAs(h, plan[k], r) ==> r in byRoot && byRoot[r] == k
    ensures IdentitiesApart(h, plan)
  {
    forall i, j | 0 <= i < j < |plan| && !plan[i].archived && !plan[j].archived && IsBase(h, plan[i].src) && IsBase(h, plan[j].src)
      ensures !SameRoot(h, plan[i].src, plan[j].src)
    {
      if SameRoot(h, plan[i].src, plan[j].src) {
        Surveyed(h, plan, byRoot, i);
        Surveyed(h, plan, byRoot, j);
      }
    }
  }

  lemma Surveyed(h: Home, plan: seq<Entry>, byRoot: map<string, nat>, i: nat)
    requires forall k, r :: 0 <= k < |plan| && SurveyedAs(h, plan[k], r) ==> r in byRoot && byRoot[r] == k
    requires i < |plan| && !plan[i].archived && IsBase(h, plan[i].src) && h.files[plan[i].src].root != ""
    ensures h.files[plan[i].src].root in byRoot && byRoot[h.files[plan[i].src].root] == i
  {
    assert SurveyedAs(h, plan[i], h.files[plan[i].src].root);
  }

  ghost predicate SurveyedAs(h: Home, e: Entry, root: string) {
    !e.archived && IsBase(h, e.src) && h.files[e.src].root == root && root != ""
  }

  lemma PlannedBase(h: Home, plan: seq<Entry>, i: nat)
    requires PlanOf(h, plan) && i < |plan|
    ensures IsLegacy(h, plan[i].src) && (!plan[i].archived ==> plan[i].src == Repos(plan[i].name))
  {
    assert EntryFor(h, plan[i]);
  }

  lemma IdentitiesClear(h: Home, opts: Options, plan: seq<Entry>, why: Refusal)
    requires PlanOf(h, plan) && IdentitiesApart(h, plan)
    ensures why.SameIdentity? ==> !Cause(h, opts, why)
  {
    hide Named, Backed, IsKsuid;
    if why.SameIdentity? && IsBase(h, Repos(why.name)) && IsBase(h, Repos(why.other)) {
      var i :| 0 <= i < |plan| && plan[i].src == Repos(why.name);
      var j :| 0 <= j < |plan| && plan[j].src == Repos(why.other);
      assert EntryFor(h, plan[i]) && EntryFor(h, plan[j]);
      assert i < j ==> !SameRoot(h, plan[i].src, plan[j].src);
      assert j < i ==> !SameRoot(h, plan[j].src, plan[i].src);
    }
  }

  /** A recorded connection that rebuilding the registry from the plan would drop. */
  method UnbackedOrigin(h: Home, plan: seq<Entry>) returns (uid: Option<string>)
    requires SchemaHolds(h) && PlanOf(h, plan)
    ensures uid.Some? ==> uid.value in h.origins && !Backed(h, uid.value)
    ensures uid.None? ==> forall u :: u in h.origins ==> exists j :: 0 <= j < |plan| && plan[j].uid == u
  {
    hide PlanOf, Backed;
    PlannedBacked(h, plan);
    var uids := SortedKeys(h.origins.Keys);
    for i := 0 to |uids|
      invariant forall k :: 0 <= k < i ==> exists j :: 0 <= j < |plan| && plan[j].uid == uids[k]
    {
      BackedPlanned(h, plan, uids[i]);
      if forall j :: 0 <= j < |plan| ==> plan[j].uid != uids[i] {
        return Some(uids[i]);
      }
    }
    uid := None;
  }

  lemma Together(h: Home, active: seq<Entry>, archived: seq<Entry>)
    requires forall i :: 0 <= i < |active| ==> EntryFor(h, active[i]) && !active[i].archived
    requires forall n :: IsBase(h, Repos(n)) ==> exists i :: 0 <= i < |active| && active[i].src == Repos(n)
    requires forall i, j :: 0 <= i < j < |active| ==> active[i].uid != active[j].uid && active[i].src != active[j].src
    requires forall i :: 0 <= i < |archived| ==> EntryFor(h, archived[i]) && archived[i].archived
    requires forall m :: m in h.manifests ==> exists i :: 0 <= i < |archived| && archived[i].manifest == Some(m)
    requires forall i, j :: 0 <= i < j < |archived| ==> archived[i].manifest != archived[j].manifest
    ensures PlanOf(h, active + archived)
  {
    var plan := active + archived;
    forall n | IsBase(h, Repos(n)) ensures exists i :: 0 <= i < |plan| && plan[i].src == Repos(n) {
      var i :| 0 <= i < |active| && active[i].src == Repos(n);
      assert plan[i] == active[i];
    }
    forall m | m in h.manifests ensures exists i :: 0 <= i < |plan| && plan[i].manifest == Some(m) {
      var i :| 0 <= i < |archived| && archived[i].manifest == Some(m);
      assert plan[|active| + i] == archived[i];
    }
    forall i | 0 <= i < |plan|
      ensures EntryFor(h, plan[i]) && (plan[i].archived <==> i >= |active|)
    {
      if i < |active| {
        assert plan[i] == active[i];
      } else {
        assert plan[i] == archived[i - |active|];
      }
    }
  }

  lemma BasesPlanned(h: Home, plan: seq<Entry>)
    requires PlanOf(h, plan) && ArchiveClear(h)
    ensures (forall p :: p in h.files ==> h.files[p].Stray?) || plan != []
  {
    forall p | IsBase(h, p) ensures plan != [] {
      match p
      case Repos(n) =>
        var i :| 0 <= i < |plan| && plan[i].src == Repos(n);
      case Archive(n) =>
        assert Named(h, n);
    }
    forall p | p in h.files ensures h.files[p].Stray? || plan != [] {
      assert h.files[p].Base? ==> IsBase(h, p);
    }
  }

  lemma BackedPlanned(h: Home, plan: seq<Entry>, uid: string)
    requires PlanOf(h, plan) && SchemaHolds(h)
    ensures Backed(h, uid) ==> exists j :: 0 <= j < |plan| && plan[j].uid == uid
  {
    if m :| m in h.manifests && UidOf(m, h.manifests[m]) == uid {
      var i :| 0 <= i < |plan| && plan[i].manifest == Some(m);
      assert EntryFor(h, plan[i]);
    } else if uid in h.rows && !h.rows[uid].archived && IsBase(h, Repos(h.rows[uid].name)) {
      var i :| 0 <= i < |plan| && plan[i].src == Repos(h.rows[uid].name);
      assert EntryFor(h, plan[i]);
      assert h.rows[uid] == Row(plan[i].name, false);
    }
  }

  /** A uid the plan registers is backed, unless it is new. */
  lemma PlannedBacked(h: Home, plan: seq<Entry>)
    requires PlanOf(h, plan)
    ensures forall i :: 0 <= i < |plan| ==> plan[i].uid in h.rows ==> Backed(h, plan[i].uid)
  {
    forall i | 0 <= i < |plan| && plan[i].uid in h.rows ensures Backed(h, plan[i].uid) {
      assert EntryFor(h, plan[i]);
    }
  }

  lemma PlanIsOfBases(h: Home, plan: seq<Entry>)
    requires PlanOf(h, plan)
    ensures plan != [] ==> exists p :: p in h.files && !h.files[p].Stray?
  {
    if plan != [] {
      assert EntryFor(h, plan[0]);
      assert plan[0].src in h.files && !h.files[plan[0].src].Stray?;
    }
  }

  lemma PlannedClear(h: Home, opts: Options, plan: seq<Entry>)
    requires SchemaHolds(h) && PlanOf(h, plan) && ArchiveClear(h)
    requires h.rows != map[] ==> opts.force
    requires forall n :: Repos(n) in h.files ==> ActiveClear(h, n)
    requires plan != [] || h.legacyControl
    requires !opts.discard ==> forall u :: u in h.origins ==> exists j :: 0 <= j < |plan| && plan[j].uid == u
    requires IdentitiesApart(h, plan)
    ensures Clear(h, opts)
  {
    hide EntryFor, PlanOf, Backed, ActiveClear, ArchiveClear, Named, IsKsuid;
    PlannedBacked(h, plan);
    PlanIsOfBases(h, plan);
    forall why ensures !Cause(h, opts, why) {
      FilesClear(h, opts, why);
      IdentitiesClear(h, opts, plan, why);
    }
  }

  lemma FilesClear(h: Home, opts: Options, why: Refusal)
    requires ArchiveClear(h)
    requires forall n :: Repos(n) in h.files ==> ActiveClear(h, n)
    requires h.rows != map[] ==> opts.force
    ensures Cause(h, opts, why) ==> why.Unbacked? || why.NothingToMigrate? || why.SameIdentity?
  {
    hide Named, IsKsuid;
    if why.PastSchema? && why.place.Repos? {
      assert why.place == Repos(why.place.name);
    }
    if why.PastSchema? && why.place.Archive? {
      assert why.place == Archive(why.place.name);
    }
  }

  // ---- what no crash may cost ----

  /** Where the file at p was in the legacy home, as the registry tells it. */
  function From(rows: map<string, Row>, p: Place): Place {
    if p.Repos? && p.name in rows then Former(rows, p.name) else p
  }

  /** The connection the legacy base at p holds, in the form the registry records it. */
  ghost function Wanted(h: Home, p: Place): Option<Origin>
    requires IsLegacy(h, p)
  {
    Recorded(Selected(h.files[p].legacy.value))
  }

  /** The registry holds the connection of the base that began at p. */
  ghost predicate Saved(h0: Home, h: Home, p: Place)
    requires IsLegacy(h0, p)
  {
    exists u :: u in h.rows && Former(h.rows, u) == p && OriginOf(h, u) == Wanted(h0, p)
  }

  /** The base at p is one of the legacy home, and its connection is in it or in the registry. */
  ghost predicate Accounted(h0: Home, h: Home, p: Place)
    requires IsBase(h, p)
  {
    var was := From(h.rows, p);
    IsLegacy(h0, was) && h.files[p].id == h0.files[was].id &&
    (h.files[p].legacy == h0.files[was].legacy || (h.files[p].legacy.None? && Saved(h0, h, was)))
  }

  /** No uid is mistaken for a name. */
  ghost predicate Lawful(h: Home) {
    SchemaHolds(h) &&
    (forall m :: m in h.manifests ==> IsKsuid(UidOf(m, h.manifests[m]))) &&
    (forall u :: u in h.rows ==> IsKsuid(u) && (!h.rows[u].archived ==> !IsKsuid(h.rows[u].name) && !Named(h, u)))
  }

  ghost predicate NothingBuried(h0: Home, h: Home, lost: set<Place>) {
    (forall p :: IsBase(h, p) ==> Accounted(h0, h, p)) &&
    (forall p, q :: IsBase(h, p) && IsBase(h, q) && From(h.rows, p) == From(h.rows, q) ==> p == q) &&
    (forall p :: IsBase(h0, p) && p !in lost ==> exists q :: IsBase(h, q) && From(h.rows, q) == p)
  }

  ghost predicate RecordsTrue(h0: Home, h: Home) {
    forall u :: u in h.origins && u in h.rows ==>
      IsLegacy(h0, Former(h.rows, u)) && OriginOf(h, u) == Wanted(h0, Former(h.rows, u))
  }

  /** An archived base still has a manifest, or has arrived. */
  ghost predicate Discoverable(h0: Home, h: Home, lost: set<Place>) {
    forall u :: Named(h0, u) && IsBase(h0, Archive(u)) && Archive(u) !in lost ==>
      Named(h, u) || (IsBase(h, Repos(u)) && From(h.rows, Repos(u)) == Archive(u))
  }

  /** Everything the legacy home h0 held is in h, but for the files the disk lost. */
  ghost predicate Safe(h0: Home, h: Home, lost: set<Place>) {
    Lawful(h) && NothingBuried(h0, h, lost) && RecordsTrue(h0, h) && Discoverable(h0, h, lost)
  }

  /** A home from before the registry. Archives were named by ksuid. */
  ghost predicate LegacyHome(h: Home) {
    h.rows == map[] && h.origins == map[] &&
    (forall p :: IsBase(h, p) ==> IsLegacy(h, p)) &&
    (forall m :: m in h.manifests ==> IsKsuid(UidOf(m, h.manifests[m])))
  }

  lemma LegacySafe(h: Home)
    requires LegacyHome(h)
    ensures Safe(h, h, {})
  {
    forall p | IsBase(h, p) ensures Accounted(h, h, p) && IsBase(h, p) && From(h.rows, p) == p {
    }
  }

  ghost predicate KeepsSafe(h: Home, g: Home) {
    forall h0: Home, lost: set<Place> :: Safe(h0, h, lost) ==> Safe(h0, g, lost)
  }

  ghost predicate Remembers(h: Home, g: Home) {
    forall u :: u in h.origins ==> OriginOf(g, u) == OriginOf(h, u)
  }

  // ---- one rename, one removal, one schema upgrade ----

  function Renamed(files: map<Place, File>, src: Place, dst: Place): map<Place, File>
    requires src in files
  {
    (files - {src})[dst := files[src]]
  }

  lemma RenameKeeps(h: Home, src: Place, dst: Place)
    requires src in h.files && src != dst && !IsBase(h, dst)
    requires From(h.rows, src) == From(h.rows, dst)
    requires (src.Archive? && dst.Repos?) || forall u :: src == Repos(u) && u in h.rows && h.rows[u].archived ==> Named(h, u)
    ensures KeepsSafe(h, h.(files := Renamed(h.files, src, dst)))
  {
    var g := h.(files := Renamed(h.files, src, dst));
    forall h0: Home, lost: set<Place> | Safe(h0, h, lost) ensures Safe(h0, g, lost) {
      RenameBuries(h0, h, lost, src, dst);
      RenameDiscoverable(h0, h, lost, src, dst);
      assert forall u :: Named(h, u) <==> Named(g, u);
      assert Lawful(g);
      assert RecordsTrue(h0, g);
    }
  }

  lemma RenameBuries(h0: Home, h: Home, lost: set<Place>, src: Place, dst: Place)
    requires Safe(h0, h, lost)
    requires src in h.files && src != dst && !IsBase(h, dst)
    requires From(h.rows, src) == From(h.rows, dst)
    ensures NothingBuried(h0, h.(files := Renamed(h.files, src, dst)), lost)
  {
    hide Lawful, RecordsTrue, Discoverable;
    var g := h.(files := Renamed(h.files, src, dst));
    forall p | IsBase(g, p) ensures Accounted(h0, g, p) {
      var q := if p == dst then src else p;
      assert IsBase(h, q) && Accounted(h0, h, q);
      assert From(h.rows, q) == From(g.rows, p);
      var was := From(h.rows, q);
      if g.files[p].legacy != h0.files[was].legacy {
        var u :| u in h.rows && Former(h.rows, u) == was && OriginOf(h, u) == Wanted(h0, was);
        assert OriginOf(g, u) == Wanted(h0, was);
      }
    }
    forall p | IsBase(h0, p) && p !in lost ensures exists q :: IsBase(g, q) && From(g.rows, q) == p {
      var q :| IsBase(h, q) && From(h.rows, q) == p;
      var r := if q == src then dst else q;
      assert IsBase(g, r) && From(g.rows, r) == p;
    }
    forall p, q | IsBase(g, p) && IsBase(g, q) && From(g.rows, p) == From(g.rows, q) ensures p == q {
      var a := if p == dst then src else p;
      var b := if q == dst then src else q;
      assert IsBase(h, a) && IsBase(h, b);
    }
  }

  lemma RenameDiscoverable(h0: Home, h: Home, lost: set<Place>, src: Place, dst: Place)
    requires Discoverable(h0, h, lost)
    requires src in h.files && src != dst && !IsBase(h, dst)
    requires (src.Archive? && dst.Repos?) || forall u :: src == Repos(u) && u in h.rows && h.rows[u].archived ==> Named(h, u)
    ensures Discoverable(h0, h.(files := Renamed(h.files, src, dst)), lost)
  {
    var g := h.(files := Renamed(h.files, src, dst));
    forall u | Named(h0, u) && IsBase(h0, Archive(u)) && Archive(u) !in lost
      ensures Named(g, u) || (IsBase(g, Repos(u)) && From(g.rows, Repos(u)) == Archive(u))
    {
      assert Named(h, u) <==> Named(g, u);
    }
  }

  lemma ManifestKeeps(h: Home, m: string)
    requires m in h.manifests
    requires var u := UidOf(m, h.manifests[m]); IsBase(h, Repos(u)) && From(h.rows, Repos(u)) == Archive(u)
    ensures KeepsSafe(h, h.(manifests := h.manifests - {m}))
  {
    var g := h.(manifests := h.manifests - {m});
    forall u | Named(h, u) ensures Named(g, u) || u == UidOf(m, h.manifests[m]) {
      var n :| n in h.manifests && UidOf(n, h.manifests[n]) == u;
      assert n != m ==> n in g.manifests;
    }
    forall u | Named(g, u) ensures Named(h, u) {
      var n :| n in g.manifests && UidOf(n, g.manifests[n]) == u;
      assert n in h.manifests;
    }
    forall h0: Home, lost: set<Place> | Safe(h0, h, lost) ensures Safe(h0, g, lost) {
      OnlyManifests(h0, h, g, lost);
      assert Lawful(g);
      assert Discoverable(h0, g, lost);
    }
  }

  lemma OnlyManifests(h0: Home, h: Home, g: Home, lost: set<Place>)
    requires g == h.(manifests := g.manifests)
    requires NothingBuried(h0, h, lost) && RecordsTrue(h0, h)
    ensures NothingBuried(h0, g, lost) && RecordsTrue(h0, g)
  {
    forall p ensures IsBase(h, p) <==> IsBase(g, p) {
    }
    forall p | IsBase(g, p) ensures Accounted(h0, g, p) {
      assert Accounted(h0, h, p);
      var was := From(h.rows, p);
      if g.files[p].legacy != h0.files[was].legacy {
        var u :| u in h.rows && Former(h.rows, u) == was && OriginOf(h, u) == Wanted(h0, was);
        assert OriginOf(g, u) == Wanted(h0, was);
      }
    }
  }

  /** Opening the database at the new schema drops the columns. */
  function Upgraded(f: File): File {
    if f.Base? then f.(legacy := None) else f
  }

  /** It is safe once the registry holds what the columns say. */
  lemma UpgradeKeeps(h: Home, uid: string)
    requires uid in h.rows && IsBase(h, Repos(uid))
    requires IsLegacy(h, Repos(uid)) ==> OriginOf(h, uid) == Wanted(h, Repos(uid))
    ensures KeepsSafe(h, h.(files := h.files[Repos(uid) := Upgraded(h.files[Repos(uid)])]))
  {
    var g := h.(files := h.files[Repos(uid) := Upgraded(h.files[Repos(uid)])]);
    forall p ensures IsBase(h, p) <==> IsBase(g, p) {
    }
    forall u ensures Named(h, u) <==> Named(g, u) {
    }
    forall h0: Home, lost: set<Place> | Safe(h0, h, lost) ensures Safe(h0, g, lost) {
      forall p | IsBase(g, p) ensures Accounted(h0, g, p) {
        UpgradeAccounts(h0, h, uid, p);
      }
      assert NothingBuried(h0, g, lost);
      assert Lawful(g);
      assert RecordsTrue(h0, g);
      assert Discoverable(h0, g, lost);
    }
  }

  lemma UpgradeAccounts(h0: Home, h: Home, uid: string, p: Place)
    requires uid in h.rows && IsBase(h, Repos(uid)) && IsBase(h, p) && Accounted(h0, h, p)
    requires IsLegacy(h, Repos(uid)) ==> OriginOf(h, uid) == Wanted(h, Repos(uid))
    ensures var g := h.(files := h.files[Repos(uid) := Upgraded(h.files[Repos(uid)])]);
      IsBase(g, p) && Accounted(h0, g, p)
  {
    hide Selected;
    var g := h.(files := h.files[Repos(uid) := Upgraded(h.files[Repos(uid)])]);
    var was := From(h.rows, p);
    if h.files[p].legacy == h0.files[was].legacy {
      assert p == Repos(uid) ==> Former(g.rows, uid) == was && OriginOf(g, uid) == Wanted(h0, was);
    } else {
      var u :| u in h.rows && Former(h.rows, u) == was && OriginOf(h, u) == Wanted(h0, was);
      assert OriginOf(g, u) == Wanted(h0, was);
    }
  }

  /** A file the disk loses takes no other file's record with it. */
  lemma LossKeeps(h0: Home, h: Home, lost: set<Place>, p: Place)
    requires Safe(h0, h, lost) && p in h.files
    ensures Safe(h0, h.(files := h.files - {p}), lost + {From(h.rows, p)})
  {
    var g := h.(files := h.files - {p});
    var gone := lost + {From(h.rows, p)};
    forall u ensures Named(h, u) <==> Named(g, u) {
    }
    forall q | IsBase(g, q) ensures IsBase(h, q) && Accounted(h0, g, q) {
      assert IsBase(h, q) && Accounted(h0, h, q);
      var was := From(h.rows, q);
      if g.files[q].legacy != h0.files[was].legacy {
        var u :| u in h.rows && Former(h.rows, u) == was && OriginOf(h, u) == Wanted(h0, was);
        assert OriginOf(g, u) == Wanted(h0, was);
      }
    }
    forall q | IsBase(h0, q) && q !in gone ensures exists r :: IsBase(g, r) && From(g.rows, r) == q {
      var r :| IsBase(h, r) && From(h.rows, r) == q;
      assert IsBase(g, r);
    }
    assert Lawful(g);
    assert RecordsTrue(h0, g);
    assert Discoverable(h0, g, gone);
  }

  // ---- the one transaction ----

  /** The registry holds the plan and nothing else. */
  ghost predicate Registers(rows: map<string, Row>, origins: map<string, Origin>, plan: seq<Entry>) {
    (forall i :: 0 <= i < |plan| ==> plan[i].uid in rows && rows[plan[i].uid] == Row(plan[i].name, plan[i].archived)) &&
    (forall i :: 0 <= i < |plan| ==>
      (if plan[i].uid in origins then Some(origins[plan[i].uid]) else None) == Recorded(plan[i].origin)) &&
    (forall u :: u in rows ==> exists i :: 0 <= i < |plan| && plan[i].uid == u) &&
    origins.Keys <= rows.Keys
  }

  /** A uid's connection is as the plan has it, to main when that names no branch. */
  ghost predicate Registered(origins: map<string, Origin>, uid: string, o: Option<Origin>) {
    (uid in origins <==> o.Some?) &&
    (o.Some? ==> origins[uid] == Origin(o.value.url, if o.value.branch == "" then "main" else o.value.branch, o.value.auth, o.value.token))
  }

  ghost predicate CommittedTo(h: Home, plan: seq<Entry>, g: Home) {
    g.files == h.files && g.manifests == h.manifests && !g.legacyControl && Registers(g.rows, g.origins, plan)
  }

  /** In a home fit to convert every base is where it began, with its columns. */
  lemma ClearMeans(h: Home, opts: Options)
    requires Clear(h, opts)
    ensures forall n :: Repos(n) in h.files ==> n !in h.rows
    ensures forall p :: IsBase(h, p) ==> IsLegacy(h, p) && From(h.rows, p) == p
    ensures forall n :: IsBase(h, Repos(n)) ==> !IsKsuid(n)
    ensures forall n :: Archive(n) in h.files ==> Named(h, n)
    ensures !opts.discard ==> forall u :: u in h.origins ==> Backed(h, u)
  {
    hide IsKsuid, Named, Backed;
    forall n | Repos(n) in h.files ensures n !in h.rows {
      assert !Cause(h, opts, NamedAfterUid(n));
    }
    forall n | Archive(n) in h.files ensures Named(h, n) {
      assert !Cause(h, opts, Orphan(n));
    }
    forall p | IsBase(h, p) ensures IsLegacy(h, p) && From(h.rows, p) == p {
      assert !Cause(h, opts, PastSchema(p));
      assert p.Archive? ==> p == Archive(p.name);
      assert p.Repos? ==> p == Repos(p.name);
    }
    forall n | IsBase(h, Repos(n)) ensures !IsKsuid(n) {
      assert !Cause(h, opts, NamedAfterKsuid(n));
    }
    if !opts.discard {
      forall u | u in h.origins ensures Backed(h, u) {
        assert !Cause(h, opts, Unbacked(u));
      }
    }
  }

  /** What the moves rely on: where each planned file is, and that nothing is where it goes. */
  ghost predicate Movable(g: Home, plan: seq<Entry>) {
    UidsApart(plan) && SourcesApart(plan) && Registers(g.rows, g.origins, plan) &&
    forall i :: 0 <= i < |plan| ==> MovableEntry(g, plan[i])
  }

  ghost predicate SourcesApart(plan: seq<Entry>) {
    forall i, j :: 0 <= i < j < |plan| ==> plan[i].src != plan[j].src
  }

  ghost predicate MovableEntry(g: Home, e: Entry)
  {
    e.uid in g.rows && IsKsuid(e.uid) && e.src == Former(g.rows, e.uid) && e.dst == Repos(e.uid) &&
    IsLegacy(g, e.src) && OriginOf(g, e.uid) == Wanted(g, e.src) && !IsBase(g, e.dst) &&
    (e.archived <==> e.src.Archive?) && (e.src.Repos? ==> !IsKsuid(e.src.name)) &&
    (if e.archived then e.manifest.Some? && e.manifest.value in g.manifests && UidOf(e.manifest.value, g.manifests[e.manifest.value]) == e.uid
     else e.manifest.None?)
  }

  lemma CommitMovable(h: Home, opts: Options, plan: seq<Entry>, g: Home)
    requires Lawful(h) && Clear(h, opts) && PlanOf(h, plan) && UidsApart(plan) && CommittedTo(h, plan, g)
    ensures Movable(g, plan)
  {
    ClearMeans(h, opts);
    SourcesDiffer(h, plan);
    hide Clear, IsKsuid, Selected, EntryFor, Lawful, Named, MovableEntry;
    forall i | 0 <= i < |plan| ensures MovableEntry(g, plan[i]) {
      EntryMovable(h, plan, g, i);
    }
  }

  lemma EntryMovable(h: Home, plan: seq<Entry>, g: Home, i: nat)
    requires Lawful(h) && PlanOf(h, plan) && CommittedTo(h, plan, g) && i < |plan|
    requires forall n :: Repos(n) in h.files ==> n !in h.rows
    requires forall n :: IsBase(h, Repos(n)) ==> !IsKsuid(n)
    ensures MovableEntry(g, plan[i])
  {
    hide IsKsuid, Selected, EntryFor, MovableEntry;
    assert EntryFor(h, plan[i]);
    UidIsKsuid(h, plan[i]);
    MovableFromEntry(h, g, plan[i]);
  }

  lemma UidIsKsuid(h: Home, e: Entry)
    requires Lawful(h) && EntryFor(h, e)
    ensures IsKsuid(e.uid)
  {
    hide IsKsuid, Selected;
  }

  lemma MovableFromEntry(h: Home, g: Home, e: Entry)
    requires EntryFor(h, e) && IsKsuid(e.uid) && g.files == h.files && g.manifests == h.manifests
    requires e.uid in g.rows && g.rows[e.uid] == Row(e.name, e.archived) && OriginOf(g, e.uid) == Recorded(e.origin)
    requires IsBase(h, Repos(e.uid)) ==> !IsKsuid(e.uid)
    requires IsBase(h, Repos(e.name)) ==> !IsKsuid(e.name)
    ensures MovableEntry(g, e)
  {
    hide IsKsuid, Selected;
  }

  lemma SourcesDiffer(h: Home, plan: seq<Entry>)
    requires PlanOf(h, plan) && UidsApart(plan)
    ensures SourcesApart(plan)
  {
    hide IsKsuid, Selected;
    forall i, j | 0 <= i < j < |plan| ensures plan[i].src != plan[j].src {
      assert EntryFor(h, plan[i]) && EntryFor(h, plan[j]);
    }
  }

  lemma SameSource(plan: seq<Entry>, i: nat, j: nat)
    requires SourcesApart(plan) && i < |plan| && j < |plan| && plan[i].src == plan[j].src
    ensures i == j
  {
    if i < j {
      assert false;
    }
  }

  lemma CommitLawful(h: Home, opts: Options, plan: seq<Entry>, g: Home)
    requires Lawful(h) && Clear(h, opts) && PlanOf(h, plan) && UidsApart(plan) && CommittedTo(h, plan, g)
    ensures Lawful(g)
  {
    hide IsKsuid, Selected, SchemaHolds, Clear, Cause, MovableEntry, EntryFor, UidsApart, SourcesApart;
    CommitMovable(h, opts, plan, g);
    ClearMeansFor(h, g);
    forall u | u in g.rows ensures IsKsuid(u) && (!g.rows[u].archived ==> !IsKsuid(g.rows[u].name) && !Named(g, u)) {
      var i :| 0 <= i < |plan| && plan[i].uid == u;
      RowLawful(h, g, plan[i]);
    }
    NamesApart(g, plan);
  }

  lemma RowLawful(h: Home, g: Home, e: Entry)
    requires Lawful(h) && EntryFor(h, e) && MovableEntry(g, e) && g.rows[e.uid] == Row(e.name, e.archived)
    ensures IsKsuid(e.uid) && (!e.archived ==> !IsKsuid(e.name) && !Named(h, e.uid))
  {
    hide IsKsuid, Selected, Wanted;
  }

  lemma NamesApart(g: Home, plan: seq<Entry>)
    requires Movable(g, plan)
    ensures SchemaHolds(g)
  {
    hide IsKsuid, Wanted;
    forall u, v | u in g.rows && v in g.rows && !g.rows[u].archived && g.rows[u] == g.rows[v] ensures u == v {
      var i :| 0 <= i < |plan| && plan[i].uid == u;
      var j :| 0 <= j < |plan| && plan[j].uid == v;
      assert MovableEntry(g, plan[i]) && MovableEntry(g, plan[j]);
      SameSource(plan, i, j);
    }
  }

  /** Replacing the registry by the plan keeps everything, because the files still say it all. */
  lemma CommitKeeps(h: Home, opts: Options, plan: seq<Entry>, g: Home)
    requires Clear(h, opts) && PlanOf(h, plan) && UidsApart(plan) && CommittedTo(h, plan, g)
    ensures KeepsSafe(h, g)
  {
    forall h0: Home, lost: set<Place> | Safe(h0, h, lost) ensures Safe(h0, g, lost) {
      CommitLawful(h, opts, plan, g);
      CommitMovable(h, opts, plan, g);
      CommitBuries(h0, h, lost, opts, plan, g);
      forall u ensures Named(g, u) <==> Named(h, u) {
      }
      forall u | Named(h0, u) && IsBase(h0, Archive(u)) && Archive(u) !in lost
        ensures Named(g, u)
      {
        ClearMeans(h, opts);
      }
    }
  }

  lemma CommitBuries(h0: Home, h: Home, lost: set<Place>, opts: Options, plan: seq<Entry>, g: Home)
    requires Safe(h0, h, lost) && Clear(h, opts) && CommittedTo(h, plan, g) && Movable(g, plan)
    ensures NothingBuried(h0, g, lost) && RecordsTrue(h0, g)
  {
    hide IsKsuid, Clear, Lawful, Accounted, Movable, Wanted, Registers, RecordsTrue, Discoverable;
    ClearMeans(h, opts);
    StillThere(h, plan, g);
    StillSaid(h0, h, plan, g);
    forall p | IsBase(h0, p) && p !in lost ensures exists q :: IsBase(g, q) && From(g.rows, q) == p {
      var q :| IsBase(h, q) && From(h.rows, q) == p;
      assert IsBase(g, q) && From(g.rows, q) == q;
    }
  }

  lemma StillThere(h: Home, plan: seq<Entry>, g: Home)
    requires CommittedTo(h, plan, g) && Movable(g, plan)
    ensures forall p :: IsBase(g, p) <==> IsBase(h, p)
    ensures forall p :: IsBase(g, p) ==> From(g.rows, p) == p
  {
    hide IsKsuid, Wanted;
    forall p ensures IsBase(g, p) <==> IsBase(h, p) {
    }
    forall u | u in g.rows ensures !IsBase(g, Repos(u)) {
      var i :| 0 <= i < |plan| && plan[i].uid == u;
      assert MovableEntry(g, plan[i]);
    }
    forall p | IsBase(g, p) ensures From(g.rows, p) == p {
      assert p.Repos? ==> p == Repos(p.name);
    }
  }

  lemma StillSaid(h0: Home, h: Home, plan: seq<Entry>, g: Home)
    requires forall p :: IsBase(h, p) ==> IsLegacy(h, p) && From(h.rows, p) == p && Accounted(h0, h, p)
    requires forall p :: IsBase(g, p) ==> From(g.rows, p) == p
    requires CommittedTo(h, plan, g) && Movable(g, plan)
    ensures forall p :: IsBase(g, p) ==> Accounted(h0, g, p)
    ensures RecordsTrue(h0, g)
  {
    hide IsKsuid, Selected;
    forall p | IsBase(g, p) ensures Accounted(h0, g, p) {
      assert IsBase(h, p) && Accounted(h0, h, p);
    }
    forall u | u in g.origins && u in g.rows
      ensures IsLegacy(h0, Former(g.rows, u)) && OriginOf(g, u) == Wanted(h0, Former(g.rows, u))
    {
      var i :| 0 <= i < |plan| && plan[i].uid == u;
      assert MovableEntry(g, plan[i]);
      assert Accounted(h0, h, plan[i].src);
    }
  }

  /** No connection the registry held is forgotten or altered. */
  lemma CommitRemembers(h0: Home, h: Home, lost: set<Place>, opts: Options, plan: seq<Entry>, g: Home)
    requires Safe(h0, h, lost) && !opts.discard
    requires Clear(h, opts) && PlanOf(h, plan) && UidsApart(plan) && CommittedTo(h, plan, g)
    ensures Remembers(h, g)
  {
    ClearMeans(h, opts);
    CommitMovable(h, opts, plan, g);
    hide IsKsuid, Clear, PlanOf, Wanted, Accounted, EntryFor, Backed, Discoverable, Named, CommittedTo;
    forall u | u in h.origins ensures OriginOf(g, u) == OriginOf(h, u) {
      BackedPlanned(h, plan, u);
      var i :| 0 <= i < |plan| && plan[i].uid == u;
      StillRecorded(h0, h, plan, g, i);
    }
  }

  lemma StillRecorded(h0: Home, h: Home, plan: seq<Entry>, g: Home, i: nat)
    requires Lawful(h) && RecordsTrue(h0, h) && PlanOf(h, plan) && CommittedTo(h, plan, g) && Movable(g, plan) && i < |plan|
    requires forall p :: IsBase(h, p) ==> Accounted(h0, h, p)
    requires forall p :: IsBase(h, p) ==> IsLegacy(h, p) && From(h.rows, p) == p
    requires plan[i].uid in h.origins
    ensures OriginOf(g, plan[i].uid) == OriginOf(h, plan[i].uid)
  {
    hide IsKsuid, Selected, Registers;
    var e := plan[i];
    assert MovableEntry(g, e) && EntryFor(h, e);
    assert Accounted(h0, h, e.src);
    SameFormer(h, g, e);
  }

  lemma SameFormer(h: Home, g: Home, e: Entry)
    requires Lawful(h) && EntryFor(h, e) && MovableEntry(g, e) && e.uid in h.rows
    ensures Former(h.rows, e.uid) == e.src
  {
    hide IsKsuid, Selected, Wanted;
  }

  // ---- the moves ----

  /** Where one planned file is, against the home g right after the commit. */
  ghost predicate EntryAt(g: Home, h: Home, e: Entry, moved: bool, upgraded: bool)
    requires e.src in g.files
  {
    if moved then
      e.src !in h.files && e.dst in h.files &&
      h.files[e.dst] == if upgraded then Upgraded(g.files[e.src]) else g.files[e.src]
    else
      e.src in h.files && h.files[e.src] == g.files[e.src] && !IsBase(h, e.dst)
  }

  ghost predicate Untouched(g: Home, h: Home, plan: seq<Entry>) {
    forall p :: (p in g.files || p in h.files) && (forall i :: 0 <= i < |plan| ==> plan[i].src != p && plan[i].dst != p) ==>
      p in h.files && p in g.files && h.files[p] == g.files[p]
  }

  ghost predicate ManifestsLeft(g: Home, h: Home, plan: seq<Entry>, k: nat)
    requires k <= |plan|
  {
    (forall m :: m in h.manifests ==> m in g.manifests && h.manifests[m] == g.manifests[m]) &&
    (forall m :: m in g.manifests && m !in h.manifests ==> exists i :: 0 <= i < k && plan[i].manifest == Some(m))
  }

  ghost predicate EntriesAt(g: Home, h: Home, plan: seq<Entry>, k: nat, j: nat) {
    forall i :: 0 <= i < |plan| ==> plan[i].src in g.files && EntryAt(g, h, plan[i], i < k, i < j)
  }

  /** The first k files have moved, the first j of them are at the new schema, and only theirs are the manifests gone. */
  ghost predicate Underway(g: Home, h: Home, plan: seq<Entry>, k: nat, j: nat) {
    j <= k <= |plan| && h.rows == g.rows && h.origins == g.origins && h.legacyControl == g.legacyControl &&
    EntriesAt(g, h, plan, k, j) && Untouched(g, h, plan) && ManifestsLeft(g, h, plan, k)
  }

  lemma Starting(g: Home, plan: seq<Entry>)
    requires Movable(g, plan)
    ensures Underway(g, g, plan, 0, 0)
  {
    forall i | 0 <= i < |plan| ensures plan[i].src in g.files && EntryAt(g, g, plan[i], false, false) {
      assert MovableEntry(g, plan[i]);
    }
  }

  /** No planned file is where another one is or goes. */
  ghost predicate PlacesApart(plan: seq<Entry>) {
    (forall i, j :: 0 <= i < |plan| && 0 <= j < |plan| ==> plan[i].src != plan[j].dst) &&
    (forall i, j :: 0 <= i < |plan| && 0 <= j < |plan| && i != j ==> plan[i].src != plan[j].src && plan[i].dst != plan[j].dst)
  }

  lemma UidsAreKsuids(g: Home, plan: seq<Entry>)
    requires Movable(g, plan)
    ensures forall u :: u in g.rows ==> IsKsuid(u)
  {
    hide IsKsuid, Wanted;
    forall u | u in g.rows ensures IsKsuid(u) {
      var i :| 0 <= i < |plan| && plan[i].uid == u;
      assert MovableEntry(g, plan[i]);
    }
  }

  lemma MovablePlaces(g: Home, plan: seq<Entry>)
    requires Movable(g, plan)
    ensures PlacesApart(plan)
  {
    hide IsKsuid, Wanted;
    forall i, j | 0 <= i < |plan| && 0 <= j < |plan|
      ensures plan[i].src != plan[j].dst
      ensures i != j ==> plan[i].src != plan[j].src && plan[i].dst != plan[j].dst
    {
      assert MovableEntry(g, plan[i]) && MovableEntry(g, plan[j]);
      if plan[i].src == plan[j].src {
        SameSource(plan, i, j);
      }
    }
  }

  lemma SourceShape(g: Home, plan: seq<Entry>, k: nat)
    requires Movable(g, plan) && k < |plan|
    ensures plan[k].src == Archive(plan[k].uid) || (plan[k].src.Repos? && plan[k].src.name !in g.rows)
    ensures plan[k].dst == Repos(plan[k].uid) && plan[k].uid in g.rows
    ensures From(g.rows, plan[k].src) == plan[k].src && From(g.rows, plan[k].dst) == plan[k].src
  {
    UidsAreKsuids(g, plan);
    hide IsKsuid, Wanted;
    assert MovableEntry(g, plan[k]);
  }

  lemma MoveFiles(g: Home, h: Home, plan: seq<Entry>, k: nat)
    requires PlacesApart(plan) && EntriesAt(g, h, plan, k, 0) && Untouched(g, h, plan) && k < |plan|
    requires plan[k].src in h.files
    ensures var h' := h.(files := Renamed(h.files, plan[k].src, plan[k].dst));
      EntriesAt(g, h', plan, k + 1, 0) && Untouched(g, h', plan)
  {
    var h' := h.(files := Renamed(h.files, plan[k].src, plan[k].dst));
    forall i | 0 <= i < |plan| ensures plan[i].src in g.files && EntryAt(g, h', plan[i], i < k + 1, false) {
      assert plan[i].src in g.files && EntryAt(g, h, plan[i], i < k, false);
      assert plan[k].src != plan[i].dst && plan[i].src != plan[k].dst;
    }
  }

  lemma MoveStep(g: Home, h: Home, plan: seq<Entry>, k: nat)
    requires Movable(g, plan) && Underway(g, h, plan, k, 0) && k < |plan|
    ensures plan[k].src in h.files
    ensures var h' := h.(files := Renamed(h.files, plan[k].src, plan[k].dst));
      Underway(g, h', plan, k + 1, 0) && KeepsSafe(h, h')
  {
    MovablePlaces(g, plan);
    SourceShape(g, plan, k);
    hide IsKsuid, Wanted, Movable, KeepsSafe, PlacesApart, Untouched, ManifestsLeft;
    assert EntryAt(g, h, plan[k], false, false);
    RenameKeeps(h, plan[k].src, plan[k].dst);
    MoveFiles(g, h, plan, k);
    ManifestsAlike(g, h, h.(files := Renamed(h.files, plan[k].src, plan[k].dst)), plan, k, k + 1);
  }

  lemma RemoveStep(g: Home, h: Home, plan: seq<Entry>, k: nat, i: nat, m: string)
    requires Movable(g, plan) && Underway(g, h, plan, k, 0) && i < k && plan[i].manifest == Some(m)
    ensures Underway(g, h.(manifests := h.manifests - {m}), plan, k, 0)
    ensures KeepsSafe(h, h.(manifests := h.manifests - {m}))
  {
    hide IsKsuid, Wanted, KeepsSafe, Untouched, ManifestsLeft, EntriesAt, Movable;
    var h' := h.(manifests := h.manifests - {m});
    RemoveManifest(g, h, plan, k, i, m);
    SameFiles(g, h, h', plan, k);
    if m in h.manifests {
      ArrivedFirst(g, h, plan, k, i, m);
      ManifestKeeps(h, m);
    } else {
      assert h' == h;
      SafeAlready(h);
    }
  }

  lemma SafeAlready(h: Home)
    ensures KeepsSafe(h, h)
  {
  }

  lemma SameFiles(g: Home, h: Home, h': Home, plan: seq<Entry>, k: nat)
    requires h.files == h'.files && EntriesAt(g, h, plan, k, 0) && Untouched(g, h, plan)
    ensures EntriesAt(g, h', plan, k, 0) && Untouched(g, h', plan)
  {
    forall j | 0 <= j < |plan| ensures plan[j].src in g.files && EntryAt(g, h', plan[j], j < k, j < 0) {
      assert plan[j].src in g.files && EntryAt(g, h, plan[j], j < k, j < 0);
    }
  }

  lemma RemoveManifest(g: Home, h: Home, plan: seq<Entry>, k: nat, i: nat, m: string)
    requires k <= |plan| && ManifestsLeft(g, h, plan, k) && i < k && plan[i].manifest == Some(m)
    ensures ManifestsLeft(g, h.(manifests := h.manifests - {m}), plan, k)
  {
  }

  lemma ArrivedFirst(g: Home, h: Home, plan: seq<Entry>, k: nat, i: nat, m: string)
    requires Movable(g, plan) && Underway(g, h, plan, k, 0) && i < k && plan[i].manifest == Some(m)
    requires m in h.manifests
    ensures UidOf(m, h.manifests[m]) == plan[i].uid
    ensures IsBase(h, Repos(plan[i].uid)) && From(h.rows, Repos(plan[i].uid)) == Archive(plan[i].uid)
  {
    SourceShape(g, plan, i);
    hide IsKsuid, Wanted;
    assert MovableEntry(g, plan[i]) && EntryAt(g, h, plan[i], true, false);
  }

  lemma UpgradeStep(g: Home, h: Home, plan: seq<Entry>, j: nat)
    requires Movable(g, plan) && Underway(g, h, plan, |plan|, j) && j < |plan|
    ensures plan[j].dst in h.files
    ensures var h' := h.(files := h.files[plan[j].dst := Upgraded(h.files[plan[j].dst])]);
      Underway(g, h', plan, |plan|, j + 1) && KeepsSafe(h, h')
  {
    MovablePlaces(g, plan);
    assert MovableEntry(g, plan[j]);
    hide IsKsuid, Selected, KeepsSafe, Movable, ManifestsLeft, Untouched, PlacesApart;
    assert EntryAt(g, h, plan[j], true, false);
    UpgradeKeeps(h, plan[j].uid);
    UpgradeFiles(g, h, plan, j);
    ManifestsAlike(g, h, h.(files := h.files[plan[j].dst := Upgraded(h.files[plan[j].dst])]), plan, |plan|, |plan|);
  }

  lemma ManifestsAlike(g: Home, h: Home, h': Home, plan: seq<Entry>, k: nat, k': nat)
    requires k <= k' <= |plan| && ManifestsLeft(g, h, plan, k) && h.manifests == h'.manifests
    ensures ManifestsLeft(g, h', plan, k')
  {
    forall m | m in g.manifests && m !in h'.manifests ensures exists i :: 0 <= i < k' && plan[i].manifest == Some(m) {
      var i :| 0 <= i < k && plan[i].manifest == Some(m);
    }
  }

  lemma UpgradeFiles(g: Home, h: Home, plan: seq<Entry>, j: nat)
    requires PlacesApart(plan) && EntriesAt(g, h, plan, |plan|, j) && Untouched(g, h, plan) && j < |plan|
    requires plan[j].dst in h.files
    ensures var h' := h.(files := h.files[plan[j].dst := Upgraded(h.files[plan[j].dst])]);
      EntriesAt(g, h', plan, |plan|, j + 1) && Untouched(g, h', plan)
  {
    var h' := h.(files := h.files[plan[j].dst := Upgraded(h.files[plan[j].dst])]);
    forall i | 0 <= i < |plan| ensures plan[i].src in g.files && EntryAt(g, h', plan[i], true, i < j + 1) {
      assert plan[i].src in g.files && EntryAt(g, h, plan[i], true, i < j);
    }
  }

  lemma KeepsSafeTransitive(a: Home, b: Home, c: Home)
    requires KeepsSafe(a, b) && KeepsSafe(b, c)
    ensures KeepsSafe(a, c)
  {
  }

  lemma RegisterNext(rows: map<string, Row>, origins: map<string, Origin>, plan: seq<Entry>, i: nat)
    requires i < |plan| && Registers(rows, origins, plan[..i]) && UidsApart(plan[..i])
    ensures plan[i].uid in rows ==> !UidsApart(plan)
    ensures var e := plan[i];
      e.uid !in rows ==>
        UidsApart(plan[..i + 1]) &&
        Registers(rows[e.uid := Row(e.name, e.archived)],
          if Recorded(e.origin).Some? then origins[e.uid := Recorded(e.origin).value] else origins, plan[..i + 1])
  {
    assert plan[..i + 1] == plan[..i] + [plan[i]];
    if plan[i].uid in rows {
      var k :| 0 <= k < |plan[..i]| && plan[..i][k].uid == plan[i].uid;
      assert plan[k].uid == plan[i].uid;
    } else {
      Register(rows, origins, plan[..i], plan[i]);
    }
  }

  lemma Register(rows: map<string, Row>, origins: map<string, Origin>, plan: seq<Entry>, e: Entry)
    requires Registers(rows, origins, plan) && UidsApart(plan) && e.uid !in rows
    ensures UidsApart(plan + [e])
    ensures Registers(rows[e.uid := Row(e.name, e.archived)],
      if Recorded(e.origin).Some? then origins[e.uid := Recorded(e.origin).value] else origins, plan + [e])
  {
    hide Recorded;
    var next := plan + [e];
    RowsFound(rows, plan, e, next);
    forall k | 0 <= k < |plan| ensures next[k] == plan[k] && next[k].uid != e.uid {
    }
    RegisterEach(rows, origins, plan, e, next);
  }

  lemma RegisterEach(rows: map<string, Row>, origins: map<string, Origin>, plan: seq<Entry>, e: Entry, next: seq<Entry>)
    requires Registers(rows, origins, plan) && e.uid !in rows
    requires |next| == |plan| + 1 && next[|plan|] == e && forall k :: 0 <= k < |plan| ==> next[k] == plan[k] && next[k].uid != e.uid
    ensures var r := rows[e.uid := Row(e.name, e.archived)];
      var o := if Recorded(e.origin).Some? then origins[e.uid := Recorded(e.origin).value] else origins;
      forall k :: 0 <= k < |next| ==>
        next[k].uid in r && r[next[k].uid] == Row(next[k].name, next[k].archived) &&
        (if next[k].uid in o then Some(o[next[k].uid]) else None) == Recorded(next[k].origin)
  {
    hide Recorded;
  }

  lemma RowsFound(rows: map<string, Row>, plan: seq<Entry>, e: Entry, next: seq<Entry>)
    requires next == plan + [e]
    requires forall u :: u in rows ==> exists i :: 0 <= i < |plan| && plan[i].uid == u
    ensures forall u :: u in rows || u == e.uid ==> exists k :: 0 <= k < |next| && next[k].uid == u
  {
    assert next[|plan|] == e;
    forall u | u in rows ensures exists k :: 0 <= k < |next| && next[k].uid == u {
      var k :| 0 <= k < |plan| && plan[k].uid == u;
      assert next[k] == plan[k];
    }
  }

  // ---- the tool ----

  datatype Result = Stopped(why: Refusal) | Ended(outcome: Outcome)

  /** A home the tool is let loose on, for `writes` more writes. */
  class Disk {
    var home: Home
    var writes: nat

    constructor (h: Home)
      ensures home == h
    {
      home := h;
      writes := 0;
    }

    /** One transaction: the whole registry, or nothing. */
    method ApplyControlDB(plan: seq<Entry>) returns (o: Outcome)
      requires SchemaHolds(home)
      modifies this
      ensures o.Done? ==> UidsApart(plan) && CommittedTo(old(home), plan, home)
      ensures o.Done? ==> forall i :: 0 <= i < |plan| ==> Registered(home.origins, plan[i].uid, plan[i].origin)
      ensures !o.Done? ==> home == old(home)
      ensures o.Failed? ==> !UidsApart(plan)
      ensures o.Died? ==> writes == 0
    {
      var rows, origins := home.rows, home.origins;
      if rows != map[] {
        rows, origins := map[], map[];
      }
      assert Registers(rows, origins, plan[..0]);
      for i := 0 to |plan|
        invariant Registers(rows, origins, plan[..i]) && UidsApart(plan[..i])
        invariant home == old(home) && writes == old(writes)
      {
        RegisterNext(rows, origins, plan, i);
        var e := plan[i];
        if e.uid in rows {
          return Failed;
        }
        rows := rows[e.uid := Row(e.name, e.archived)];
        match Recorded(e.origin)
        case None =>
        case Some(origin) => origins := origins[e.uid := origin];
      }
      assert plan[..|plan|] == plan;
      if writes == 0 {
        return Died;
      }
      writes := writes - 1;
      home := home.(rows := rows, origins := origins, legacyControl := false);
      o := Done;
    }

    /** Renames stop at the first failure, and a manifest goes only after its database has arrived. */
    method MoveRepoFiles(plan: seq<Entry>, faults: Faults) returns (o: Outcome, ghost k: nat)
      requires Movable(home, plan)
      modifies this
      ensures Underway(old(home), home, plan, k, 0) && KeepsSafe(old(home), home)
      ensures o.Done? ==> k == |plan| && forall i :: 0 <= i < |plan| && plan[i].manifest.Some? ==> plan[i].manifest.value !in home.manifests
      ensures o.Failed? ==> faults.rename != {} || faults.remove != {}
      ensures o.Died? ==> writes == 0
    {
      hide Underway, Movable, KeepsSafe;
      ghost var g := home;
      Starting(g, plan);
      MovablePlaces(g, plan);
      SafeAlready(home);
      k := 0;
      var moved := new bool[|plan|](_ => false);
      var failed := false;
      var i := 0;
      while i < |plan|
        invariant 0 <= i <= |plan| && k == i && !failed
        invariant Underway(g, home, plan, i, 0) && KeepsSafe(g, home)
        invariant forall j :: 0 <= j < |plan| ==> moved[j] == (j < i)
      {
        if plan[i].src != plan[i].dst {
          if i in faults.rename {
            failed := true;
            break;
          }
          if writes == 0 {
            return Died, k;
          }
          MoveStep(g, home, plan, i);
          KeepsSafeTransitive(g, home, home.(files := Renamed(home.files, plan[i].src, plan[i].dst)));
          writes := writes - 1;
          home := home.(files := Renamed(home.files, plan[i].src, plan[i].dst));
        }
        moved[i] := true;
        i := i + 1;
        k := i;
      }
      for j := 0 to |plan|
        invariant Underway(g, home, plan, k, 0) && KeepsSafe(g, home)
        invariant forall l :: 0 <= l < |plan| ==> moved[l] == (l < k)
        invariant failed ==> faults.rename != {} || faults.remove != {}
        invariant !failed ==> k == |plan| && forall l :: 0 <= l < j && plan[l].manifest.Some? ==> plan[l].manifest.value !in home.manifests
      {
        if plan[j].manifest.Some? && moved[j] {
          if j in faults.remove {
            failed := true;
          } else {
            if writes == 0 {
              return Died, k;
            }
            var m := plan[j].manifest.value;
            RemoveStep(g, home, plan, k, j, m);
            KeepsSafeTransitive(g, home, home.(manifests := home.manifests - {m}));
            writes := writes - 1;
            home := home.(manifests := home.manifests - {m});
          }
        }
      }
      o := if failed then Failed else Done;
    }

    /** Last of all, and only once every file has moved: opening each database drops its columns. */
    method MigrateRepoDatabases(plan: seq<Entry>, faults: Faults, ghost g: Home) returns (o: Outcome, ghost k: nat)
      requires Movable(g, plan) && Underway(g, home, plan, |plan|, 0)
      modifies this
      ensures Underway(g, home, plan, |plan|, k) && KeepsSafe(old(home), home)
      ensures home.manifests == old(home).manifests
      ensures o.Done? ==> k == |plan|
      ensures o.Failed? ==> faults.open != {}
      ensures o.Died? ==> writes == 0
    {
      hide Underway, Movable, KeepsSafe;
      SafeAlready(home);
      k := 0;
      for j := 0 to |plan|
        invariant k == j && Underway(g, home, plan, |plan|, j) && KeepsSafe(old(home), home)
        invariant home.manifests == old(home).manifests
      {
        if j in faults.open {
          return Failed, k;
        }
        if writes == 0 {
          return Died, k;
        }
        UpgradeStep(g, home, plan, j);
        KeepsSafeTransitive(old(home), home, home.(files := home.files[plan[j].dst := Upgraded(home.files[plan[j].dst])]));
        writes := writes - 1;
        home := home.(files := home.files[plan[j].dst := Upgraded(home.files[plan[j].dst])]);
        k := j + 1;
      }
      o := Done;
    }

    /**
     One run of the tool, cut off wherever `writes` runs out. It keeps every base and its connection,
     forgets no record unless told to, and when it finishes the home is converted whole.
    */
    method Run(opts: Options, minted: seq<string>, faults: Faults, ghost h0: Home, ghost lost: set<Place>) returns (r: Result)
      requires Safe(h0, home, lost) && MintedFresh(home, minted)
      modifies this
      ensures Safe(h0, home, lost)
      ensures !opts.discard ==> Remembers(old(home), home)
      ensures r.Stopped? <==> !Clear(old(home), opts)
      ensures r.Stopped? ==> Cause(old(home), opts, r.why) && home == old(home)
      ensures r == Ended(Done) ==> Converted(old(home), home)
      ensures r == Ended(Failed) ==> !ManifestsApart(old(home)) || faults != Faults({}, {}, {})
      ensures r == Ended(Died) ==> writes == 0
    {
      hide Safe, Clear, Cause, Remembers, KeepsSafe, Underway, Movable, CommittedTo, MintedFresh, Converted, ManifestsApart;
      SafeIsLawful(h0, home, lost);
      RemembersItself(home);
      var planned := PlanMigration(home, opts, minted);
      if planned.Refused? {
        return Stopped(planned.why);
      }
      var plan := planned.entries;
      ghost var h := home;
      var o := ApplyControlDB(plan);
      if !o.Done? {
        if o.Failed? {
          UidsFailToo(h, plan);
        }
        return Ended(o);
      }
      ghost var g := home;
      CommitMovable(h, opts, plan, g);
      CommitKeeps(h, opts, plan, g);
      if !opts.discard {
        CommitRemembers(h0, h, lost, opts, plan, g);
      }
      SafeCarries(h0, h, g, lost);
      ghost var k;
      o, k := MoveRepoFiles(plan, faults);
      SafeCarries(h0, g, home, lost);
      SameRecords(h, g, home, plan, k, 0);
      if !o.Done? {
        return Ended(o);
      }
      ghost var moved := home;
      o, k := MigrateRepoDatabases(plan, faults, g);
      SafeCarries(h0, moved, home, lost);
      SameRecords(h, g, home, plan, |plan|, k);
      if o.Done? {
        RunConverts(h, opts, plan, g, home);
      }
      r := Ended(o);
    }
  }

  lemma SafeIsLawful(h0: Home, h: Home, lost: set<Place>)
    requires Safe(h0, h, lost)
    ensures Lawful(h)
  {
  }

  lemma RemembersItself(h: Home)
    ensures Remembers(h, h)
  {
  }

  lemma SafeCarries(h0: Home, h: Home, g: Home, lost: set<Place>)
    requires Safe(h0, h, lost) && KeepsSafe(h, g)
    ensures Safe(h0, g, lost)
  {
  }

  lemma SameRecords(h: Home, g: Home, f: Home, plan: seq<Entry>, k: nat, j: nat)
    requires Movable(g, plan) && Underway(g, f, plan, k, j)
    ensures Remembers(h, g) ==> Remembers(h, f)
  {
  }

  /** The transaction fails only over two manifests of one uid. */
  lemma UidsFailToo(h: Home, plan: seq<Entry>)
    requires Lawful(h) && PlanOf(h, plan) && !UidsApart(plan)
    ensures !ManifestsApart(h)
  {
    hide IsKsuid, Selected;
    var i, j :| 0 <= i < j < |plan| && plan[i].uid == plan[j].uid;
    assert EntryFor(h, plan[i]) && EntryFor(h, plan[j]);
    assert Named(h, plan[j].uid);
  }

  /** Every base is under its uid at the new schema, its row says what it was, and its connection is there. */
  ghost predicate Converted(h: Home, g: Home) {
    (forall p :: IsBase(h, p) ==> p !in g.files && exists u :: ConvertedTo(h, g, p, u)) &&
    (forall p :: !IsLegacy(g, p)) &&
    (forall u :: u in g.rows ==> IsBase(h, Former(g.rows, u)) && ConvertedTo(h, g, Former(g.rows, u), u)) &&
    g.origins.Keys <= g.rows.Keys && g.manifests == map[] && !g.legacyControl &&
    StraysKept(h, g)
  }

  /** A file that is no base is left alone, unless it has the name an archived base is due. */
  ghost predicate StraysKept(h: Home, g: Home) {
    forall p :: p in h.files && h.files[p].Stray? ==>
      ((p in g.files && g.files[p].Stray?) <==> !(p.Repos? && Named(h, p.name)))
  }

  ghost predicate ConvertedTo(h: Home, g: Home, p: Place, u: string)
    requires IsBase(h, p)
  {
    u in g.rows && Former(g.rows, u) == p && Repos(u) in g.files && g.files[Repos(u)] == Base(h.files[p].id, h.files[p].root, None) &&
    IsLegacy(h, p) && Carries(g.origins, u, h.files[p].legacy.value)
  }

  lemma RunConverts(h: Home, opts: Options, plan: seq<Entry>, g: Home, f: Home)
    requires Lawful(h) && Clear(h, opts) && PlanOf(h, plan) && CommittedTo(h, plan, g)
    requires Movable(g, plan) && Underway(g, f, plan, |plan|, |plan|)
    requires forall i :: 0 <= i < |plan| && plan[i].manifest.Some? ==> plan[i].manifest.value !in f.manifests
    ensures Converted(h, f)
  {
    hide IsKsuid, Selected, Clear, Lawful, PlanOf, Movable, Underway, ConvertedTo, Named, Cause;
    ClearMeans(h, opts);
    BasesAreSources(h, plan);
    forall p | IsBase(h, p) ensures p !in f.files && exists u :: ConvertedTo(h, f, p, u) {
      var i :| 0 <= i < |plan| && plan[i].src == p;
      EntryConverts(h, plan, g, f, i);
    }
    RowsConvert(h, plan, g, f);
    NothingLegacy(h, plan, g, f);
    ManifestsGone(h, plan, g, f);
    forall p | p in h.files && h.files[p].Stray?
      ensures (p in f.files && f.files[p].Stray?) <==> !(p.Repos? && Named(h, p.name))
    {
      StrayFate(h, opts, plan, g, f, p);
    }
  }

  lemma StrayFate(h: Home, opts: Options, plan: seq<Entry>, g: Home, f: Home, p: Place)
    requires Clear(h, opts) && PlanOf(h, plan) && CommittedTo(h, plan, g)
    requires Movable(g, plan) && Underway(g, f, plan, |plan|, |plan|)
    requires p in h.files && h.files[p].Stray?
    ensures (p in f.files && f.files[p].Stray?) <==> !(p.Repos? && Named(h, p.name))
  {
    ClearMeans(h, opts);
    StrayDestination(h, plan, p);
    StrayLanding(g, plan, f, p);
  }

  lemma StrayDestination(h: Home, plan: seq<Entry>, p: Place)
    requires PlanOf(h, plan) && forall n :: Repos(n) in h.files ==> n !in h.rows
    requires p in h.files && h.files[p].Stray?
    ensures (exists i :: 0 <= i < |plan| && plan[i].dst == p) <==> p.Repos? && Named(h, p.name)
    ensures forall i :: 0 <= i < |plan| ==> plan[i].src != p
  {
    hide IsKsuid, Selected;
    if p.Repos? && Named(h, p.name) {
      var m :| m in h.manifests && UidOf(m, h.manifests[m]) == p.name;
      var i :| 0 <= i < |plan| && plan[i].manifest == Some(m);
      assert EntryFor(h, plan[i]);
      assert plan[i].dst == p;
    }
    forall i | 0 <= i < |plan| ensures plan[i].src != p && (plan[i].dst == p ==> p.Repos? && Named(h, p.name)) {
      assert EntryFor(h, plan[i]);
    }
  }

  lemma StrayLanding(g: Home, plan: seq<Entry>, f: Home, p: Place)
    requires Movable(g, plan) && Underway(g, f, plan, |plan|, |plan|)
    requires p in g.files && g.files[p].Stray? && forall i :: 0 <= i < |plan| ==> plan[i].src != p
    ensures (p in f.files && f.files[p].Stray?) <==> forall i :: 0 <= i < |plan| ==> plan[i].dst != p
  {
    hide Registers, ManifestsLeft, IsKsuid, Selected;
    if i :| 0 <= i < |plan| && plan[i].dst == p {
      assert MovableEntry(g, plan[i]) && EntryAt(g, f, plan[i], true, true);
    }
  }

  lemma RowsConvert(h: Home, plan: seq<Entry>, g: Home, f: Home)
    requires CommittedTo(h, plan, g) && Movable(g, plan) && Underway(g, f, plan, |plan|, |plan|)
    ensures forall u :: u in f.rows ==> IsBase(h, Former(f.rows, u)) && ConvertedTo(h, f, Former(f.rows, u), u)
    ensures f.origins.Keys <= f.rows.Keys && !f.legacyControl
  {
    hide IsKsuid, Selected, EntriesAt, Untouched, ManifestsLeft, Movable, ConvertedTo;
    forall u | u in f.rows ensures IsBase(h, Former(f.rows, u)) && ConvertedTo(h, f, Former(f.rows, u), u) {
      var i :| 0 <= i < |plan| && plan[i].uid == u;
      EntryConverts(h, plan, g, f, i);
    }
  }

  lemma ManifestsGone(h: Home, plan: seq<Entry>, g: Home, f: Home)
    requires PlanOf(h, plan) && CommittedTo(h, plan, g) && Underway(g, f, plan, |plan|, |plan|)
    requires forall i :: 0 <= i < |plan| && plan[i].manifest.Some? ==> plan[i].manifest.value !in f.manifests
    ensures f.manifests == map[]
  {
    hide EntryFor, EntriesAt, Untouched, Registers;
    forall m ensures m !in f.manifests {
      if m in h.manifests {
        var i :| 0 <= i < |plan| && plan[i].manifest == Some(m);
        assert plan[i].manifest.value !in f.manifests;
      }
    }
    assert f.manifests.Keys == {};
  }

  lemma BasesAreSources(h: Home, plan: seq<Entry>)
    requires PlanOf(h, plan) && forall n :: Archive(n) in h.files ==> Named(h, n)
    ensures forall p :: IsBase(h, p) ==> exists i :: 0 <= i < |plan| && plan[i].src == p
  {
    forall p | IsBase(h, p) ensures exists i :: 0 <= i < |plan| && plan[i].src == p {
      match p
      case Repos(n) =>
      case Archive(n) =>
        assert Named(h, n);
        var m :| m in h.manifests && UidOf(m, h.manifests[m]) == n;
        var i :| 0 <= i < |plan| && plan[i].manifest == Some(m);
        assert EntryFor(h, plan[i]);
    }
  }

  lemma EntryConverts(h: Home, plan: seq<Entry>, g: Home, f: Home, i: nat)
    requires CommittedTo(h, plan, g) && Movable(g, plan) && Underway(g, f, plan, |plan|, |plan|) && i < |plan|
    ensures IsBase(h, plan[i].src) && plan[i].src !in f.files
    ensures plan[i].uid in f.rows && Former(f.rows, plan[i].uid) == plan[i].src
    ensures ConvertedTo(h, f, plan[i].src, plan[i].uid)
  {
    hide IsKsuid, Selected, Registers, ManifestsLeft, Untouched, Carries, Recorded;
    assert MovableEntry(g, plan[i]) && EntryAt(g, f, plan[i], true, true);
    RecordedCarries(f.origins, plan[i].uid, h.files[plan[i].src].legacy.value);
  }

  lemma NothingLegacy(h: Home, plan: seq<Entry>, g: Home, f: Home)
    requires forall p :: IsBase(h, p) ==> exists i :: 0 <= i < |plan| && plan[i].src == p
    requires CommittedTo(h, plan, g) && Underway(g, f, plan, |plan|, |plan|)
    ensures forall p :: !IsLegacy(f, p)
  {
    hide Registers, ManifestsLeft;
    forall i | 0 <= i < |plan| ensures plan[i].src !in f.files && !IsLegacy(f, plan[i].dst) {
      assert EntryAt(g, f, plan[i], true, true);
    }
    forall p ensures !IsLegacy(f, p) {
      if forall i :: 0 <= i < |plan| ==> plan[i].src != p && plan[i].dst != p {
        assert p in f.files ==> p in g.files && f.files[p] == g.files[p];
        assert IsBase(h, p) <==> IsBase(g, p);
      }
    }
  }

  // ---- a home's whole history ----

  /** What an operator may do between runs: put a file back, finish a move by hand, lose a file. */
  datatype Event =
    | Attempt(opts: Options, minted: seq<string>, faults: Faults, writes: nat)
    | Undo(uid: string)
    | Finish(uid: string)
    | Lose(place: Place)

  predicate MayUndo(h: Home, uid: string) {
    uid in h.rows && Repos(uid) in h.files && Former(h.rows, uid) !in h.files && (h.rows[uid].archived ==> Named(h, uid))
  }

  predicate MayFinish(h: Home, uid: string) {
    uid in h.rows && Former(h.rows, uid) in h.files && Repos(uid) !in h.files
  }

  lemma HandMovesKeep(h: Home, uid: string)
    requires Lawful(h)
    ensures MayUndo(h, uid) ==> KeepsSafe(h, h.(files := Renamed(h.files, Repos(uid), Former(h.rows, uid))))
    ensures MayFinish(h, uid) ==> KeepsSafe(h, h.(files := Renamed(h.files, Former(h.rows, uid), Repos(uid))))
  {
    hide KeepsSafe;
    if uid in h.rows {
      assert From(h.rows, Former(h.rows, uid)) == Former(h.rows, uid);
    }
    if MayUndo(h, uid) {
      RenameKeeps(h, Repos(uid), Former(h.rows, uid));
    }
    if MayFinish(h, uid) {
      RenameKeeps(h, Former(h.rows, uid), Repos(uid));
    }
  }

  ghost predicate NoDiscard(events: seq<Event>) {
    forall i :: 0 <= i < |events| && events[i].Attempt? ==> !events[i].opts.discard
  }

  lemma RemembersAll(trace: seq<Home>, g: Home)
    requires trace != [] && Remembers(trace[|trace| - 1], g)
    requires forall i, j :: 0 <= i <= j < |trace| ==> Remembers(trace[i], trace[j])
    ensures forall i, j :: 0 <= i <= j < |trace + [g]| ==> Remembers((trace + [g])[i], (trace + [g])[j])
  {
    var next := trace + [g];
    forall i, j | 0 <= i <= j < |next| ensures Remembers(next[i], next[j]) {
      if j < |trace| {
        assert Remembers(trace[i], trace[j]);
      } else if i < |trace| {
        assert Remembers(trace[i], trace[|trace| - 1]);
      }
    }
  }

  /**
   Any number of runs, each cut off anywhere, with anything the operator does in between: every
   legacy base the disk has not lost is still there with its connection in it or in the registry, and
   without the discard flag no connection the registry ever held is forgotten.
  */
  method History(h0: Home, events: seq<Event>) returns (h: Home, trace: seq<Home>, lost: set<Place>)
    requires LegacyHome(h0)
    ensures Safe(h0, h, lost) && forall p :: IsBase(h0, p) && p !in lost ==> Kept(h0, h, p)
    ensures trace != [] && trace[0] == h0 && trace[|trace| - 1] == h
    ensures NoDiscard(events) ==> forall i, j :: 0 <= i <= j < |trace| ==> Remembers(trace[i], trace[j])
    ensures (forall e :: e in events ==> !e.Lose?) ==> lost == {}
  {
    hide Safe, KeepsSafe, Remembers, LegacyHome, Kept;
    var disk := new Disk(h0);
    LegacySafe(h0);
    RemembersItself(h0);
    trace, lost := [h0], {};
    for n := 0 to |events|
      invariant fresh(disk) && Safe(h0, disk.home, lost)
      invariant trace != [] && trace[0] == h0 && trace[|trace| - 1] == disk.home
      invariant NoDiscard(events) ==> forall i, j :: 0 <= i <= j < |trace| ==> Remembers(trace[i], trace[j])
      invariant (forall e :: e in events ==> !e.Lose?) ==> lost == {}
    {
      var was := disk.home;
      SafeIsLawful(h0, was, lost);
      RemembersItself(was);
      match events[n] {
        case Attempt(opts, minted, faults, writes) =>
          if MintedFresh(disk.home, minted) {
            disk.writes := writes;
            var r := disk.Run(opts, minted, faults, h0, lost);
          }
        case Undo(uid) =>
          HandMovesKeep(was, uid);
          if MayUndo(disk.home, uid) {
            disk.home := disk.home.(files := Renamed(disk.home.files, Repos(uid), Former(disk.home.rows, uid)));
            SafeCarries(h0, was, disk.home, lost);
            SameOrigins(was, disk.home);
          }
        case Finish(uid) =>
          HandMovesKeep(was, uid);
          if MayFinish(disk.home, uid) {
            disk.home := disk.home.(files := Renamed(disk.home.files, Former(disk.home.rows, uid), Repos(uid)));
            SafeCarries(h0, was, disk.home, lost);
            SameOrigins(was, disk.home);
          }
        case Lose(place) =>
          if place in disk.home.files {
            LossKeeps(h0, was, lost, place);
            lost := lost + {From(was.rows, place)};
            disk.home := disk.home.(files := disk.home.files - {place});
            SameOrigins(was, disk.home);
          }
      }
      if NoDiscard(events) {
        RemembersAll(trace, disk.home);
      }
      var longer := trace + [disk.home];
      assert longer[0] == trace[0] && longer[|longer| - 1] == disk.home;
      trace := longer;
    }
    h := disk.home;
    AllKept(h0, h, lost);
  }

  lemma SameOrigins(h: Home, g: Home)
    requires h.origins == g.origins
    ensures Remembers(h, g)
  {
  }

  /** The base that began at p is there, at p or under the uid registered for it, and its connection is
      in it or in the registry. */
  ghost predicate Kept(h0: Home, h: Home, p: Place)
    requires IsBase(h0, p)
  {
    IsLegacy(h0, p) && exists q ::
      IsBase(h, q) && h.files[q].id == h0.files[p].id &&
      (q == p || (q.Repos? && q.name in h.rows && Former(h.rows, q.name) == p)) &&
      (h.files[q].legacy == h0.files[p].legacy || Registry(h, p, h0.files[p].legacy.value))
  }

  /** The registry holds what these remotes say, under a uid whose file was at p. */
  ghost predicate Registry(h: Home, p: Place, remotes: seq<Remote>) {
    exists u :: u in h.rows && Former(h.rows, u) == p && Carries(h.origins, u, remotes)
  }

  /** What safety means to the owner of one repository. */
  lemma NothingLost(h0: Home, h: Home, lost: set<Place>, p: Place)
    requires Safe(h0, h, lost) && IsBase(h0, p) && p !in lost
    ensures Kept(h0, h, p)
    ensures p.Archive? && Named(h0, p.name) && !Named(h, p.name) ==>
      IsBase(h, Repos(p.name)) && h.files[Repos(p.name)].id == h0.files[p].id
  {
    hide Lawful, RecordsTrue, Carries, Recorded, Selected;
    var q :| IsBase(h, q) && From(h.rows, q) == p;
    assert Accounted(h0, h, q);
    if u :| u in h.rows && Former(h.rows, u) == p && OriginOf(h, u) == Wanted(h0, p) {
      RecordedCarries(h.origins, u, h0.files[p].legacy.value);
      assert Registry(h, p, h0.files[p].legacy.value);
    }
    if p.Archive? && Named(h0, p.name) && !Named(h, p.name) {
      assert p == Archive(p.name);
      assert Accounted(h0, h, Repos(p.name));
    }
  }

  // And what the registry holds is what some base's remotes said.
  lemma RecordsHonest(h0: Home, h: Home, lost: set<Place>, u: string)
    requires Safe(h0, h, lost) && u in h.origins
    ensures u in h.rows && IsLegacy(h0, Former(h.rows, u)) && Carries(h.origins, u, h0.files[Former(h.rows, u)].legacy.value)
  {
    hide Carries, Recorded, Selected, NothingBuried, Discoverable, IsKsuid;
    RecordedCarries(h.origins, u, h0.files[Former(h.rows, u)].legacy.value);
  }

  lemma AllKept(h0: Home, h: Home, lost: set<Place>)
    requires Safe(h0, h, lost)
    ensures forall p :: IsBase(h0, p) && p !in lost ==> Kept(h0, h, p)
  {
    hide Safe, Kept;
    forall p | IsBase(h0, p) && p !in lost ensures Kept(h0, h, p) {
      NothingLost(h0, h, lost, p);
    }
  }

  /** A stray file, an archived base due the stray's name, and its manifest. */
  function StrayHome(uid: string): Home {
    Home(map[Repos(uid) := Stray, Archive(uid) := Base(0, "", Some([]))], map["m" := Manifest(uid, "old")], map[], map[], true)
  }

  /** It is converted without a question, and the stray is gone. */
  lemma StrayBuried(uid: string, opts: Options)
    requires IsKsuid(uid)
    ensures LegacyHome(StrayHome(uid)) && Clear(StrayHome(uid), opts)
    ensures forall g :: Converted(StrayHome(uid), g) ==> !(Repos(uid) in g.files && g.files[Repos(uid)].Stray?)
  {
    hide IsKsuid;
    var h := StrayHome(uid);
    assert UidOf("m", h.manifests["m"]) == uid || uid == "";
    assert uid != "" by { EmptyIsNoKsuid(uid); }
    forall u ensures Named(h, u) <==> u == uid {
      assert "m" in h.manifests && UidOf("m", h.manifests["m"]) == uid;
    }
    forall g | Converted(h, g) ensures !(Repos(uid) in g.files && g.files[Repos(uid)].Stray?) {
      assert Repos(uid) in h.files && h.files[Repos(uid)].Stray?;
    }
  }

  lemma EmptyIsNoKsuid(uid: string)
    requires IsKsuid(uid)
    ensures uid != ""
  {
  }

  /** A converted home is refused, forced or not. */
  lemma ConvertedRefused(h: Home, g: Home, opts: Options)
    requires Converted(h, g)
    ensures !Clear(g, opts)
  {
    hide IsKsuid, Selected;
    if u :| u in g.rows {
      assert ConvertedTo(h, g, Former(g.rows, u), u);
      assert Cause(g, opts, NamedAfterUid(u));
    } else if p :| p in g.files && g.files[p].Base? {
      assert IsBase(g, p) && !IsLegacy(g, p);
      match p
      case Repos(n) => assert Cause(g, opts, PastSchema(p));
      case Archive(n) => assert Cause(g, opts, Orphan(n));
    } else {
      assert Cause(g, opts, NothingToMigrate);
    }
  }

  /** A forced run over an untouched commit plans what the first one did, uids and all. */
  lemma ForcedRunAgrees(h: Home, opts: Options, plan: seq<Entry>, g: Home, again: seq<Entry>, i: nat)
    requires Lawful(h) && Clear(h, opts) && PlanOf(h, plan) && UidsApart(plan) && CommittedTo(h, plan, g)
    requires PlanOf(g, again) && i < |plan|
    ensures exists j :: 0 <= j < |again| && again[j] == plan[i]
  {
    ClearMeans(h, opts);
    CommitMovable(h, opts, plan, g);
    CommitLawful(h, opts, plan, g);
    ClearMeansFor(h, g);
    hide Clear, IsKsuid, Selected, Lawful, Registers, Movable;
    EntryKept(h, plan, g, i);
    if plan[i].archived {
      var j :| 0 <= j < |again| && again[j].manifest == plan[i].manifest;
      EntryAgain(g, plan[i], again[j]);
    } else {
      assert IsBase(g, Repos(plan[i].name));
      var j :| 0 <= j < |again| && again[j].src == plan[i].src;
      EntryAgain(g, plan[i], again[j]);
    }
  }

  lemma EntryKept(h: Home, plan: seq<Entry>, g: Home, i: nat)
    requires PlanOf(h, plan) && CommittedTo(h, plan, g) && i < |plan|
    ensures EntryFor(h, plan[i])
    ensures plan[i].uid in g.rows && g.rows[plan[i].uid] == Row(plan[i].name, plan[i].archived)
    ensures g.files == h.files && g.manifests == h.manifests
    ensures plan[i].archived ==> plan[i].manifest.Some? && plan[i].manifest.value in g.manifests
    ensures !plan[i].archived ==> IsBase(g, Repos(plan[i].name)) && plan[i].src == Repos(plan[i].name)
    ensures EntryLike(g, plan[i])
  {
  }

  /** An entry, but for where its uid came from. */
  ghost predicate EntryLike(h: Home, e: Entry) {
    IsLegacy(h, e.src) && e.origin == Selected(h.files[e.src].legacy.value) && e.dst == Repos(e.uid) &&
    (if e.archived then
      e.src == Archive(e.uid) && e.manifest.Some? && e.manifest.value in h.manifests &&
      UidOf(e.manifest.value, h.manifests[e.manifest.value]) == e.uid &&
      e.name == (if h.manifests[e.manifest.value].name == "" then e.uid else h.manifests[e.manifest.value].name)
    else e.src == Repos(e.name) && e.manifest == None)
  }

  lemma EntryAgain(g: Home, d: Entry, e: Entry)
    requires SchemaHolds(g) && EntryLike(g, d) && EntryFor(g, e)
    requires d.uid in g.rows && g.rows[d.uid] == Row(d.name, d.archived)
    requires if d.archived then e.manifest == d.manifest else e.src == d.src
    ensures d == e
  {
    hide IsKsuid, Selected;
  }

  lemma ClearMeansFor(h: Home, g: Home)
    requires g.files == h.files && g.manifests == h.manifests
    ensures forall p :: IsBase(g, p) <==> IsBase(h, p)
    ensures forall u :: Named(g, u) <==> Named(h, u)
  {
    forall u ensures Named(g, u) <==> Named(h, u) {
    }
    forall p ensures IsBase(g, p) <==> IsBase(h, p) {
    }
  }

  /**
   A run that died right after its transaction can be forced again, unless it planned nothing or a
   stray file has the name an archived base is due.
  */
  lemma ForcedRunAllowed(h: Home, opts: Options, plan: seq<Entry>, g: Home)
    requires Lawful(h) && Clear(h, opts) && PlanOf(h, plan) && UidsApart(plan) && CommittedTo(h, plan, g)
    ensures Clear(g, Options(true, false)) <==> plan != [] && forall u :: Named(h, u) ==> Repos(u) !in h.files
  {
    ClearMeans(h, opts);
    hide Lawful, PlanOf, UidsApart, CommittedTo, Cause, Named, IsKsuid;
    var again := Options(true, false);
    if plan == [] {
      EmptyPlanStops(h, opts, plan, g);
    } else if u :| Named(h, u) && Repos(u) in h.files {
      TakenNameStops(h, plan, g, u);
    } else {
      forall why ensures !Cause(g, again, why) {
        assert !Cause(h, opts, why);
        StillNoCause(h, opts, plan, g, why);
      }
    }
  }

  lemma EmptyPlanStops(h: Home, opts: Options, plan: seq<Entry>, g: Home)
    requires PlanOf(h, plan) && CommittedTo(h, plan, g) && plan == []
    requires forall n :: Archive(n) in h.files ==> Named(h, n)
    ensures !Clear(g, Options(true, false))
  {
    BasesAreSources(h, plan);
    assert forall p :: p in g.files && !g.files[p].Stray? ==> IsBase(h, p);
    assert Cause(g, Options(true, false), NothingToMigrate);
  }

  lemma TakenNameStops(h: Home, plan: seq<Entry>, g: Home, u: string)
    requires PlanOf(h, plan) && CommittedTo(h, plan, g) && Named(h, u) && Repos(u) in h.files
    ensures !Clear(g, Options(true, false))
  {
    NamedRegistered(h, plan, g, u);
    assert Cause(g, Options(true, false), NamedAfterUid(u));
  }

  lemma NamedRegistered(h: Home, plan: seq<Entry>, g: Home, u: string)
    requires PlanOf(h, plan) && CommittedTo(h, plan, g) && Named(h, u)
    ensures u in g.rows
  {
    hide IsKsuid, Selected;
    var m :| m in h.manifests && UidOf(m, h.manifests[m]) == u;
    var i :| 0 <= i < |plan| && plan[i].manifest == Some(m);
    assert EntryFor(h, plan[i]);
  }

  lemma RegisteredBacked(h: Home, plan: seq<Entry>, g: Home, u: string)
    requires PlanOf(h, plan) && CommittedTo(h, plan, g) && u in g.rows
    requires forall n :: Repos(n) in h.files ==> n !in h.rows
    ensures Backed(g, u) && (Repos(u) in h.files ==> Named(h, u))
  {
    hide IsKsuid, Selected;
    ClearMeansFor(h, g);
    var i :| 0 <= i < |plan| && plan[i].uid == u;
    assert EntryFor(h, plan[i]);
    if plan[i].archived {
      assert Named(h, u);
    }
  }

  lemma StillNoCause(h: Home, opts: Options, plan: seq<Entry>, g: Home, why: Refusal)
    requires PlanOf(h, plan) && CommittedTo(h, plan, g) && plan != [] && !Cause(h, opts, why)
    requires forall u :: Named(h, u) ==> Repos(u) !in h.files
    requires forall n :: Repos(n) in h.files ==> n !in h.rows
    ensures !Cause(g, Options(true, false), why)
  {
    ClearMeansFor(h, g);
    PlanIsOfBases(h, plan);
    hide PlanOf, IsKsuid, Named, Backed, Registers;
    match why
    case Unbacked(uid) =>
      if uid in g.origins { RegisteredBacked(h, plan, g, uid); }
    case NamedAfterUid(name) =>
      if name in g.rows { RegisteredBacked(h, plan, g, name); }
    case NothingToMigrate =>
      var p :| p in h.files && !h.files[p].Stray?;
      assert p in g.files && !g.files[p].Stray?;
    case _ =>
  }
}
