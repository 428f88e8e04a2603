# knomit: verified models of its protocols and transformations

knomit keeps a knowledge base as facts in git-backed repositories. This project models the parts of it whose
correctness spans many functions, calls or runs, and proves what they promise. `dafny verify dfyconfig.toml` checks
all of it.

| modules | what they model |
|---|---|
| `Lifecycle`, `Namespace`, `Agreement`, `Parting`, `Crossings`, `Scripts`, `Managers` | repo and lens names under concurrent create, rename, archive and restore: a step machine split at every lock and SQL boundary, two invariants over its runs, exactly when names stop agreeing, runs in which they do, and the calls as imperative methods whose every execution is a run of the machine, whose every outcome was so in a state passed through, and which alone do exactly what they say or nothing |
| `StoreHandle` | the refcounted store handle: acquire, release, detach, drain, close, attach, in any interleaving |
| `Hub` | single-flight background tasks and what their listeners show |
| `Learn`, `RefGate`, `RefSyntax`, `Strings` | the write pipeline: folding a batch into near-duplicates, the reference gate over a whole append-only history, and the reference grammar it parses |
| `Federate`, `Fingerprint`, `Paging`, `Explain` | reading several mounts as one: fusion, the copy that wins, wire paths, snapshot paging, the read set's fingerprint, and the paged breadth-first provenance walk |
| `Bundle`, `Hubs`, `Roundtrip` | the OKF bundle: paths planned first, documents rendered after, every relative link; hub file names; taking generated sections off again |
| `Migration` | the one-shot registry migration over any number of runs, crashes, failures and operator moves |
| `RulesCache`, `Retry` | the string-keyed rule cache against a walk of the ontology tree; two nested retry layers that must not repeat output |
| `Sorting`, `Decimal`, `Wrappers` | shared definitions |

Calls into SQLite, git, the network, the embedder and the rule engine are parameters or single atomic steps. Other
calls' interference, crash points, failing statements and clock jitter are parameters too, and every theorem holds for
all of them.

## What the proofs found

- **Names can end up disagreeing.** Map keys, instance names and registry rows agree over every run in which no rename
  passes its check toward a name from which another rename of the same repo is under way, and no restore starts while a
  rename or another restore of the repo is. Each clause matters: from any quiet agreeing state with the names they use
  free, `Crossings.RenamesChase` (five renames, three of them overlapping), `Crossings.RestoreCrossesRename` (a rename,
  an archive and a restore) and `Crossings.RestoresOverlap` (two restores of an archived repo) end quiet with a row and
  a live name apart. The exact condition, whatever calls overlap: names agree at every state of a run, up to what calls
  in flight have written, if and only if every step meets its guard (`Parting.AgreesExactly`). Something is asked of a
  rename's or restore's row write, of landing, of taking a written row back and of putting a name back; every other step
  keeps agreement always. The comment above the conditional revert (internal/repos/lifecycle.go:1396-1409) says it "can never clobber a legitimate
  concurrent rename of the same uid".
- **A store can leak.** Every generation is closed exactly once at shutdown if and only if nothing was ever attached
  over a live handle (`StoreHandle.AllClosedOnce`); two swaps that both detach before either attaches do that
  (`StoreHandle.SwapsLeak` is such a run of file-backed swaps, `StoreHandle.MemorySwapsLeak` of in-memory ones).
- **A listener can show a finished task as running for good.** The last event is broadcast before the hub notes it, and
  a listener that subscribes in between gets a snapshot that says "running" and no event: `Hub.ListenerMissesEnd` is such
  a run, `Hub.LateListeners` and `Hub.LateExactly` say exactly when it happens.
- **A skipped fact can be linked.** A fact whose document fails to render keeps its planned path, so every link to it
  dangles; all links of a bundle lead somewhere if and only if no skipped fact is linked (`Bundle.LinksLead`). The
  comment in `renderHubs` (internal/okf/hubs.go:128) says a skipped fact never appears in a hub; it does.
- **"Cited by" misses references.** A citation links its fact in whatever form it is written, but only the fact's own
  path, verbatim, lists it: every fact linked lists the citing one if and only if each local reference is there in that
  form too (`Bundle.CitersComplete`; `Bundle.CanonicalCitationNotListed` is a case).
- **Stripping generated sections has an exact condition.** The last authored occurrence of a generated heading that would
  come before the first section present (any of them, when none is) swallows what follows it, unless another top-level
  heading does (`Roundtrip.StripRestores`).
- **A page can be empty with more to come**: if and only if more than three windows of rows are left and no row of the
  first three can be read (`Paging.EmptyPageWithMore`, part of `Paging.Session.Resume`).
- **Merged recency order keeps a mount's own order** only when its list already falls (`Federate.MergeOrders`).
- **A path filter can hide rows.** A mount is skipped when its topics do not include the filter's, compared as written,
  while the store matches with LIKE, which ignores ASCII case and has wildcards. So "kb/Decisions/" skips a mount that
  lists "decisions" and holds a match (`Federate.CapitalFilterSkips`). Skipping costs no mount a row it lists the topic
  of if and only if what the filter pins is lower-case and without wildcards (`Federate.SkipLoses`).
- **A slash in an ontology key** below the second level, where the parser does not look, can make two nodes share one
  place in the rule cache (`RulesCache.SlashKeysCollide`), and validation then misses a failure
  (`RulesCache.SlashMisvalidates`). The cache answers for every node if and only if no two nodes of one joined key differ
  in their rules (`RulesCache.BuildRulesCache`); what is run along topic paths is what the tree has if and only if every
  node a path can lead to has its own rules cached (`RulesCache.ServesExactly`).
- **The migration overwrites a stray file** that has the name an archived database is due, and such a file also stops
  the forced second run (`Migration.StrayBuried`, `Migration.Disk.Run`, `Migration.ForcedRunAllowed`).
- **An empty repo id** is documented as gating nothing (internal/refs/refs.go:84-88), yet the gate can reject a batch if
  and only if a fact of it carries a new schemeless reference to something outside it (`RefGate.NoIdStillGates`,
  `RefGate.NoIdRejects`).

## Model

| member | source | states |
|---|---|---|
| Lifecycle.ReservationsKept | internal/repos/lifecycle.go:281-304 | every step keeps each reserved name held by at most one call, whichever calls interleave |
| Lifecycle.LockKept | internal/repos/lifecycle.go:997-1029 | a call inside its locked section holds the manager's lock |
| Namespace.NamespaceKept | internal/repos/lifecycle.go:354-370 | every step keeps: no live repo name is a lens name, and a call past its last check still has its name free |
| Namespace.NoSharedNames | internal/repos/lifecycle.go:1500-1571 | over every run of create, restore, rename, lens put, lens delete and archive, no live repo ever shares a name with a lens |
| Agreement.AgreeKept | internal/repos/lifecycle.go:1335-1435 | every orderly step keeps the inductive invariant tying rows, live map, shown names and calls in flight |
| Agreement.NamesAgree | internal/repos/lifecycle.go:1335-1435 | over every orderly run each live entry's row is active and named by its key or by an unresolved rename's target, and whenever no call is under way keys, instance names and active rows coincide |
| Parting.StepExactly | internal/repos/lifecycle.go:1335-1435 | from a state in agreement each step, of whatever calls, keeps agreement if and only if it meets its guard on the state it is taken in |
| Parting.AgreesExactly | internal/repos/lifecycle.go:1293-1435 | from a quiet agreeing start names agree at every state of a run if and only if every step of it meets its guard |
| Parting.QuietAgreement | internal/repos/lifecycle.go:1293-1334 | agreement as the guards keep it is, when no call is under way, keys, instance names and active rows coinciding |
| Parting.OrderlyIsGuarded | internal/repos/lifecycle.go:1335-1435 | every orderly run meets every guard |
| Crossings.RestoreCrossesRename | internal/repos/lifecycle.go:1113-1175 | from any quiet agreeing state a restore that read a name mid-rename ends live under one name with its row under another |
| Crossings.RenamesChase | internal/repos/lifecycle.go:1384-1421 | from any quiet agreeing state with three free names, a run of five renames, three of them overlapping, ends with the row and the live name apart |
| Crossings.RestoresOverlap | internal/repos/lifecycle.go:1113-1175 | from any quiet agreeing state with an archived repo and two free names, two restores of it both succeed and leave it live under both with one row |
| Managers.Manager.RenameRepo | internal/repos/lifecycle.go:1335-1435 | whatever others do in between, each outcome takes its own exact sequence of steps, keeps the history a run, and was so in a state the call passed through (name in flight, live, a lens's, row moved on, lock held, repo not there); with nobody in between the outcome is the first obstacle met, done exactly if there is none, and everything is as it was unless it is done |
| Managers.Manager.CommitRename | internal/repos/lifecycle.go:1384-1431 | the conditional write, the swap revalidated under the lock, and the revert when the map had moved on, each outcome true of a state passed through |
| Managers.Manager.Claim | internal/repos/lifecycle.go:1349-1369 | reserve, then look for a repo, then for a lens; the name stays reserved only when both looks pass, and a refusal was true where the call looked |
| Managers.Manager.ArchiveRepo | internal/repos/lifecycle.go:976-1032 | the row of the repo found is archived before the map drops it, in one hold of the lock; an outcome was true of a state passed through; alone, it is done exactly if the lock is free, the repo live with its row there and in no lens, and else changes nothing |
| Managers.Manager.CreateRepo | internal/repos/lifecycle.go:330-480 | whatever others do, an outcome was true of a state the call passed through: a name called live was live, one called a lens's was a lens's, an identifier called used was used, a lock called held was held; a failed creation deletes its row before it releases the name; alone, with no failure, it is done if and only if the lock is free, the identifier new and the name in none of live repos, lenses, reservations and active rows, and unless it is done everything is as it was |
| Managers.Manager.RestoreRepo | internal/repos/lifecycle.go:1113-1175 | rename, activate, register; a failed open archives the row and gives it its name back before releasing; every outcome was true of a state passed through; alone, it is done if and only if the row is archived, the lock free and the name in none of live repos, lenses, reservations and other active rows, and a refusal leaves everything as it was |
| Managers.Manager.PutLens | internal/repos/lifecycle.go:1500-1571 | a lens is named under one hold of the lock, from the look for a repo to the write; every outcome was true of a state passed through; alone, it is done exactly if the old lens is there and the name free of reservations, repos and lenses, and a refusal leaves everything as it was |
| Scripts.RenameAlone | internal/repos/lifecycle.go:1335-1435 | from any state, a rename whose steps none interrupt ends with the outcome and the state given by the obstacles in that state, in the order it meets them |
| Scripts.CreateAlone | internal/repos/lifecycle.go:330-480 | the same of a create: it leaves row, live entry and shown name, or everything as it was |
| Scripts.RestoreAlone | internal/repos/lifecycle.go:1113-1175 | the same of a restore: a failed activation or open gives the row its state and name back |
| Scripts.ArchiveAlone | internal/repos/lifecycle.go:976-1032 | the same of an archive |
| Scripts.LensAlone | internal/repos/lifecycle.go:1500-1571 | the same of naming a lens |
| Managers.ManagerNamesApart | internal/repos/lifecycle.go:85-99 | every execution of the methods inherits: no live repo ever shared a name with a lens |
| Managers.ManagerNamesAgree | internal/repos/lifecycle.go:1293-1334 | and, with orderly calls, the agreement of names |
| StoreHandle.HandleKept | internal/repos/instance.go:216-237 | every step of readers, closers and swappers keeps the handle invariant (who holds, who drains, who owns each generation) |
| StoreHandle.ClosedSafely | internal/repos/instance.go:26-40 | no generation is closed while an acquirer holds it, nor closed twice |
| StoreHandle.NoAddAfterWait | internal/repos/instance.go:26-40 | no count is added to a generation after its wait began |
| StoreHandle.ClosedForGood | internal/repos/builder.go:713-727 | once closed, nothing is acquired or attached |
| StoreHandle.AllClosedOnce | internal/repos/swapstore.go:122-130 | at a quiet closed end no generation has users, and all are closed exactly once if and only if nothing was attached over a live handle |
| StoreHandle.SwapsLeak | internal/repos/swapstore.go:136-166 | a run from a new instance: two file-backed swaps that both detach before either attaches leave a generation nobody will close |
| StoreHandle.MemorySwapsLeak | internal/repos/swapstore.go:113-134 | the same of two in-memory swaps, which attach before they drain |
| StoreHandle.Instance.Acquire | internal/repos/instance.go:173-186 | which error when, and one count taken on the current generation otherwise |
| StoreHandle.Instance.DetachStore | internal/repos/instance.go:216-227 | hands over the handle and leaves none, marking closed when asked |
| StoreHandle.Instance.AttachStore | internal/repos/instance.go:229-237 | refused once closed |
| StoreHandle.AcquireSection | internal/repos/instance.go:173-186 | the method's effect is that of the step machine's lock section taken in one go |
| Hub.InvKept | internal/repos/hub.go:68-160 | every step keeps the hub's books, the order of broadcasts and what listeners show |
| Hub.SingleFlight | internal/repos/hub.go:68-131 | over every run at most one live task an operation, active exactly while live; nothing of a task after its last event or after a later task's |
| Hub.LateListeners | internal/repos/hub.go:109-118 | once an operation has ended a listener shows its last event if and only if it did not start listening between broadcast and bookkeeping |
| Hub.ListenerMissesEnd | internal/repos/hub.go:109-118 | a run in which a listener arrives between broadcast and bookkeeping and shows a finished task as running |
| Hub.LateExactly | internal/repos/hub.go:162-184 | precisely which steps make a listener late, and which cure it |
| Hub.ShownAtFirst | internal/repos/hub.go:162-184 | over every run whoever begins to listen is shown, of each running operation, the progress its task is about to broadcast or else the last it has, and of each other its last event |
| Hub.TaskIdsDiffer | internal/repos/hub.go:80-81 | task ids never collide, however operations are named |
| Hub.TaskHub.StartTask | internal/repos/hub.go:68-88 | refused exactly while the operation is active, else a new live task |
| Hub.TaskHub.Note | internal/repos/hub.go:93-107 | an event is accepted unless its task has had its last; progress accepted becomes the operation's entry among the active ones, a last event does not |
| Learn.Batch.ApplyDedupMerge | internal/mcp/learn.go:423-589 | the in-place fold leaves facts, paths, files, retractions, prior refs and donated embeddings exactly as told: the first public input to find a stored fact settles it, if that is a hypothesis and the input is none, or merges at its path, with the words of the more confident, of the incoming one when they tie and it has no fewer sources; exactly the hypotheses settled are retracted, and a vector is donated exactly where the input's own words are written; it fails if and only if some fact cannot be written |
| Learn.AbsorbedOnce | internal/mcp/learn.go:423-589 | an existing fact that is hit absorbs exactly one input |
| Learn.FinalComesTo | internal/mcp/learn.go:423-589 | what an input comes to, told without how it is computed |
| Learn.RetractsApart | internal/mcp/learn.go:386-392 | retractions are distinct stored hypotheses and none is a final path |
| Learn.MergeKeeps | internal/mcp/learn.go:323-372 | a merge takes title, body, kind, type and origin from the fact of higher confidence, on a tie from the incoming one unless it has fewer sources; the confidence is the higher, sources add up, and refs, domains and entities are the first occurrences of the incoming ones, the stored ones and, for refs, the stored path, in that order |
| Learn.NoBodyLost | internal/mcp/learn.go:348-372 | an input's words are kept unless it merged into a stored fact of higher confidence, or of the same with more sources, whose words then are; where a vector is donated the input's own words are written |
| Learn.SourcesConserved | internal/mcp/learn.go:348-372 | source counts are conserved: the final total is the inputs' plus the merged facts' |
| Learn.DonationsDescribe | internal/mcp/learn.go:396-421 | every donated embedding is of the title and body written at its path |
| Learn.Batch.FoldOne | internal/mcp/learn.go:447-575 | one input's fold: merged, subsumed or left, told in confidences and sources, with every parallel structure moved along |
| Learn.ComputeEvidenceWeights | internal/mcp/learn.go:597-618 | weights are stamped with facts and files still in step; fails only on an unserializable fact |
| Learn.CoherentAfter | internal/mcp/learn.go:674-768 | later stages keep: distinct paths, files' keys the paths, each file its fact's serialization, retractions apart, embeddings of what is written |
| Learn.LearnCall | internal/mcp/learn.go:674-768 | the call commits if and only if the fresh paths are distinct, every fact can be folded and written as weighed and as stored, and the gate accepts exactly the final references; and then it writes one coherent batch of the facts as told above, weighed and canonical, with exactly the settled hypotheses retracted and exactly the vectors of inputs whose own words are written |
| Strings.UnionStrings | internal/fact/strings.go:5-22 | the union is the first occurrences of both lists in order |
| Strings.FirstsInOrder | internal/fact/strings.go:5-22 | first occurrences keep their order |
| RefSyntax.ScanScheme | internal/fact/ref.go:181-198 | accepts exactly a scheme of section 3.1 of RFC 3986 followed by ':' |
| RefSyntax.KbRoundTrip | internal/fact/ref.go:204-218 | parsing undoes qualifying |
| RefSyntax.KbParsed | internal/fact/ref.go:204-215 | a kb:// path parses exactly when it is an id and a path qualified, and to those |
| RefSyntax.PartsOfPrint | internal/fact/ref.go:119-160 | printing an unambiguous citation and taking it apart gives it back |
| RefSyntax.SrcParsesPrint | internal/fact/ref.go:119-160 | classifying a printed citation gives its fields |
| RefSyntax.SrcAccepted | internal/fact/ref.go:119-160 | a src:// string is accepted if and only if it is the print of an unambiguous citation, which is then the only one |
| RefSyntax.FullSrcRoundTrip | internal/fact/ref.go:119-160 | a full citation comes back for any slash-free repo, any path, 40-hex commit and blob, and any line range |
| RefSyntax.RangeParses | internal/fact/ref.go:162-179 | every printed line range parses to itself |
| RefSyntax.CanonicalIsLocal | internal/fact/ref.go:77-109 | a canonical reference to this repo classifies as local with the same target |
| RefGate.Canonicalize | internal/refs/refs.go:233-263 | the loop computes the canonical list and reports a change exactly when there is one |
| RefGate.CanonicalForm | internal/refs/refs.go:233-263 | idempotent, no target twice, the same targets denoted, others' references untouched, own ones qualified |
| RefGate.CanonicalInOrder | internal/refs/refs.go:233-263 | first occurrences keep their order |
| RefGate.CanonDenotes | internal/refs/refs.go:233-263 | two references have one canonical form if and only if they denote one target |
| RefGate.PathSet | internal/refs/refs.go:202-215 | exactly the local targets |
| RefGate.LocalExactly | internal/fact/ref.go:77-109 | a reference is local if and only if it has no scheme or is a kb:// path of this repo, and then names its path in lower case |
| RefGate.CheckBatch | internal/refs/refs.go:136-197 | accepts exactly when every new local reference resolves in the batch or the branch; a rejection lists exactly the failing ones |
| RefGate.GateKeepsResolved | internal/refs/refs.go:22-46 | on a resolved history the gate accepts a batch if and only if the history with it is resolved |
| RefGate.NoIdStillGates | internal/refs/refs.go:84-88 | without a repo id some resolver makes the gate reject a batch if and only if a fact of it carries a new schemeless reference to something outside it |
| RefGate.NoIdRejects | internal/refs/refs.go:84-88 | such a batch, and one with a kb:// reference that is let through |
| RefGate.EveryRefResolves | internal/refs/refs.go:22-46 | over every run of gated writes each local reference of each stored version resolves at its own commit and ever after |
| RefGate.LearnIsHonest | internal/mcp/learn.go:423-589 | the prior references a learn call exempts are stored ones |
| RefGate.LearnKeepsResolved | internal/mcp/learn.go:741-768 | a whole learn call, with merges, carried references and subsumed hypotheses, keeps the history resolved |
| Federate.FuseRRF | internal/federate/federate.go:38-59 | the loop and sort compute the fused order |
| Federate.FusionOrders | internal/federate/federate.go:38-59 | the fused order has every row once, keeps each mount's order and goes by rank, then mount |
| Federate.FusionOfOne | internal/federate/federate.go:38-59 | the identity for one mount |
| Federate.MergeRecent | internal/federate/federate.go:65-86 | the loop and sort compute the capped merged order |
| Federate.MergeOrders | internal/federate/federate.go:65-86 | every row once, newest first, ties by mount and rank; each mount's own order is kept if and only if its list falls |
| Federate.WriteFirstWinners | internal/federate/federate.go:202-220 | each path is won by the write mount if it has it, else by the first mount that does |
| Federate.OneCopyKept | internal/mcp/query.go:507-516 | of each path exactly one copy survives, from its only possible winner, in the order given |
| Federate.WireRoutesBack | internal/mcp/query.go:529-534 | a wire path routes back to the mount and path it was made of, and is writable exactly on the write mount |
| Federate.WireInjective | internal/mcp/query.go:529-534 | no two rows share a wire path |
| Federate.WriteExactly | internal/federate/federate.go:136-162 | a write tool takes a bare path as it is, a qualified one if and only if the first mount of its id is the write repo, and else says read-only, not mounted or bad path, each exactly when it is so |
| Federate.ById | internal/repos/binding.go:127-138 | finds the mount of an id, given distinct ids |
| Federate.ReadTargetsFor | internal/federate/federate.go:229-250 | a qualified filter goes to its mount alone, a bare one to the mounts not skipped, in order |
| Federate.SkipsExactly | internal/federate/federate.go:229-250 | a mount is skipped if and only if it has an ontology and the filter goes into a topic not of it |
| Federate.FilterPinsTopic | internal/federate/federate.go:166-176 | a filter that pins a topic matches, as the store matches, only paths of that topic if and only if what it pins is lower-case without wildcards |
| Federate.SkipLoses | internal/federate/federate.go:229-250 | for every filter: being skipped costs no mount a row of a topic it lists if and only if the filter pins no topic or a plain one |
| Federate.ListedTopicsServed | internal/federate/federate.go:229-250 | for every mount: no plain filter that skips it matches a fact of it if and only if it lists every plain topic it holds |
| Federate.CapitalFilterSkips | internal/store/search_query.go:281-283 | a filter in another case skips a mount that lists the topic and holds a match |
| Fingerprint.FingerprintInjective | internal/federate/federate.go:103-121 | fingerprints agree if and only if the read sets do as multisets, for any branch names |
| Paging.Session.NextWindow | internal/mcp/query.go:601-655 | a window is taken off the queue lowest key first |
| Paging.Session.Resume | internal/mcp/query.go:601-672 | a page serves the readable rows of a prefix of what was left, no more than three windows and a page of them, says whether more is left, and is empty with more left exactly when no row of three windows can be read |
| Paging.Drain | internal/mcp/query.go:540-672 | all resumes together serve what was left, once, in order |
| Paging.QueryRelevance | internal/mcp/query.go:428-505 | first page and resumes together are the ranked rows |
| Paging.QueryRecent | internal/mcp/query.go:316-345 | a snapshot served by resuming is the rows still readable, once, in order |
| Paging.EmptyPageWithMore | internal/mcp/query.go:601-655 | a page is empty with more left if and only if more than three windows of rows were left and no row of those three can be read |
| Paging.Select | internal/mcp/query.go:279-313 | the rows kept are, in the order by rank and target or by commit time, the copies their targets serve, the write mount's before others; each hit is the mount, path and version of its row; and a copy served that is missing comes after as many rows as may be |
| Paging.SelectedAsListed | internal/mcp/query.go:507-516 | the same of every selection |
| Paging.OrderHasAll | internal/mcp/query.go:279-313 | either order has every row once, keeps each mount's own order (by time, if its list is latest first), and goes by rank then target, or by time then target then rank |
| Paging.Query | internal/mcp/query.go:387-505 | the whole relevance query: each hit is its row's mount, path and version, served under a path that is bare if and only if that mount is the write mount, else qualified with its own twelve-digit id, and that routes back to it; winning copies in fused order, all of them over the pages |
| Paging.RecentQuery | internal/mcp/query.go:235-345 | the whole recency query: the same, by commit time without text and fused with it, of the rows still readable |
| Explain.SeenKeyInjective | internal/mcp/explain.go:139 | two versions with one seen key are one, for commits without '@' |
| Explain.Session.constructor | internal/mcp/explain.go:399-433 | the first call leaves a session whose queue and seen-set fit the graph |
| Explain.Session.Resume | internal/mcp/explain.go:492-619 | a page answers exactly the nodes it visited, at their distance, visits at least one, holds at most twenty-five rows, and is empty with more left only after seventy-five unreadable nodes |
| Explain.AnswersJoin | internal/mcp/explain.go:492-619 | pages join: two answers in a row are one answer |
| Explain.DrainedIsComplete | internal/mcp/explain.go:399-433 | a drained session has emitted each node within ten edges through readable nodes once, at its shortest depth, and no other |
| Explain.Explain | internal/mcp/explain.go:310-619 | the whole walk is complete in fewer resumes than there are nodes in reach |
| Bundle.RelLinkTo | internal/okf/bundle.go:319-335 | the loop computes the relative link |
| Bundle.LinkResolves | internal/okf/bundle.go:319-335 | a relative link resolves from its directory to its target |
| Bundle.LinksDiffer | internal/okf/bundle.go:319-335 | from one directory different targets get different links |
| Bundle.DocPathsDistinct | internal/okf/slug.go:17-26 | with 8-hex basenames only facts of one path share a bundle path, and none is an index |
| Bundle.FilesApart | internal/okf/bundle.go:108-211 | with slash-free slugs no two of the bundle's documents are written to one file |
| Bundle.Slugify | internal/okf/slug.go:30-60 | a slug is at most 60 letters, digits and single hyphens, so never holds a slash |
| Bundle.RegisterDir | internal/okf/bundle.go:29-43 | a directory and all above it are registered with their children |
| Bundle.Place | internal/okf/bundle.go:44-68 | every fact's path is planned before anything is rendered |
| Bundle.Render | internal/okf/bundle.go:108-138 | the documents rendered and the directories they fill |
| Bundle.BuildIndexes | internal/okf/bundle.go:166-211 | one index a directory, whose links lead to exactly its documents and the indexes of its child directories |
| Bundle.BuildDigests | internal/okf/digests.go:64-97 | one digest a kind that has facts, linking each |
| Bundle.BuildViews | internal/okf/bundle.go:140-165 | hub pages, digests, retired page and their indexes |
| Bundle.IndexesTold | internal/okf/bundle.go:166-211 | in the assembled bundle, outside views/, the root and exactly the directories with a document in or below them have an index, which links exactly each document rendered there and the index of each child directory with a file in it or below |
| Bundle.ViewsTold | internal/okf/hubs.go:122-378 | exactly what each page of views/ links: a hub page the facts of its tag, its index the pages and lone facts, a digest the facts of its type, the page of withdrawals the replacements, the top index each page beside it and each index below |
| Bundle.ConceptsTold | internal/okf/concept.go:216-300 | a rendered document links exactly the hub pages of its fact's trimmed tags, the facts it cites in whatever form, and the other facts that cite it by its own path |
| Bundle.EveryFileReached | internal/okf/bundle.go:166-211 | every file of the bundle is reached from the root's index by following links of indexes |
| Bundle.NamedByTitle | internal/okf/slug.go:17-26 | a document is named after the title's slug, else the category's, and always the id |
| Bundle.LinksLead | internal/okf/bundle.go:22-255 | every link of the bundle leads to a file of it if and only if no skipped fact is linked; so it does when none is skipped |
| Bundle.SkippedDangles | internal/okf/hubs.go:122-140 | a skipped fact linked anywhere leaves a link that leads nowhere |
| Bundle.BuildBundle | internal/okf/bundle.go:22-255 | the whole build: which documents it holds, what every index, view and document links, that every file is reached from the root's index, and, exactly, when all links lead |
| Bundle.CitersComplete | internal/okf/bundle.go:73-91 | every other fact a fact's citations link lists it if and only if each local reference to a fact of the bundle is there as that fact's own path too |
| Bundle.CanonicalCitationNotListed | internal/okf/bundle.go:73-91 | a lone canonical citation links its fact and is not listed among its citers |
| Hubs.FreeName | internal/okf/hubs.go:88-113 | the first free numbered name is found for every set of used names |
| Hubs.AssignPaths | internal/okf/hubs.go:88-113 | exactly the qualifying keys with a slug get files, pairwise distinct, none reserved |
| Hubs.CountTags | internal/okf/hubs.go:64-86 | a key's count is the number of facts that carry it |
| Hubs.DedupeStable | internal/okf/hubs.go:385-398 | trimmed tags, first occurrences, in order |
| Hubs.TagsWritten | internal/okf/hubs.go:385-398 | a tag is kept if and only if it is a written one, trimmed, and not blank |
| Hubs.PlanHubs | internal/okf/hubs.go:64-113 | counting and naming together |
| Roundtrip.StripGenerated | internal/okf/roundtrip.go:99-116 | the downward loop computes the stripped body |
| Roundtrip.PeelBack | internal/okf/roundtrip.go:99-116 | peeling the appended sections gives the authored text back if and only if its own headings are settled, and otherwise cuts it short |
| Roundtrip.StripRestores | internal/okf/roundtrip.go:76-116 | stripping what was appended restores the authored body under exactly that condition |
| Roundtrip.CleanBodyRestored | internal/okf/concept.go:216-247 | a body with no generated heading in it always comes back |
| RulesCache.BuildRulesCache | internal/fact/ontology.go:177-212 | for every ontology: built exactly when every rule compiles, each key holds the rules of some node of it, and the cache answers for every node if and only if no two clash |
| RulesCache.ValidateFact | internal/fact/validation.go:142-198 | for every ontology and cache: the first failure of the rules cached along the path, which is that of a walk of the tree wherever the cache serves every node a path can lead to |
| RulesCache.ServesExactly | internal/fact/validation.go:142-186 | for every admitted ontology and every cache: the cached walk is the tree's on every topic path if and only if every node reached by slash-free lower-case keys, and the root, has its own rules cached |
| RulesCache.AnswersExactly | internal/fact/ontology.go:177-212 | a cache built from an ontology answers for every node if and only if no two nodes of one joined key, the root counting, differ in their rules |
| RulesCache.GoodKeysApart | internal/fact/ontology.go:177-212 | and with slash-free keys none do |
| RulesCache.SlashKeysCollide | internal/fact/diagnostics.go:118-136 | an ontology the parser admits in which two nodes clash, so that no cache answers for both |
| RulesCache.SlashMisvalidates | internal/fact/ontology.go:177-212 | there a cache the build may leave lets a failing fact pass |
| RulesCache.SubsetApplies | internal/fact/ontology.go:93-154 | every rule a subset applies along a path the preset applies there |
| RulesCache.SubsetExactly | internal/fact/ontology.go:93-154 | an ontology is a subset if and only if at the root and at every node of it each rule's name is a rule's of the preset there |
| Retry.GeminiAdapter.StreamCall | internal/llm/gemini.go:193-211 | one upstream call, its chunks passed on and joined |
| Retry.GeminiAdapter.Complete | internal/llm/gemini.go:141-191 | at most two calls, of which only the last showed anything |
| Retry.ResilientAdapter.Complete | internal/llm/resilience.go:112-186 | all chunks come from one upstream call and join to the returned text, in at most MaxRetries+1 attempts; an attempt is followed by another only if it failed by deadline, transport or overload, unseen, and the caller had not left; the error is the provider's if and only if the caller stayed and the last attempt was seen, the last allowed, or failed otherwise |
| Retry.Attempts | internal/llm/resilience.go:73-84 | three attempts for gemini and ollama, two for the subprocess adapters, one elsewhere |
| Retry.BackoffBounds | internal/llm/resilience.go:303-310 | every delay lies in [250ms, 8s), for every attempt number, despite 64-bit shifts |
| Migration.ReadLegacyOrigin | cmd/migrate_registry.go:979-1012 | picks "origin" if it has a url, else the first remote with one, and none exactly when none has |
| Migration.RecordedCarries | cmd/migrate_registry.go:979-1012 | what is recorded for a list of remotes is the chosen one's url, auth and token, and its branch or main |
| Migration.PlanMigration | cmd/migrate_registry.go:466-580 | refuses exactly when some cause to refuse exists, with a true cause, and otherwise plans every base and manifest |
| Migration.SurveyIdentities | cmd/migrate_registry.go:1056-1092 | refuses exactly when two active bases grew from one root commit |
| Migration.CaptureActiveRepos | cmd/migrate_registry.go:698-770 | every base of repos/ gets one entry, with a reused or new uid of its own |
| Migration.CaptureArchivedRepos | cmd/migrate_registry.go:779-880 | every manifest gets its entry, and every archived database a manifest |
| Migration.RenameKeeps | cmd/migrate_registry.go:1590-1616 | renaming a file between its former place and its uid's loses nothing |
| Migration.UpgradeKeeps | cmd/migrate_registry.go:1744-1757 | dropping a database's columns loses nothing once the registry holds them |
| Migration.CommitKeeps | cmd/migrate_registry.go:1425-1569 | replacing the registry by a plan keeps every base and connection |
| Migration.CommitRemembers | cmd/migrate_registry.go:544-559 | and, without the discard flag, forgets and alters no connection the registry held |
| Migration.Disk.ApplyControlDB | cmd/migrate_registry.go:1425-1569 | all of the plan is registered, each origin with its url, credentials and branch, main when it names none; or nothing changed |
| Migration.Disk.MoveRepoFiles | cmd/migrate_registry.go:1590-1658 | a prefix of the plan has moved, and only its manifests are gone |
| Migration.Disk.Run | cmd/migrate_registry.go:337-421 | one run cut off anywhere keeps everything; refused exactly when not clear; finished means converted whole: each base under its uid, and registered with url, branch (main when empty), auth and token of its chosen remote if and only if some remote has a url |
| Migration.History | cmd/migrate_registry.go:337-421 | any sequence of runs, crashes, failures, hand moves and lost files keeps every surviving base with the connection of its chosen remote, in it or in the registry, and, without the discard flag, every recorded connection |
| Migration.NothingLost | cmd/migrate_registry.go:1590-1658 | each base is at its old place or its uid's, with its remotes still in it or in the registry url, branch (main when empty), auth and token of the chosen one, none exactly if no remote has a url; and a manifest is gone only if its database arrived |
| Migration.RecordsHonest | cmd/migrate_registry.go:1500-1509 | whatever the registry records was the chosen remote of a base of the legacy home |
| Migration.ConvertedRefused | cmd/migrate_registry.go:727-734 | a converted home is refused, forced or not |
| Migration.ForcedRunAgrees | cmd/migrate_registry.go:736-741 | a forced run after a crash that followed the commit plans the same entries, uids and all |
| Migration.ForcedRunAllowed | cmd/migrate_registry.go:466-580 | and it is allowed exactly when something was planned and no stray file has an archived base's uid for a name |
| Migration.StrayBuried | cmd/migrate_registry.go:779-880 | a home that is converted without a question and loses a stray file that had an archived base's uid for a name |

## Left out

- Agreement.NamesAgree: states that orderly runs agree and not that every disorderly run ends apart, because a disorderly step may happen to end well; the exact condition is `Parting.AgreesExactly`'s, and it is of every state of the run, not of its last alone.
- Managers.Manager.CreateRepo: does not model the rollback after registering when the repo's identity turns out to be held by another, nor origin reservation, because the agreement of names excludes it.
- Managers.Manager.RestoreRepo: the same rollback after registering is not modelled.
- Managers.Manager.PutLens: membership of a lens is one parameter, valid or not; repos unavailable at boot are not modelled.
- Hub.TaskHub.Note: one emitting goroutine a task; a panicking task is one that emits an error.
- RefSyntax.KbParsed: lower-cases ASCII letters only.
- Paging.Session.Resume: resumes on one cursor are sequential, and one that returns an error halfway is not modelled.
- Bundle.Slugify: lower-casing and folding to ASCII come before it and are not modelled.
- Federate.SkipLoses: stored paths are lower-case, as facts are stored; LIKE folds ASCII letters only, as SQLite does.
- Explain.Explain: the graph does not change during a walk; revision deltas and history are not modelled.
- Migration.PlanMigration: a dangling lens member or an unreadable file may refuse a run as well; that is a run cut off before its first write.
- Migration.Disk.Run: the same; and the backup of control.db and the printed reports are not modelled.
- Migration.Disk.MoveRepoFiles: a database and its write-ahead log move as one file; archived repositories are in manifest order.
- Purge, lens membership edits and the uid index of the live map are not modelled.
- Transient SQL errors in compensating writes are not modelled; a statement that fails before anything is written is.
- The remote reconcile loop, sync activation and the index heal are not modelled.
- Fact bodies, front matter, logs and histories of the bundle are not modelled; none of them adds a link to another document.
- Digest and retired page ordering and wording are not modelled; only which documents they link.
- Gemini's cache lifetime, batch completion and textual error matching are not modelled; an error's class is a parameter.
- Similarity search and embeddings are uninterpreted: which stored fact an input hits is a parameter.
- YAML, JavaScript rule evaluation and fact serialization are uninterpreted functions.
