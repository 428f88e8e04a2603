/**
 Reading a lens's mounts as one (internal/federate/federate.go): rank fusion, recency merge, the
 copies that win, the read set's fingerprint, and wire paths (internal/repos/binding.go,
 internal/mcp/query.go).
*/
module Federate {
  import opened Wrappers
  import opened Sorting
  import opened RefSyntax

  /** A row of a mount's result list. */
  datatype MountRef = MountRef(mount: nat, rank: nat)

  const RRF_K: real := 60.0

  // ---------- every row ----------

  /** The rows of mount m, in its own order. */
  function RowsOf(m: nat, n: nat): (r: seq<MountRef>)
    ensures |r| == n && forall k :: 0 <= k < n ==> r[k] == MountRef(m, k)
  {
    if n == 0 then [] else RowsOf(m, n - 1) + [MountRef(m, n - 1)]
  }

  function Rows(lens: seq<nat>): seq<MountRef> {
    if lens == [] then [] else Rows(lens[..|lens| - 1]) + RowsOf(|lens| - 1, lens[|lens| - 1])
  }

  predicate Row(lens: seq<nat>, ref: MountRef) {
    ref.mount < |lens| && ref.rank < lens[ref.mount]
  }

  lemma {:induction false} RowsOfOnce(m: nat, n: nat, ref: MountRef)
    ensures multiset(RowsOf(m, n))[ref] == if ref.mount == m && ref.rank < n then 1 else 0
  {
    if n > 0 { RowsOfOnce(m, n - 1, ref); }
  }

  // Every row of every list is there, once.
  lemma {:induction false} RowsOnce(lens: seq<nat>, ref: MountRef)
    ensures multiset(Rows(lens))[ref] == if Row(lens, ref) then 1 else 0
  {
    if lens != [] {
      var init, last := lens[..|lens| - 1], |lens| - 1;
      RowsOnce(init, ref);
      RowsOfOnce(last, lens[last], ref);
      assert Row(init, ref) <==> Row(lens, ref) && ref.mount != last;
      assert multiset(Rows(lens)) == multiset(Rows(init)) + multiset(RowsOf(last, lens[last]));
    }
  }

  method CollectRows(lens: seq<nat>) returns (out: seq<MountRef>)
    ensures out == Rows(lens)
  {
    out := [];
    for m := 0 to |lens|
      invariant out == Rows(lens[..m])
    {
      for r := 0 to lens[m]
        invariant out == Rows(lens[..m]) + RowsOf(m, r)
      {
        out := out + [MountRef(m, r)];
      }
      assert lens[..m + 1][..m] == lens[..m];
    }
    assert lens[..|lens|] == lens;
  }

  // ---------- rank fusion ----------

  function Score(rank: nat): real {
    1.0 / (RRF_K + rank as real)
  }

  /** Higher fused score first; equal scores by mount. */
  predicate Fuses(a: MountRef, b: MountRef) {
    Score(a.rank) > Score(b.rank) || (Score(a.rank) == Score(b.rank) && a.mount < b.mount)
  }

  lemma ScoreFalls(a: nat, b: nat)
    ensures Score(a) > Score(b) <==> a < b
    ensures Score(a) == Score(b) <==> a == b
  {
    Reciprocal(RRF_K + a as real, RRF_K + b as real);
    Reciprocal(RRF_K + b as real, RRF_K + a as real);
  }

  lemma Reciprocal(x: real, y: real)
    requires 0.0 < x && 0.0 < y
    ensures x < y ==> 1.0 / x > 1.0 / y
  {
    if x < y {
      assert 1.0 / x - 1.0 / y == (y - x) / (x * y);
    }
  }

  function FusesLess(): (MountRef, MountRef) -> bool {
    (a: MountRef, b: MountRef) => Fuses(a, b)
  }

  lemma FusesTotal()
    ensures Total(FusesLess())
  {
    forall a: MountRef, b: MountRef
      ensures Fuses(a, b) <==> a.rank < b.rank || (a.rank == b.rank && a.mount < b.mount)
    {
      ScoreFalls(a.rank, b.rank);
    }
    hide Score;
  }

  function Fused(lens: seq<nat>): seq<MountRef> {
    Sort(Rows(lens), FusesLess())
  }

  method FuseRRF(lens: seq<nat>) returns (out: seq<MountRef>)
    ensures out == Fused(lens)
  {
    out := CollectRows(lens);
    out := Sort(out, FusesLess());
  }

  /** Each row once. */
  ghost predicate EachOnce(order: seq<MountRef>, lens: seq<nat>) {
    forall ref :: multiset(order)[ref] == if Row(lens, ref) then 1 else 0
  }

  /** Every mount's rows are in its own order. */
  ghost predicate OwnOrder(order: seq<MountRef>) {
    forall i, j :: 0 <= i < j < |order| && order[i].mount == order[j].mount ==> order[i].rank < order[j].rank
  }

  lemma CountedTwice(s: seq<MountRef>, i: nat, j: nat)
    requires i < j < |s| && s[i] == s[j]
    ensures multiset(s)[s[i]] >= 2
  {
    assert s == s[..j] + s[j..];
    assert s[..j][i] == s[i] && s[j..][0] == s[j];
    assert s[i] in multiset(s[..j]) && s[i] in multiset(s[j..]);
  }

  lemma OnceDistinct(order: seq<MountRef>, lens: seq<nat>, i: nat, j: nat)
    requires EachOnce(order, lens) && i < j < |order|
    ensures order[i] != order[j]
  {
    if order[i] == order[j] {
      CountedTwice(order, i, j);
      assert false;
    }
  }

  // Fusion orders all rows of all mounts, each once, by rank and then by mount, keeping every
  // mount's own order.
  lemma FusionOrders(lens: seq<nat>)
    ensures var out := Fused(lens);
            && EachOnce(out, lens) && OwnOrder(out)
            && (forall i, j :: 0 <= i < j < |out| ==>
                  out[i].rank < out[j].rank || (out[i].rank == out[j].rank && out[i].mount < out[j].mount))
  {
    var out := Fused(lens);
    forall ref
      ensures multiset(out)[ref] == if Row(lens, ref) then 1 else 0
    {
      RowsOnce(lens, ref);
    }
    FusesTotal();
    SortSorts(Rows(lens), FusesLess());
    forall i, j | 0 <= i < j < |out|
      ensures out[i].rank < out[j].rank || (out[i].rank == out[j].rank && out[i].mount < out[j].mount)
    {
      OnceDistinct(out, lens, i, j);
      assert !Fuses(out[j], out[i]);
      ScoreFalls(out[j].rank, out[i].rank);
    }
  }

  lemma RowsOfOneSorted(n: nat)
    ensures Sorted(RowsOf(0, n), FusesLess())
  {
    forall i, j | 0 <= i < j < n
      ensures !FusesLess()(RowsOf(0, n)[j], RowsOf(0, n)[i])
    {
      ScoreFalls(j, i);
    }
  }

  // One mount's list comes out as it went in.
  lemma FusionOfOne(n: nat)
    ensures Fused([n]) == RowsOf(0, n)
  {
    var lens: seq<nat> := [n];
    assert lens[..0] == [];
    assert Rows(lens) == RowsOf(0, n);
    FusesTotal();
    RowsOfOneSorted(n);
    SortSorts(Rows(lens), FusesLess());
    hide FusesLess, RowsOf, Rows, Sort;
    SortedUnique(Sort(Rows(lens), FusesLess()), RowsOf(0, n), FusesLess());
  }

  // ---------- recency ----------

  function Lens(lists: seq<seq<int>>): seq<nat> {
    seq(|lists|, i requires 0 <= i < |lists| => |lists[i]|)
  }

  function Stamp(stamps: seq<seq<int>>, ref: MountRef): int {
    if Row(Lens(stamps), ref) then stamps[ref.mount][ref.rank] else 0
  }

  /** Later first; ties by mount, then by position. */
  predicate Newer(stamps: seq<seq<int>>, a: MountRef, b: MountRef) {
    var x, y := Stamp(stamps, a), Stamp(stamps, b);
    if x != y then x > y
    else if a.mount != b.mount then a.mount < b.mount
    else a.rank < b.rank
  }

  function NewerLess(stamps: seq<seq<int>>): (MountRef, MountRef) -> bool {
    (a: MountRef, b: MountRef) => Newer(stamps, a, b)
  }

  function Merged(stamps: seq<seq<int>>): seq<MountRef> {
    Sort(Rows(Lens(stamps)), NewerLess(stamps))
  }

  function Capped(order: seq<MountRef>, max: nat): seq<MountRef> {
    if |order| > max then order[..max] else order
  }

  method MergeRecent(stamps: seq<seq<int>>, max: nat) returns (out: seq<MountRef>)
    ensures out == Capped(Merged(stamps), max)
  {
    out := CollectRows(Lens(stamps));
    out := Sort(out, NewerLess(stamps));
    if |out| > max { out := out[..max]; }
  }

  ghost predicate Falling(list: seq<int>) {
    forall i, j :: 0 <= i < j < |list| ==> list[i] >= list[j]
  }

  lemma MergedSorted(stamps: seq<seq<int>>)
    ensures Sorted(Merged(stamps), NewerLess(stamps)) && EachOnce(Merged(stamps), Lens(stamps))
  {
    forall ref
      ensures multiset(Merged(stamps))[ref] == if Row(Lens(stamps), ref) then 1 else 0
    {
      RowsOnce(Lens(stamps), ref);
    }
    assert Total(NewerLess(stamps));
    SortSorts(Rows(Lens(stamps)), NewerLess(stamps));
  }

  /** Row x was committed after row y, or with it and listed before: on an earlier mount, or higher up. */
  ghost predicate Later(stamps: seq<seq<int>>, x: MountRef, y: MountRef) {
    && x.mount < |stamps| && x.rank < |stamps[x.mount]| && y.mount < |stamps| && y.rank < |stamps[y.mount]|
    && stamps[x.mount][x.rank] >= stamps[y.mount][y.rank]
    && (stamps[x.mount][x.rank] == stamps[y.mount][y.rank] ==> x.mount < y.mount || (x.mount == y.mount && x.rank < y.rank))
  }

  // The merge orders all rows of all mounts, each once, latest first; and keeps every mount's own
  // order if and only if each list was latest first itself.
  lemma MergeOrders(stamps: seq<seq<int>>)
    ensures var out := Merged(stamps);
            && EachOnce(out, Lens(stamps))
            && (forall i, j :: 0 <= i < j < |out| ==> Later(stamps, out[i], out[j]))
    ensures OwnOrder(Merged(stamps)) <==> forall m :: 0 <= m < |stamps| ==> Falling(stamps[m])
  {
    var out := Merged(stamps);
    MergedSorted(stamps);
    hide Sort, Rows;
    forall i, j | 0 <= i < j < |out|
      ensures Later(stamps, out[i], out[j])
    {
      InList(out, Lens(stamps), i);
      InList(out, Lens(stamps), j);
      OnceDistinct(out, Lens(stamps), i, j);
      assert !NewerLess(stamps)(out[j], out[i]);
    }
    if forall m :: 0 <= m < |stamps| ==> Falling(stamps[m]) {
      forall i, j | 0 <= i < j < |out| && out[i].mount == out[j].mount
        ensures out[i].rank < out[j].rank
      {
        assert Later(stamps, out[i], out[j]) && Falling(stamps[out[i].mount]);
      }
    }
    if OwnOrder(out) {
      forall m | 0 <= m < |stamps|
        ensures Falling(stamps[m])
      {
        OwnOrderFalls(stamps, m);
      }
    }
  }

  lemma InList(out: seq<MountRef>, lens: seq<nat>, i: nat)
    requires EachOnce(out, lens) && i < |out|
    ensures Row(lens, out[i])
  {
    assert out[i] in multiset(out);
  }

  lemma OwnOrderFalls(stamps: seq<seq<int>>, m: nat)
    requires m < |stamps| && OwnOrder(Merged(stamps))
    requires EachOnce(Merged(stamps), Lens(stamps))
    requires var out := Merged(stamps); forall i, j :: 0 <= i < j < |out| ==> Later(stamps, out[i], out[j])
    ensures Falling(stamps[m])
  {
    hide Sort, Rows;
    var out := Merged(stamps);
    forall a, b | 0 <= a < b < |stamps[m]|
      ensures stamps[m][a] >= stamps[m][b]
    {
      assert MountRef(m, a) in multiset(out) && MountRef(m, b) in multiset(out);
      var i :| 0 <= i < |out| && out[i] == MountRef(m, a);
      var j :| 0 <= j < |out| && out[j] == MountRef(m, b);
      assert i < j && Later(stamps, out[i], out[j]);
    }
  }

  // ---------- copies of one path ----------

  type Path = string

  ghost predicate Has(paths: seq<seq<Path>>, m: nat, p: Path) {
    m < |paths| && p in paths[m]
  }

  /** Mount m's copy of p is the one served: the write mount's if it has one, else the first. */
  ghost predicate Wins(paths: seq<seq<Path>>, isWrite: seq<bool>, p: Path, m: nat)
    requires |isWrite| == |paths|
  {
    && Has(paths, m, p)
    && (!isWrite[m] ==> forall k :: 0 <= k < |paths| && isWrite[k] ==> !Has(paths, k, p))
    && (forall k :: 0 <= k < m && isWrite[k] == isWrite[m] ==> !Has(paths, k, p))
  }

  lemma WinnerUnique(paths: seq<seq<Path>>, isWrite: seq<bool>, p: Path, m: nat, n: nat)
    requires |isWrite| == |paths| && Wins(paths, isWrite, p, m) && Wins(paths, isWrite, p, n)
    ensures m == n
  {
    assert Has(paths, m, p) && Has(paths, n, p);
  }

  /** The winners among the mounts of one kind, of which the first n have been recorded, after the
      mounts of the other kind if `after`. */
  ghost predicate Recorded(paths: seq<seq<Path>>, isWrite: seq<bool>, kind: bool, n: nat, w: map<Path, nat>)
    requires |isWrite| == |paths| && n <= |paths|
  {
    && (forall p :: p in w ==> Wins(paths, isWrite, p, w[p]))
    && (forall m, p :: 0 <= m < |paths| && Has(paths, m, p) && ((isWrite[m] && !kind) || (isWrite[m] == kind && m < n)) ==> p in w)
    && (forall p :: p in w ==> isWrite[w[p]] || (!kind && !isWrite[w[p]] && w[p] < n))
    && (kind ==> forall p :: p in w ==> w[p] < n)
  }

  // One pass over the mounts: the write mount's rows, or the others'.
  method Record(paths: seq<seq<Path>>, isWrite: seq<bool>, kind: bool, winner: map<Path, nat>) returns (w: map<Path, nat>)
    requires |isWrite| == |paths| && Recorded(paths, isWrite, kind, 0, winner)
    ensures Recorded(paths, isWrite, kind, |paths|, w)
  {
    w := winner;
    for i := 0 to |paths|
      invariant Recorded(paths, isWrite, kind, i, w)
    {
      if isWrite[i] != kind { continue; }
      ghost var before := w;
      for e := 0 to |paths[i]|
        invariant before.Keys <= w.Keys && forall p :: p in before ==> w[p] == before[p]
        invariant forall k :: 0 <= k < e ==> paths[i][k] in w
        invariant forall p :: p in w && p !in before ==> w[p] == i && p in paths[i]
      {
        var p := paths[i][e];
        if p !in w { w := w[p := i]; }
      }
      RecordedNext(paths, isWrite, kind, i, before, w);
    }
  }

  lemma RecordedNext(paths: seq<seq<Path>>, isWrite: seq<bool>, kind: bool, i: nat, before: map<Path, nat>, w: map<Path, nat>)
    requires |isWrite| == |paths| && i < |paths| && isWrite[i] == kind && Recorded(paths, isWrite, kind, i, before)
    requires before.Keys <= w.Keys && forall p :: p in before ==> w[p] == before[p]
    requires forall k :: 0 <= k < |paths[i]| ==> paths[i][k] in w
    requires forall p :: p in w && p !in before ==> w[p] == i && p in paths[i]
    ensures Recorded(paths, isWrite, kind, i + 1, w)
  {
    forall p | p in w
      ensures Wins(paths, isWrite, p, w[p])
    {
      if p !in before {
        assert forall k :: 0 <= k < |paths| && isWrite[k] && !kind ==> !Has(paths, k, p);
        assert forall k :: 0 <= k < i && isWrite[k] == kind ==> !Has(paths, k, p);
      }
    }
    forall m, p | 0 <= m < |paths| && Has(paths, m, p) && ((isWrite[m] && !kind) || (isWrite[m] == kind && m < i + 1))
      ensures p in w
    {
      if m == i {
        var k :| 0 <= k < |paths[i]| && paths[i][k] == p;
      }
    }
  }

  method WriteFirstWinners(paths: seq<seq<Path>>, isWrite: seq<bool>) returns (winner: map<Path, nat>)
    requires |isWrite| == |paths|
    ensures forall p :: p in winner <==> exists m: nat :: Has(paths, m, p)
    ensures forall p :: p in winner ==> Wins(paths, isWrite, p, winner[p])
  {
    winner := map[];
    winner := Record(paths, isWrite, true, winner);
    winner := Record(paths, isWrite, false, winner);
    forall p | exists m: nat :: Has(paths, m, p)
      ensures p in winner
    {
      var m: nat :| Has(paths, m, p);
      assert isWrite[m] || !isWrite[m];
    }
  }

  /** A row's path, where the row exists. */
  function PathAt(paths: seq<seq<Path>>, ref: MountRef): Path {
    if ref.mount < |paths| && ref.rank < |paths[ref.mount]| then paths[ref.mount][ref.rank] else ""
  }

  /** The rows of the order that win. */
  function Winning(order: seq<MountRef>, paths: seq<seq<Path>>, winner: map<Path, nat>): seq<MountRef> {
    if order == [] then [] else
      var kept := Winning(order[..|order| - 1], paths, winner);
      var ref := order[|order| - 1];
      var p := PathAt(paths, ref);
      if p in winner && winner[p] == ref.mount then kept + [ref] else kept
  }

  function PathLens(paths: seq<seq<Path>>): seq<nat> {
    seq(|paths|, i requires 0 <= i < |paths| => |paths[i]|)
  }

  method KeepWinners(order: seq<MountRef>, paths: seq<seq<Path>>, isWrite: seq<bool>) returns (kept: seq<MountRef>, winner: map<Path, nat>)
    requires |isWrite| == |paths| && forall i :: 0 <= i < |order| ==> Row(PathLens(paths), order[i])
    ensures forall p :: p in winner <==> exists m: nat :: Has(paths, m, p)
    ensures forall p :: p in winner ==> Wins(paths, isWrite, p, winner[p])
    ensures kept == Winning(order, paths, winner)
  {
    winner := WriteFirstWinners(paths, isWrite);
    kept := [];
    for i := 0 to |order|
      invariant kept == Winning(order[..i], paths, winner)
    {
      var ref := order[i];
      var p := paths[ref.mount][ref.rank];
      assert Has(paths, ref.mount, p);
      assert order[..i + 1][..i] == order[..i];
      if winner[p] == ref.mount { kept := kept + [ref]; }
    }
    assert order[..|order|] == order;
  }

  // ---------- what is kept ----------

  ghost predicate DistinctRows(paths: seq<seq<Path>>) {
    forall m, i, j :: 0 <= m < |paths| && 0 <= i < j < |paths[m]| ==> paths[m][i] != paths[m][j]
  }

  ghost predicate Decides(paths: seq<seq<Path>>, isWrite: seq<bool>, winner: map<Path, nat>)
    requires |isWrite| == |paths|
  {
    && (forall p :: p in winner <==> exists m: nat :: Has(paths, m, p))
    && (forall p :: p in winner ==> Wins(paths, isWrite, p, winner[p]))
  }

  predicate Keeps(paths: seq<seq<Path>>, winner: map<Path, nat>, ref: MountRef) {
    PathAt(paths, ref) in winner && winner[PathAt(paths, ref)] == ref.mount
  }

  lemma {:induction false} WinningCounts(order: seq<MountRef>, paths: seq<seq<Path>>, winner: map<Path, nat>, ref: MountRef)
    ensures multiset(Winning(order, paths, winner))[ref] == if Keeps(paths, winner, ref) then multiset(order)[ref] else 0
  {
    if order != [] {
      WinningCounts(order[..|order| - 1], paths, winner, ref);
      assert order == order[..|order| - 1] + [order[|order| - 1]];
    }
  }

  /** a's elements are some of b's, in b's order. */
  ghost predicate Within(a: seq<MountRef>, b: seq<MountRef>) {
    exists at: seq<nat> :: Places(a, b, at)
  }

  ghost predicate Places(a: seq<MountRef>, b: seq<MountRef>, at: seq<nat>) {
    && |at| == |a|
    && (forall i :: 0 <= i < |at| ==> at[i] < |b| && b[at[i]] == a[i])
    && (forall i, j :: 0 <= i < j < |at| ==> at[i] < at[j])
  }

  lemma {:induction false} WinningWithin(order: seq<MountRef>, paths: seq<seq<Path>>, winner: map<Path, nat>)
    ensures Within(Winning(order, paths, winner), order)
  {
    if order == [] {
      assert Places(Winning(order, paths, winner), order, []);
    } else {
      var init := order[..|order| - 1];
      WinningWithin(init, paths, winner);
      var at: seq<nat> :| Places(Winning(init, paths, winner), init, at);
      PlacesNext(Winning(init, paths, winner), order, at);
      assert Places(Winning(order, paths, winner), order,
        if Keeps(paths, winner, order[|order| - 1]) then at + [|order| - 1] else at);
    }
  }

  lemma PlacesNext(kept: seq<MountRef>, order: seq<MountRef>, at: seq<nat>)
    requires order != [] && Places(kept, order[..|order| - 1], at)
    ensures Places(kept, order, at) && Places(kept + [order[|order| - 1]], order, at + [|order| - 1])
  {
  }

  lemma WithinKeepsOrder(a: seq<MountRef>, b: seq<MountRef>)
    requires Within(a, b) && OwnOrder(b)
    ensures OwnOrder(a)
  {
    var at: seq<nat> :| Places(a, b, at);
    forall i, j | 0 <= i < j < |a| && a[i].mount == a[j].mount
      ensures a[i].rank < a[j].rank
    {
      assert b[at[i]] == a[i] && b[at[j]] == a[j];
    }
  }

  // Of an order of all rows every path is kept exactly once, from the mount that wins it: the
  // write mount when it has the path. What is kept stays in order.
  lemma OneCopyKept(order: seq<MountRef>, paths: seq<seq<Path>>, isWrite: seq<bool>, winner: map<Path, nat>, p: Path)
    requires |isWrite| == |paths| && Decides(paths, isWrite, winner) && DistinctRows(paths) && EachOnce(order, PathLens(paths))
    requires p in winner
    ensures exists ref :: KeptCopy(order, paths, isWrite, winner, p, ref)
    ensures forall m: nat :: m < |paths| && Wins(paths, isWrite, p, m) ==> m == winner[p]
    ensures AtMostOne(Winning(order, paths, winner), paths, p)
    ensures Within(Winning(order, paths, winner), order) && (OwnOrder(order) ==> OwnOrder(Winning(order, paths, winner)))
  {
    var kept := Winning(order, paths, winner);
    var m := winner[p];
    assert Wins(paths, isWrite, p, m);
    var r :| 0 <= r < |paths[m]| && paths[m][r] == p;
    var ref := MountRef(m, r);
    WinningCounts(order, paths, winner, ref);
    assert Row(PathLens(paths), ref) && Keeps(paths, winner, ref);
    assert KeptCopy(order, paths, isWrite, winner, p, ref);
    WinningWithin(order, paths, winner);
    if OwnOrder(order) {
      WithinKeepsOrder(kept, order);
    }
    forall k: nat | k < |paths| && Wins(paths, isWrite, p, k) ensures k == m {
      WinnerUnique(paths, isWrite, p, k, m);
    }
    forall i, j | 0 <= i < j < |kept| && PathAt(paths, kept[i]) == p == PathAt(paths, kept[j])
      ensures false
    {
      KeptIs(order, paths, isWrite, winner, p, r, i);
      KeptIs(order, paths, isWrite, winner, p, r, j);
      CountedTwice(kept, i, j);
    }
  }

  ghost predicate AtMostOne(rows: seq<MountRef>, paths: seq<seq<Path>>, p: Path) {
    forall i, j :: 0 <= i < j < |rows| ==> PathAt(paths, rows[i]) != p || PathAt(paths, rows[j]) != p
  }

  ghost predicate KeptCopy(order: seq<MountRef>, paths: seq<seq<Path>>, isWrite: seq<bool>, winner: map<Path, nat>, p: Path, ref: MountRef)
    requires |isWrite| == |paths|
  {
    ref in Winning(order, paths, winner) && PathAt(paths, ref) == p && Wins(paths, isWrite, p, ref.mount)
  }

  lemma KeptIs(order: seq<MountRef>, paths: seq<seq<Path>>, isWrite: seq<bool>, winner: map<Path, nat>, p: Path, r: nat, i: nat)
    requires |isWrite| == |paths| && Decides(paths, isWrite, winner) && DistinctRows(paths) && EachOnce(order, PathLens(paths))
    requires p in winner && winner[p] < |paths| && r < |paths[winner[p]]| && paths[winner[p]][r] == p
    requires i < |Winning(order, paths, winner)| && PathAt(paths, Winning(order, paths, winner)[i]) == p
    ensures Winning(order, paths, winner)[i] == MountRef(winner[p], r)
  {
    var kept := Winning(order, paths, winner);
    var ref := kept[i];
    assert ref in multiset(kept);
    WinningCounts(order, paths, winner, ref);
    assert Row(PathLens(paths), ref) && Keeps(paths, winner, ref);
  }

  // ---------- wire paths ----------

  /** A read mount: its repo's root commit and the branch it is pinned to. */
  datatype Mount = Mount(id: string, branch: string)

  datatype Binding = Binding(mounts: seq<Mount>, write: nat)

  function Id12(full: string): string {
    if |full| <= REPO_ID_LEN then full else full[..REPO_ID_LEN]
  }

  ghost predicate Valid(b: Binding) {
    && b.write < |b.mounts|
    && (forall m :: 0 <= m < |b.mounts| ==> RepoId(Id12(b.mounts[m].id)))
    && (forall m, n :: 0 <= m < n < |b.mounts| ==> Id12(b.mounts[m].id) != Id12(b.mounts[n].id))
  }

  predicate Names(id: string, mount: Mount) {
    id != "" && (mount.id == id || (|id| == REPO_ID_LEN && IsPrefix(id, mount.id)))
  }

  method ById(b: Binding, id: string) returns (m: Option<nat>)
    ensures m.Some? ==> m.value < |b.mounts| && Names(id, b.mounts[m.value])
    ensures m.None? ==> forall k :: 0 <= k < |b.mounts| ==> !Names(id, b.mounts[k])
    ensures m == Routed(b, id)
  {
    for i := 0 to |b.mounts|
      invariant forall k :: 0 <= k < i ==> !Names(id, b.mounts[k])
      invariant Routed(b, id) == RoutedFrom(b, id, i)
    {
      if Names(id, b.mounts[i]) { return Some(i); }
    }
    m := None;
  }

  function RoutedFrom(b: Binding, id: string, from: nat): Option<nat>
    requires from <= |b.mounts|
    decreases |b.mounts| - from
  {
    if from == |b.mounts| then None else if Names(id, b.mounts[from]) then Some(from) else RoutedFrom(b, id, from + 1)
  }

  function Routed(b: Binding, id: string): Option<nat> {
    RoutedFrom(b, id, 0)
  }

  lemma {:induction false} RoutedIs(b: Binding, id: string, m: nat, from: nat)
    requires from <= m < |b.mounts| && Names(id, b.mounts[m]) && forall k :: from <= k < m ==> !Names(id, b.mounts[k])
    ensures RoutedFrom(b, id, from) == Some(m)
    decreases m - from
  {
    if from < m { RoutedIs(b, id, m, from + 1); }
  }

  function WirePath(b: Binding, m: nat, rel: Path): Path
    requires m < |b.mounts|
  {
    if m == b.write then rel else QualifyKbPath(Id12(b.mounts[m].id), rel)
  }

  /** Where a resumed page reads a wire path: its mount and the path there. */
  function Route(b: Binding, wire: Path): Option<(nat, Path)> {
    match ParseKbPath(wire)
    case Bare(rel) => Some((b.write, rel))
    case Qualified(id, rel) => if Routed(b, id).Some? then Some((Routed(b, id).value, rel)) else None
    case BadKb => None
  }

  datatype WriteTarget = Write(rel: Path) | NotMounted | ReadOnly | BadPath

  function WriteRepoPath(b: Binding, file: Path): WriteTarget {
    match ParseKbPath(file)
    case Bare(rel) => Write(rel)
    case Qualified(id, rel) =>
      if Routed(b, id).None? then NotMounted else if Routed(b, id).value != b.write then ReadOnly else Write(rel)
    case BadKb => BadPath
  }

  lemma MountRouted(b: Binding, m: nat)
    requires Valid(b) && m < |b.mounts|
    ensures Routed(b, Id12(b.mounts[m].id)) == Some(m)
  {
    var id := Id12(b.mounts[m].id);
    forall k | 0 <= k < m
      ensures !Names(id, b.mounts[k])
    {
      assert Id12(b.mounts[k].id) != id;
    }
    RoutedIs(b, id, m, 0);
  }

  // A wire path leads back to the mount and path it was made from; a write tool takes it exactly
  // when that mount is the write repo.
  lemma WireRoutesBack(b: Binding, m: nat, rel: Path)
    requires Valid(b) && m < |b.mounts| && rel != "" && !IsPrefix(KB_SCHEME, rel)
    ensures Route(b, WirePath(b, m, rel)) == Some((m, rel))
    ensures WriteRepoPath(b, WirePath(b, m, rel)) == if m == b.write then Write(rel) else ReadOnly
    ensures WriteRepoPath(b, QualifyKbPath(Id12(b.mounts[m].id), rel)) == if m == b.write then Write(rel) else ReadOnly
  {
    MountRouted(b, m);
    KbRoundTrip(Id12(b.mounts[m].id), rel);
  }

  /** The first mount whose id begins so. */
  ghost predicate FirstNamed(b: Binding, id: string, m: nat) {
    m < |b.mounts| && IsPrefix(id, b.mounts[m].id) && forall k :: 0 <= k < m ==> !IsPrefix(id, b.mounts[k].id)
  }

  // A write tool takes a bare path as it is, and a qualified one exactly when the first mount of its id
  // is the write repo; otherwise it is told that the mount is read-only, or not there, or the path bad.
  lemma WriteExactly(b: Binding, file: Path)
    ensures !IsPrefix("kb://", file) ==> WriteRepoPath(b, file) == Write(file)
    ensures forall id, rel :: '/' !in id && RepoId(Lower(id)) && rel != "" && file == QualifyKbPath(id, rel) ==>
              ((forall m :: 0 <= m < |b.mounts| ==> !IsPrefix(Lower(id), b.mounts[m].id)) ==> WriteRepoPath(b, file) == NotMounted) &&
              (forall m: nat :: FirstNamed(b, Lower(id), m) ==> WriteRepoPath(b, file) == if m == b.write then Write(rel) else ReadOnly)
    ensures IsPrefix("kb://", file) &&
            !(exists id, rel :: '/' !in id && RepoId(Lower(id)) && rel != "" && file == QualifyKbPath(id, rel)) ==>
              WriteRepoPath(b, file) == BadPath
  {
    if IsPrefix(KB_SCHEME, file) {
      KbParsed(file);
    }
    forall id, rel | '/' !in id && RepoId(Lower(id)) && rel != "" && file == QualifyKbPath(id, rel)
      ensures (forall m :: 0 <= m < |b.mounts| ==> !IsPrefix(Lower(id), b.mounts[m].id)) ==> WriteRepoPath(b, file) == NotMounted
      ensures forall m: nat :: FirstNamed(b, Lower(id), m) ==> WriteRepoPath(b, file) == if m == b.write then Write(rel) else ReadOnly
    {
      assert file[..|KB_SCHEME|] == KB_SCHEME;
      WriteQualified(b, file, Lower(id), rel);
    }
  }

  lemma WriteQualified(b: Binding, file: Path, id: string, rel: Path)
    requires ParseKbPath(file) == Qualified(id, rel) && RepoId(id)
    ensures (forall m :: 0 <= m < |b.mounts| ==> !IsPrefix(id, b.mounts[m].id)) ==> WriteRepoPath(b, file) == NotMounted
    ensures forall m: nat :: FirstNamed(b, id, m) ==> WriteRepoPath(b, file) == if m == b.write then Write(rel) else ReadOnly
  {
    forall m | 0 <= m < |b.mounts| ensures Names(id, b.mounts[m]) <==> IsPrefix(id, b.mounts[m].id) {
    }
    if forall m :: 0 <= m < |b.mounts| ==> !IsPrefix(id, b.mounts[m].id) {
      NoneRouted(b, id, 0);
    }
    forall m: nat | FirstNamed(b, id, m) ensures Routed(b, id) == Some(m) {
      RoutedIs(b, id, m, 0);
    }
  }

  lemma {:induction false} NoneRouted(b: Binding, id: string, from: nat)
    requires from <= |b.mounts| && forall m :: from <= m < |b.mounts| ==> !Names(id, b.mounts[m])
    ensures RoutedFrom(b, id, from) == None
    decreases |b.mounts| - from
  {
    if from < |b.mounts| { NoneRouted(b, id, from + 1); }
  }

  // Different rows have different wire paths.
  lemma WireInjective(b: Binding, m: nat, rel: Path, n: nat, rel2: Path)
    requires Valid(b) && m < |b.mounts| && n < |b.mounts| && rel != "" && rel2 != ""
    requires !IsPrefix(KB_SCHEME, rel) && !IsPrefix(KB_SCHEME, rel2)
    requires WirePath(b, m, rel) == WirePath(b, n, rel2)
    ensures m == n && rel == rel2
  {
    WireRoutesBack(b, m, rel);
    WireRoutesBack(b, n, rel2);
  }

  // ---------- fanning out ----------

  const KB_ROOT := "kb/"

  /** The topic a path filter pins down: only when the filter ends its segment. */
  function TopicOf(filter: Path): string {
    if !IsPrefix(KB_ROOT, filter) then ""
    else
      var rest := filter[|KB_ROOT|..];
      var i := First(rest, '/');
      if i == |rest| then "" else rest[..i]
  }

  /** A mount's topics, unless it has no ontology. */
  type Topics = Option<set<string>>

  predicate Skips(topics: Topics, filter: Path) {
    TopicOf(filter) != "" && topics.Some? && TopicOf(filter) !in topics.value
  }

  datatype Targets = Targets(mounts: seq<nat>, filter: Path) | Unmounted | BadFilter

  method ReadTargetsFor(b: Binding, topics: seq<Topics>, filter: Path) returns (r: Targets)
    requires |topics| == |b.mounts|
    ensures match ParseKbPath(filter) {
              case BadKb => r == BadFilter
              case Qualified(id, rel) => r == if Routed(b, id).None? then Unmounted else Targets([Routed(b, id).value], rel)
              case Bare(rel) =>
                && r.Targets? && r.filter == rel
                && (forall i, j :: 0 <= i < j < |r.mounts| ==> r.mounts[i] < r.mounts[j])
                && (forall m :: m in r.mounts <==> 0 <= m < |topics| && !Skips(topics[m], rel))
            }
  {
    match ParseKbPath(filter)
    case BadKb => r := BadFilter;
    case Qualified(id, rel) =>
      var m := ById(b, id);
      r := if m.None? then Unmounted else Targets([m.value], rel);
    case Bare(rel) =>
      var topic := TopicOf(rel);
      var out: seq<nat> := [];
      for i := 0 to |topics|
        invariant forall k :: 0 <= k < |out| ==> out[k] < i
        invariant forall k, l :: 0 <= k < l < |out| ==> out[k] < out[l]
        invariant forall m :: m in out <==> 0 <= m < i && !Skips(topics[m], rel)
      {
        if topic != "" && topics[i].Some? && topic !in topics[i].value { continue; }
        out := out + [i];
      }
      r := Targets(out, rel);
  }

  // ---------- what a filter matches ----------

  /** The store's LIKE: '%' is any run of characters, '_' any one, and ASCII case does not count. */
  predicate Like(pattern: string, text: string)
    decreases |pattern|, |text|
  {
    if pattern == "" then text == ""
    else if pattern[0] == '%' then Like(pattern[1..], text) || (text != "" && Like(pattern, text[1..]))
    else text != "" && (pattern[0] == '_' || LowerChar(pattern[0]) == LowerChar(text[0])) && Like(pattern[1..], text[1..])
  }

  predicate Matches(filter: Path, p: Path) {
    filter == "" || Like(filter + "%", p)
  }

  /** Neither a wildcard nor a capital. */
  predicate Plain(s: string) {
    Lower(s) == s && '%' !in s && '_' !in s
  }

  /** A plain start of a pattern is a start of every lower-case text it matches. */
  lemma {:induction false} PlainStart(start: string, rest: string, text: string)
    requires Plain(start) && Lower(text) == text && Like(start + rest, text)
    ensures IsPrefix(start, text)
    decreases |start|
  {
    if start != "" {
      var pattern := start + rest;
      assert pattern[0] == start[0] && pattern[1..] == start[1..] + rest;
      assert Lower(start)[0] == LowerChar(start[0]) && Lower(text)[0] == LowerChar(text[0]);
      LowerTail(start);
      LowerTail(text);
      PlainStart(start[1..], rest, text[1..]);
      assert text[..|start|] == [text[0]] + text[1..][..|start| - 1];
    }
  }

  lemma LowerTail(s: string)
    requires s != "" && Lower(s) == s
    ensures Lower(s[1..]) == s[1..]
  {
    assert forall i :: 0 <= i < |s| - 1 ==> s[1..][i] == s[i + 1];
  }

  /** A lower-case text a pattern matches, other than the pattern itself unless that is plain. */
  function Instance(s: string): (r: string)
    ensures |r| == |s| && forall i :: 0 <= i < |s| ==> r[i] == if s[i] == '%' || s[i] == '_' then 'a' else LowerChar(s[i])
  {
    seq(|s|, i requires 0 <= i < |s| => if s[i] == '%' || s[i] == '_' then 'a' else LowerChar(s[i]))
  }

  lemma {:induction false} InstanceMatches(s: string)
    ensures Like(s + "%", Instance(s))
    decreases |s|
  {
    if s == "" {
      assert s + "%" == "%" && Instance(s) == "" && "%"[1..] == "";
    } else {
      var pattern, text := s + "%", Instance(s);
      assert pattern[0] == s[0] && pattern[1..] == s[1..] + "%";
      assert text[1..] == Instance(s[1..]);
      InstanceMatches(s[1..]);
      if s[0] == '%' {
        assert Like(pattern[1..], text[1..]);
        assert Like(pattern, text[1..]);
      }
    }
  }

  // A filter that pins a topic matches only paths of that topic if and only if what it pins is plain.
  lemma FilterPinsTopic(filter: Path)
    requires TopicOf(filter) != ""
    ensures (forall p :: Lower(p) == p && Matches(filter, p) ==> TopicOf(p) == TopicOf(filter)) <==> Plain(TopicOf(filter))
  {
    if Plain(TopicOf(filter)) {
      forall p | Lower(p) == p && Matches(filter, p) ensures TopicOf(p) == TopicOf(filter) {
        PinnedTopic(filter, p);
      }
    } else {
      Strays(filter);
    }
  }

  lemma PinnedTopic(filter: Path, p: Path)
    requires TopicOf(filter) != "" && Plain(TopicOf(filter)) && Lower(p) == p && Matches(filter, p)
    ensures TopicOf(p) == TopicOf(filter)
  {
    var topic := TopicOf(filter);
    var start := KB_ROOT + topic + "/";
    var rest := filter[|KB_ROOT|..];
    assert filter[..|start|] == start;
    assert filter + "%" == start + (filter[|start|..] + "%");
    PlainStart(start, filter[|start|..] + "%", p);
    assert p[..|start|] == start;
    TopicRead(p, topic);
  }

  lemma TopicRead(p: Path, topic: string)
    requires '/' !in topic && IsPrefix(KB_ROOT + topic + "/", p)
    ensures TopicOf(p) == topic
  {
    var start := KB_ROOT + topic + "/";
    assert p[..|start|] == start;
    assert p[..|KB_ROOT|] == start[..|KB_ROOT|] == KB_ROOT;
    var prest := p[|KB_ROOT|..];
    assert forall i :: 0 <= i <= |topic| ==> prest[i] == start[|KB_ROOT| + i];
    FirstIs(prest, '/', |topic|);
    assert prest[..|topic|] == topic;
  }

  // A mount is skipped exactly when it has an ontology and the filter goes into a topic that is not of it;
  // one without an ontology never is.
  lemma SkipsExactly(topics: Topics, filter: Path)
    ensures Skips(topics, filter) <==>
      topics.Some? && exists topic :: topic != "" && '/' !in topic && topic !in topics.value && IsPrefix("kb/" + topic + "/", filter)
  {
    if Skips(topics, filter) {
      var topic := TopicOf(filter);
      var rest := filter[|KB_ROOT|..];
      assert filter[..|KB_ROOT| + |topic| + 1] == KB_ROOT + topic + "/";
    }
    if topic :| topics.Some? && topic != "" && '/' !in topic && topic !in topics.value && IsPrefix("kb/" + topic + "/", filter) {
      TopicRead(filter, topic);
    }
  }

  /** What a filter that is not plain can match elsewhere. */
  lemma Strays(filter: Path)
    requires TopicOf(filter) != "" && !Plain(TopicOf(filter))
    ensures var p := Instance(filter);
      Lower(p) == p && Matches(filter, p) && TopicOf(p) == Instance(TopicOf(filter)) != TopicOf(filter) && TopicOf(p) != ""
  {
    var topic, p := TopicOf(filter), Instance(filter);
    var start := KB_ROOT + topic + "/";
    assert filter[..|start|] == start;
    InstanceMatches(filter);
    assert Lower(p) == p;
    var other := Instance(topic);
    assert p[..|start|] == KB_ROOT + other + "/" by {
      assert forall i :: 0 <= i < |start| ==> filter[i] == start[i];
    }
    TopicRead(p, other);
  }

  // Being skipped costs a mount nothing, whatever it holds under the topics it lists, if and only if
  // the filter pins no topic or a plain one.
  lemma SkipLoses(filter: Path)
    ensures (forall topics: set<string>, p ::
              Skips(Some(topics), filter) && Lower(p) == p && TopicOf(p) in topics ==> !Matches(filter, p)) <==>
            TopicOf(filter) == "" || Plain(TopicOf(filter))
  {
    if TopicOf(filter) != "" {
      FilterPinsTopic(filter);
      if !Plain(TopicOf(filter)) {
        Strays(filter);
        var p := Instance(filter);
        assert Skips(Some({TopicOf(p)}), filter) && TopicOf(p) in {TopicOf(p)};
      }
    }
  }

  // And no plain filter that skips a mount matches a fact of it if and only if the mount lists every
  // plain topic it holds.
  lemma ListedTopicsServed(topics: set<string>, facts: set<Path>)
    requires forall p :: p in facts ==> Lower(p) == p
    ensures (forall filter, p :: Plain(TopicOf(filter)) && Skips(Some(topics), filter) && p in facts ==> !Matches(filter, p)) <==>
            (forall p :: p in facts && TopicOf(p) != "" && Plain(TopicOf(p)) ==> TopicOf(p) in topics)
  {
    forall filter, p | Plain(TopicOf(filter)) && Skips(Some(topics), filter) && p in facts && Matches(filter, p)
      ensures TopicOf(p) == TopicOf(filter)
    {
      PinnedTopic(filter, p);
    }
    forall p | p in facts && TopicOf(p) != "" && Plain(TopicOf(p)) && TopicOf(p) !in topics
      ensures exists filter :: Plain(TopicOf(filter)) && Skips(Some(topics), filter) && Matches(filter, p)
    {
      var topic := TopicOf(p);
      var filter := KB_ROOT + topic + "/";
      assert filter[..|filter|] == filter;
      TopicRead(filter, topic);
      assert p[..|filter|] == filter;
      StartMatches(filter, p);
    }
  }

  lemma {:induction false} StartMatches(start: string, p: string)
    requires IsPrefix(start, p) && '%' !in start
    ensures Like(start + "%", p)
    decreases |start|
  {
    if start == "" {
      assert start + "%" == "%";
      AnyMatches(p);
    } else {
      assert (start + "%")[0] == start[0] == p[0] && (start + "%")[1..] == start[1..] + "%";
      assert p[1..][..|start| - 1] == start[1..];
      StartMatches(start[1..], p[1..]);
    }
  }

  lemma {:induction false} AnyMatches(text: string)
    ensures Like("%", text)
    decreases |text|
  {
    assert "%"[1..] == "";
    if text != "" {
      AnyMatches(text[1..]);
    }
  }

  // A filter in another case: the mount lists the topic, holds a match, and is skipped.
  lemma CapitalFilterSkips()
    ensures var filter, p := "kb/Decisions/", "kb/decisions/a/1.md";
      Lower(p) == p && Skips(Some({"decisions"}), filter) && TopicOf(p) == "decisions" && Matches(filter, p)
  {
    hide Like, First, Lower;
    CapitalFolds();
    CapitalTopics();
    FoldMatches("kb/Decisions/", "kb/decisions/a/1.md");
  }

  lemma CapitalTopics()
    ensures TopicOf("kb/Decisions/") == "Decisions" && TopicOf("kb/decisions/a/1.md") == "decisions"
    ensures "Decisions" !in {"decisions"}
  {
    hide TopicOf, First;
    assert "kb/decisions/a/1.md"[..13] == KB_ROOT + "decisions" + "/";
    assert "kb/Decisions/"[..13] == KB_ROOT + "Decisions" + "/";
    TopicRead("kb/Decisions/", "Decisions");
    TopicRead("kb/decisions/a/1.md", "decisions");
    assert "Decisions"[0] != "decisions"[0];
  }

  lemma CapitalFolds()
    ensures var filter, p := "kb/Decisions/", "kb/decisions/a/1.md";
      Lower(p) == p && '%' !in filter && forall i :: 0 <= i < |filter| ==> LowerChar(filter[i]) == LowerChar(p[i])
  {
    LowerFixes("kb/decisions/a/1.md");
  }

  lemma {:induction false} FoldMatches(start: string, p: string)
    requires |start| <= |p| && '%' !in start && forall i :: 0 <= i < |start| ==> LowerChar(start[i]) == LowerChar(p[i])
    ensures Like(start + "%", p)
    decreases |start|
  {
    if start == "" {
      assert start + "%" == "%";
      AnyMatches(p);
    } else {
      assert (start + "%")[0] == start[0] && (start + "%")[1..] == start[1..] + "%";
      FoldMatches(start[1..], p[1..]);
    }
  }
}
