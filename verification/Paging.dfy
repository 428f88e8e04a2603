/**
 Paging a query over a lens (internal/mcp/query.go): the first page, the snapshot of the rest, and
 the resumes that serve it, each row routed back to its mount.
*/
module Paging {
  import opened Federate
  import opened RefSyntax
  import opened Wrappers

  /** A result row: which mount it came from, its path there and the version pinned. */
  datatype Hit = Hit(mount: nat, rel: Path, commit: string)

  /** A queued row: its wire path carries the mount. */
  datatype Item = Item(wire: Path, commit: string, sortKey: nat)

  /** A row of a page, with the mount and path it was read from. */
  datatype Served = Served(wire: Path, hit: Hit)

  datatype Page = Page(rows: seq<Served>, hasMore: bool)

  const WINDOWS := 3

  ghost predicate Addressable(b: Binding, hits: seq<Hit>) {
    Valid(b) && forall i :: 0 <= i < |hits| ==>
      hits[i].mount < |b.mounts| && hits[i].rel != "" && !IsPrefix(KB_SCHEME, hits[i].rel)
  }

  function Render(b: Binding, hit: Hit): Served
    requires hit.mount < |b.mounts|
  {
    Served(WirePath(b, hit.mount, hit.rel), hit)
  }

  /** The hits of a list that can be read at their pin, rendered. */
  ghost function Readable(b: Binding, hits: seq<Hit>, readable: Hit -> bool): seq<Served>
    requires Addressable(b, hits)
  {
    if hits == [] then []
    else
      Readable(b, hits[..|hits| - 1], readable)
      + if readable(hits[|hits| - 1]) then [Render(b, hits[|hits| - 1])] else []
  }

  lemma {:induction false} ReadableJoin(b: Binding, x: seq<Hit>, y: seq<Hit>, readable: Hit -> bool)
    requires Addressable(b, x) && Addressable(b, y)
    ensures Addressable(b, x + y) && Readable(b, x + y, readable) == Readable(b, x, readable) + Readable(b, y, readable)
    decreases |y|
  {
    if y == [] {
      assert x + y == x;
    } else {
      var init := y[..|y| - 1];
      assert (x + y)[..|x + y| - 1] == x + init && (x + y)[|x + y| - 1] == y[|y| - 1];
      ReadableJoin(b, x, init, readable);
    }
  }

  lemma {:induction false} AllReadable(b: Binding, hits: seq<Hit>, readable: Hit -> bool)
    requires Addressable(b, hits) && forall i :: 0 <= i < |hits| ==> readable(hits[i])
    ensures |Readable(b, hits, readable)| == |hits|
    ensures forall i :: 0 <= i < |hits| ==> Readable(b, hits, readable)[i] == Render(b, hits[i])
  {
    hide Render, Valid;
    if hits != [] { AllReadable(b, hits[..|hits| - 1], readable); }
  }

  lemma {:induction false} NoneReadable(b: Binding, hits: seq<Hit>, readable: Hit -> bool)
    requires Addressable(b, hits)
    ensures Readable(b, hits, readable) == [] <==> forall i :: 0 <= i < |hits| ==> !readable(hits[i])
  {
    if hits != [] {
      NoneReadable(b, hits[..|hits| - 1], readable);
    }
  }

  /** A snapshot's queue holds these hits, in this order. */
  ghost predicate Queues(b: Binding, queue: seq<Item>, hits: seq<Hit>) {
    && Addressable(b, hits) && |queue| == |hits|
    && (forall i :: 0 <= i < |hits| ==>
          queue[i].wire == WirePath(b, hits[i].mount, hits[i].rel) && queue[i].commit == hits[i].commit)
    && (forall i, j :: 0 <= i < j < |queue| ==> queue[i].sortKey < queue[j].sortKey)
  }

  class Session {
    var queue: seq<Item>      // by sort key

    constructor ()
      ensures queue == []
    {
      queue := [];
    }

    method Enqueue(b: Binding, hits: seq<Hit>, from: nat)
      requires Addressable(b, hits) && queue == [] && from <= |hits|
      modifies this
      ensures Queues(b, queue, hits[from..])
    {
      var items := [];
      for i := from to |hits|
        invariant |items| == i - from
        invariant forall k :: 0 <= k < |items| ==>
          items[k] == Item(WirePath(b, hits[from + k].mount, hits[from + k].rel), hits[from + k].commit, from + k)
      {
        items := items + [Item(WirePath(b, hits[i].mount, hits[i].rel), hits[i].commit, i)];
      }
      queue := items;
    }

    // The rows with the lowest sort keys, removed.
    method Dequeue(n: nat) returns (items: seq<Item>)
      modifies this
      ensures items + queue == old(queue)
      ensures |items| == if |old(queue)| < n then |old(queue)| else n
    {
      var k := if |queue| < n then |queue| else n;
      items := queue[..k];
      queue := queue[k..];
    }

    // Takes the next window off the queue and reads it; no window is left when none comes.
    method NextWindow(b: Binding, pageSize: nat, readable: Hit -> bool, ghost rest: seq<Hit>, ghost served: nat)
      returns (rows: seq<Served>, ghost n: nat, empty: bool)
      requires pageSize > 0 && served <= |rest| && Queues(b, queue, rest[served..]) && Addressable(b, rest)
      modifies this
      ensures n == (if |rest| - served < pageSize then |rest| - served else pageSize) && (empty <==> n == 0)
      ensures Queues(b, queue, rest[served + n..]) && (|queue| > 0 <==> served + n < |rest|)
      ensures rows == Readable(b, rest[served..served + n], readable) && |rows| <= n
    {
      hide Readable, WirePath, Valid;
      ghost var before := queue;
      var items := Dequeue(pageSize);
      n := |items|;
      empty := |items| == 0;
      QueueSplits(b, before, rest, served, n);
      assert before[..n] == items && before[n..] == queue;
      rows := ServeWindow(b, items, readable, rest[served..served + n]);
      ReadableShort(b, rest[served..served + n], readable);
    }

    // Serves the next page: windows are tried until one holds a readable row, three at most. So the
    // page is empty with more to come exactly when rows remain beyond three windows none of whose
    // rows can be read.
    method Resume(b: Binding, pageSize: nat, readable: Hit -> bool, ghost rest: seq<Hit>) returns (page: Page, ghost served: nat)
      requires pageSize > 0 && Queues(b, queue, rest)
      modifies this
      ensures served <= |rest| && Queues(b, queue, rest[served..])
      ensures page.rows == Readable(b, rest[..served], readable)
      ensures page.hasMore <==> served < |rest|
      ensures rest != [] ==> served > 0
      ensures served <= Tried(|rest|, pageSize, WINDOWS) && |page.rows| <= pageSize
      ensures page.rows == [] ==> served == Tried(|rest|, pageSize, WINDOWS)
      ensures page.rows == [] && page.hasMore <==>
                |rest| > WINDOWS * pageSize && forall i :: 0 <= i < WINDOWS * pageSize ==> !readable(rest[i])
    {
      hide Readable, Queues, Valid, Addressable;
      QueueFacts(b, queue, rest, readable);
      served := 0;
      var w := 0;
      page := Page([], |queue| > 0);
      while w < WINDOWS
        invariant 0 <= w <= WINDOWS && served <= |rest|
        invariant Queues(b, queue, rest[served..]) && (page.hasMore <==> served < |rest|)
        invariant Addressable(b, rest[..served]) && page.rows == [] == Readable(b, rest[..served], readable)
        invariant served == Tried(|rest|, pageSize, w)
        decreases WINDOWS - w
      {
        var rows, n, empty := NextWindow(b, pageSize, readable, rest, served);
        TriedNext(|rest|, pageSize, w, WINDOWS);
        TriedGrows(|rest|, pageSize, w + 1, WINDOWS);
        ReadableNext(b, rest, served, n, readable);
        served := served + n;
        page := Page(rows, |queue| > 0);
        if empty || |rows| > 0 { break; }
        w := w + 1;
      }
      EmptyPageWithMore(b, rest, served, page, pageSize, readable);
    }
  }

  /** How many rows w windows take. */
  ghost function Tried(total: nat, pageSize: nat, w: nat): nat {
    if w == 0 then 0
    else
      var before := Tried(total, pageSize, w - 1);
      if before >= total then before else if total - before < pageSize then total else before + pageSize
  }

  lemma {:induction false} TriedNext(total: nat, pageSize: nat, w: nat, last: nat)
    requires w < last
    ensures Tried(total, pageSize, w) <= total
    ensures Tried(total, pageSize, w) == total ==> Tried(total, pageSize, last) == total
    decreases last
  {
    TriedBounded(total, pageSize, w);
    if w + 1 < last { TriedNext(total, pageSize, w, last - 1); }
  }

  lemma {:induction false} TriedBounded(total: nat, pageSize: nat, w: nat)
    ensures Tried(total, pageSize, w) <= total
  {
    if w > 0 { TriedBounded(total, pageSize, w - 1); }
  }

  lemma {:induction false} TriedGrows(total: nat, pageSize: nat, w: nat, last: nat)
    requires w <= last
    ensures Tried(total, pageSize, w) <= Tried(total, pageSize, last)
    decreases last
  {
    if w < last {
      TriedGrows(total, pageSize, w, last - 1);
      TriedBounded(total, pageSize, last - 1);
    }
  }

  lemma {:induction false} ReadableShort(b: Binding, hits: seq<Hit>, readable: Hit -> bool)
    requires Addressable(b, hits)
    ensures |Readable(b, hits, readable)| <= |hits|
  {
    if hits != [] {
      ReadableShort(b, hits[..|hits| - 1], readable);
    }
  }

  lemma QueueFacts(b: Binding, queue: seq<Item>, rest: seq<Hit>, readable: Hit -> bool)
    requires Queues(b, queue, rest)
    ensures |queue| == |rest| && rest[0..] == rest && Addressable(b, rest) && rest[..0] == []
    ensures Addressable(b, []) && Readable(b, rest[..0], readable) == []
  {
  }

  lemma QueueSplits(b: Binding, queue: seq<Item>, rest: seq<Hit>, served: nat, n: nat)
    requires served <= |rest| && Queues(b, queue, rest[served..]) && n <= |queue|
    ensures served + n <= |rest| && |queue| == |rest| - served
    ensures Queues(b, queue[..n], rest[served..served + n]) && Queues(b, queue[n..], rest[served + n..])
  {
    var hits := rest[served..];
    assert rest[served..served + n] == hits[..n] && rest[served + n..] == hits[n..];
    hide WirePath, Valid;
  }

  lemma ReadableNext(b: Binding, rest: seq<Hit>, served: nat, n: nat, readable: Hit -> bool)
    requires Addressable(b, rest) && served + n <= |rest|
    ensures Addressable(b, rest[..served]) && Addressable(b, rest[served..served + n]) && Addressable(b, rest[..served + n])
    ensures Readable(b, rest[..served + n], readable)
         == Readable(b, rest[..served], readable) + Readable(b, rest[served..served + n], readable)
  {
    ReadableJoin(b, rest[..served], rest[served..served + n], readable);
    assert rest[..served] + rest[served..served + n] == rest[..served + n];
  }

  // One window: each item routed to the mount its wire path names and read there.
  method ServeWindow(b: Binding, items: seq<Item>, readable: Hit -> bool, ghost window: seq<Hit>) returns (rows: seq<Served>)
    requires Queues(b, items, window)
    ensures rows == Readable(b, window, readable)
  {
    rows := [];
    for i := 0 to |items|
      invariant rows == Readable(b, window[..i], readable)
    {
      WireRoutesBack(b, window[i].mount, window[i].rel);
      var at := Route(b, items[i].wire);
      var hit := Hit(at.value.0, at.value.1, items[i].commit);
      assert window[..i + 1][..i] == window[..i];
      if readable(hit) {
        rows := rows + [Served(items[i].wire, hit)];
      }
    }
    assert window[..|items|] == window;
  }

  // ---------- a whole query ----------

  // Everything a client collects by resuming until no more is offered.
  method Drain(session: Session, b: Binding, pageSize: nat, readable: Hit -> bool, ghost rest: seq<Hit>)
      returns (rows: seq<Served>)
    requires pageSize > 0 && Queues(b, session.queue, rest)
    modifies session
    ensures Addressable(b, rest) && rows == Readable(b, rest, readable)
  {
    hide Readable, Queues, Valid, Addressable;
    QueueFacts(b, session.queue, rest, readable);
    rows := [];
    ghost var served := 0;
    var more := true;
    while more
      invariant served <= |rest| && Queues(b, session.queue, rest[served..])
      invariant Addressable(b, rest[..served]) && rows == Readable(b, rest[..served], readable)
      invariant !more ==> served == |rest|
      decreases more, |rest| - served
    {
      ghost var left := rest[served..];
      var page;
      ghost var n;
      page, n := session.Resume(b, pageSize, readable, left);
      assert left[n..] == rest[served + n..] && left[..n] == rest[served..served + n];
      ReadableNext(b, rest, served, n, readable);
      served := served + n;
      rows := rows + page.rows;
      more := page.hasMore;
    }
    assert rest[..served] == rest;
  }

  // A relevance query: the first page from the search itself, the rest by resuming. All of it is
  // the order, no row lost, repeated or misrouted; resumed rows are those still readable.
  method QueryRelevance(b: Binding, hits: seq<Hit>, pageSize: nat, readable: Hit -> bool) returns (rows: seq<Served>)
    requires pageSize > 0 && Addressable(b, hits)
    ensures var k := if |hits| < pageSize then |hits| else pageSize;
            && |rows| >= k && (forall i :: 0 <= i < k ==> rows[i] == Render(b, hits[i]))
            && Addressable(b, hits[k..]) && rows[k..] == Readable(b, hits[k..], readable)
    ensures (forall i :: 0 <= i < |hits| ==> readable(hits[i])) ==>
              |rows| == |hits| && forall i :: 0 <= i < |hits| ==> rows[i] == Render(b, hits[i])
  {
    hide Valid, WirePath, Queues, Render;
    var k := if |hits| < pageSize then |hits| else pageSize;
    var first := [];
    for i := 0 to k
      invariant |first| == i && forall j :: 0 <= j < i ==> first[j] == Render(b, hits[j])
    {
      first := first + [Render(b, hits[i])];
    }
    if |hits| <= pageSize {
      assert hits[k..] == [];
      return first;
    }
    var session := new Session();
    session.Enqueue(b, hits, pageSize);
    var more := Drain(session, b, pageSize, readable, hits[pageSize..]);
    rows := first + more;
    assert rows[k..] == more;
    if forall i :: 0 <= i < |hits| ==> readable(hits[i]) {
      AllReadable(b, hits[pageSize..], readable);
      Joined(b, hits, pageSize, first, more);
    }
  }

  lemma Joined(b: Binding, hits: seq<Hit>, k: nat, first: seq<Served>, more: seq<Served>)
    requires Addressable(b, hits) && k <= |hits| && |first| == k && |more| == |hits| - k
    requires forall i :: 0 <= i < k ==> first[i] == Render(b, hits[i])
    requires forall i :: 0 <= i < |more| ==> more[i] == Render(b, hits[k..][i])
    ensures |first + more| == |hits| && forall i :: 0 <= i < |hits| ==> (first + more)[i] == Render(b, hits[i])
  {
    hide Valid, Render;
    assert forall i :: k <= i < |hits| ==> hits[k..][i - k] == hits[i] && (first + more)[i] == more[i - k];
  }

  // A recency query: everything is snapshotted and served by resuming.
  method QueryRecent(b: Binding, hits: seq<Hit>, pageSize: nat, readable: Hit -> bool) returns (rows: seq<Served>)
    requires pageSize > 0 && Addressable(b, hits)
    ensures rows == Readable(b, hits, readable)
  {
    var session := new Session();
    session.Enqueue(b, hits, 0);
    assert hits[0..] == hits;
    rows := Drain(session, b, pageSize, readable, hits);
  }

  // A resume can come back empty with more to come, for all that windows are retried: exactly when
  // rows remain beyond three windows none of whose rows can be read.
  lemma EmptyPageWithMore(b: Binding, rest: seq<Hit>, served: nat, page: Page, pageSize: nat, readable: Hit -> bool)
    requires Addressable(b, rest) && served <= |rest| && pageSize > 0
    requires Addressable(b, rest[..served]) && page.rows == Readable(b, rest[..served], readable)
    requires served <= Tried(|rest|, pageSize, WINDOWS) && (page.rows == [] ==> served == Tried(|rest|, pageSize, WINDOWS))
    requires page.hasMore <==> served < |rest|
    ensures page.rows == [] && page.hasMore <==>
              |rest| > WINDOWS * pageSize && forall i :: 0 <= i < WINDOWS * pageSize ==> !readable(rest[i])
  {
    NoneReadable(b, rest[..served], readable);
    assert Tried(|rest|, pageSize, 1) == if |rest| < pageSize then |rest| else pageSize;
    assert Tried(|rest|, pageSize, 2) == if |rest| < 2 * pageSize then |rest| else 2 * pageSize;
    assert Tried(|rest|, pageSize, 3) == if |rest| < 3 * pageSize then |rest| else 3 * pageSize;
    assert forall i :: 0 <= i < served ==> rest[..served][i] == rest[i];
  }

  // ---------- from the mounts' lists to the rows served ----------

  /** What the searches brought back: for each target its mount, and its rows' paths, versions and commit times. */
  datatype Found = Found(mounts: seq<nat>, paths: seq<seq<Path>>, commits: seq<seq<string>>, stamps: seq<seq<int>>)

  ghost predicate WellFound(b: Binding, f: Found) {
    && Valid(b) && |f.mounts| == |f.paths| == |f.commits| == |f.stamps| && DistinctRows(f.paths)
    && (forall t :: 0 <= t < |f.mounts| ==> f.mounts[t] < |b.mounts| && |f.commits[t]| == |f.paths[t]| == |f.stamps[t]|)
    && (forall t, r :: 0 <= t < |f.paths| && 0 <= r < |f.paths[t]| ==> f.paths[t][r] != "" && !IsPrefix(KB_SCHEME, f.paths[t][r]))
  }

  function HitAt(f: Found, ref: MountRef): Hit
    requires |f.mounts| == |f.paths| == |f.commits|
    requires ref.mount < |f.paths| && ref.rank < |f.paths[ref.mount]| && ref.rank < |f.commits[ref.mount]|
  {
    Hit(f.mounts[ref.mount], f.paths[ref.mount][ref.rank], f.commits[ref.mount][ref.rank])
  }

  function WriteTargets(b: Binding, f: Found): seq<bool> {
    seq(|f.mounts|, t requires 0 <= t < |f.mounts| => f.mounts[t] == b.write)
  }

  /** The order of all rows: by commit time for a recency query without text, fused otherwise. */
  function OrderOf(f: Found, byTime: bool): seq<MountRef> {
    if byTime then Merged(f.stamps) else Fused(PathLens(f.paths))
  }

  /** The rows a query serves: the winning copy of each path, in the order of all rows, capped. */
  ghost predicate Selected(b: Binding, f: Found, byTime: bool, max: nat, kept: seq<MountRef>, hits: seq<Hit>)
    requires WellFound(b, f)
  {
    (exists winner :: Decides(f.paths, WriteTargets(b, f), winner) && kept == Capped(Winning(OrderOf(f, byTime), f.paths, winner), max)) &&
    HitsOf(f, kept, hits)
  }

  ghost predicate HitsOf(f: Found, kept: seq<MountRef>, hits: seq<Hit>)
    requires |f.mounts| == |f.paths| == |f.commits| && forall t :: 0 <= t < |f.paths| ==> |f.commits[t]| == |f.paths[t]|
  {
    |hits| == |kept| && forall i :: 0 <= i < |kept| ==>
      var t, r := kept[i].mount, kept[i].rank;
      && t < |f.paths| && r < |f.paths[t]|
      && hits[i].mount == f.mounts[t] && hits[i].rel == f.paths[t][r] && hits[i].commit == f.commits[t][r]
  }

  /** Row x comes before row y: committed later, or, without times, ranked higher; ties by target. */
  ghost predicate Ahead(f: Found, byTime: bool, x: MountRef, y: MountRef) {
    if byTime then Later(f.stamps, x, y) else x.rank < y.rank || (x.rank == y.rank && x.mount < y.mount)
  }

  /** Of two targets that have a path, t serves it: the write mount, or else the earlier. */
  ghost predicate Serves(b: Binding, f: Found, t: nat, u: nat)
    requires t < |f.mounts| && u < |f.mounts|
  {
    if f.mounts[t] == b.write then f.mounts[u] != b.write || t < u else f.mounts[u] != b.write && t < u
  }

  ghost predicate ServesAlone(b: Binding, f: Found, t: nat, p: Path)
    requires t < |f.mounts| == |f.paths|
  {
    forall u :: 0 <= u < |f.paths| && u != t && p in f.paths[u] ==> Serves(b, f, t, u)
  }

  /** Each row kept is the copy its target serves; they are in order; and a copy that is served and not
      kept comes after as many as may be. */
  ghost predicate AsListed(b: Binding, f: Found, byTime: bool, max: nat, kept: seq<MountRef>, hits: seq<Hit>)
    requires WellFound(b, f)
  {
    HitsOf(f, kept, hits) && |kept| <= max &&
    (forall i :: 0 <= i < |kept| ==> ServesAlone(b, f, kept[i].mount, hits[i].rel)) &&
    (forall i, j :: 0 <= i < j < |kept| ==> Ahead(f, byTime, kept[i], kept[j])) &&
    (forall t: nat, r: nat :: t < |f.paths| && r < |f.paths[t]| && ServesAlone(b, f, t, f.paths[t][r]) && MountRef(t, r) !in kept ==>
       |kept| == max && forall i :: 0 <= i < max ==> Ahead(f, byTime, kept[i], MountRef(t, r)))
  }

  /** A row's wire path is its path on the write mount, elsewhere qualified with the first twelve digits
      of its mount's id; and it leads back there. */
  ghost predicate Addressed(b: Binding, hit: Hit)
    requires Valid(b) && hit.mount < |b.mounts|
  {
    var row := Render(b, hit);
    && row.hit == hit && Route(b, row.wire) == Some((hit.mount, hit.rel))
    && (if hit.mount == b.write then row.wire == hit.rel
        else |b.mounts[hit.mount].id| >= 12 && row.wire == "kb://" + b.mounts[hit.mount].id[..12] + "/" + hit.rel)
  }

  // Either way the order has every row once. A mount's rows stay as it listed them: always when
  // fused, and by time when its list is latest first.
  lemma OrderHasAll(b: Binding, f: Found, byTime: bool)
    requires WellFound(b, f)
    ensures EachOnce(OrderOf(f, byTime), PathLens(f.paths))
    ensures (byTime ==> forall m :: 0 <= m < |f.stamps| ==> Falling(f.stamps[m])) ==> OwnOrder(OrderOf(f, byTime))
    ensures forall i, j :: 0 <= i < j < |OrderOf(f, byTime)| ==> Ahead(f, byTime, OrderOf(f, byTime)[i], OrderOf(f, byTime)[j])
  {
    hide Merged, Fused, Later;
    if byTime {
      MergeOrders(f.stamps);
      assert Lens(f.stamps) == PathLens(f.paths);
    } else {
      FusionOrders(PathLens(f.paths));
    }
  }

  lemma RowsInLists(order: seq<MountRef>, paths: seq<seq<Path>>, winner: map<Path, nat>)
    requires EachOnce(order, PathLens(paths))
    ensures forall i :: 0 <= i < |order| ==> Row(PathLens(paths), order[i])
    ensures var kept := Winning(order, paths, winner); forall i :: 0 <= i < |kept| ==> Row(PathLens(paths), kept[i])
  {
    forall i | 0 <= i < |order|
      ensures Row(PathLens(paths), order[i])
    {
      InList(order, PathLens(paths), i);
    }
    WinningWithin(order, paths, winner);
    var kept := Winning(order, paths, winner);
    var at: seq<nat> :| Places(kept, order, at);
    assert forall i :: 0 <= i < |kept| ==> kept[i] == order[at[i]];
  }

  // Orders the mounts' rows, keeps one copy of each path, and caps.
  method Select(b: Binding, f: Found, byTime: bool, max: nat) returns (hits: seq<Hit>, kept: seq<MountRef>)
    requires WellFound(b, f)
    ensures Selected(b, f, byTime, max, kept, hits) && AsListed(b, f, byTime, max, kept, hits)
  {
    hide Merged, Fused, Winning, Wins, EachOnce, DistinctRows;
    var order;
    if byTime {
      order := MergeRecent(f.stamps, Total(f.stamps, |f.stamps|));
      AllMerged(f.stamps);
    } else {
      order := FuseRRF(PathLens(f.paths));
    }
    OrderHasAll(b, f, byTime);
    RowsInLists(order, f.paths, map[]);
    var winner;
    kept, winner := KeepWinners(order, f.paths, WriteTargets(b, f));
    RowsInLists(order, f.paths, winner);
    if |kept| > max { kept := kept[..max]; }
    hits := [];
    for i := 0 to |kept|
      invariant |hits| == i && forall k :: 0 <= k < i ==> hits[k] == HitAt(f, kept[k])
    {
      hits := hits + [HitAt(f, kept[i])];
    }
    assert Decides(f.paths, WriteTargets(b, f), winner);
    SelectedAsListed(b, f, byTime, max, kept, hits);
  }

  /** How many rows the first n lists hold. */
  function Total(lists: seq<seq<int>>, n: nat): nat
    requires n <= |lists|
  {
    if n == 0 then 0 else Total(lists, n - 1) + |lists[n - 1]|
  }

  // Asking the merge for as many rows as there are caps nothing.
  lemma AllMerged(stamps: seq<seq<int>>)
    ensures |Merged(stamps)| == Total(stamps, |stamps|)
    ensures Capped(Merged(stamps), Total(stamps, |stamps|)) == Merged(stamps)
  {
    RowsCounted(stamps, |stamps|);
    assert Lens(stamps)[..|stamps|] == Lens(stamps);
    assert |multiset(Merged(stamps))| == |multiset(Rows(Lens(stamps)))|;
  }

  lemma {:induction false} RowsCounted(stamps: seq<seq<int>>, n: nat)
    requires n <= |stamps|
    ensures |Rows(Lens(stamps)[..n])| == Total(stamps, n)
  {
    if n > 0 {
      RowsCounted(stamps, n - 1);
      assert Lens(stamps)[..n][..n - 1] == Lens(stamps)[..n - 1];
    }
  }

  /** The rows selected are each a different path at a different address, which leads back to them; and
      each target's are in its own order, by time if its list is latest first. */
  ghost predicate InOrder(b: Binding, f: Found, byTime: bool, kept: seq<MountRef>, hits: seq<Hit>)
    requires WellFound(b, f)
  {
    Addressable(b, hits) && |kept| == |hits| &&
    (forall i, j :: 0 <= i < j < |hits| ==> Render(b, hits[i]).wire != Render(b, hits[j]).wire && hits[i].rel != hits[j].rel) &&
    (forall i :: 0 <= i < |hits| ==> Addressed(b, hits[i])) &&
    ((byTime ==> forall m :: 0 <= m < |f.stamps| ==> Falling(f.stamps[m])) ==> OwnOrder(kept))
  }

  // The rows of a relevance query: the winning copies in fused order, all of them over the pages.
  method Query(b: Binding, f: Found, max: nat, pageSize: nat, readable: Hit -> bool)
      returns (rows: seq<Served>, hits: seq<Hit>, kept: seq<MountRef>)
    requires WellFound(b, f) && pageSize > 0
    ensures AsListed(b, f, false, max, kept, hits) && InOrder(b, f, false, kept, hits)
    ensures var k := if |hits| < pageSize then |hits| else pageSize;
            && |rows| >= k && (forall i :: 0 <= i < k ==> rows[i] == Render(b, hits[i]))
            && Addressable(b, hits[k..]) && rows[k..] == Readable(b, hits[k..], readable)
    ensures (forall i :: 0 <= i < |hits| ==> readable(hits[i])) ==>
              |rows| == |hits| && forall i :: 0 <= i < |hits| ==> rows[i] == Render(b, hits[i])
  {
    hide Selected, AsListed, Readable, OwnOrder, Falling;
    hits, kept := Select(b, f, false, max);
    SelectedInOrder(b, f, false, max, kept, hits);
    rows := QueryRelevance(b, hits, pageSize, readable);
  }

  // The rows of a recency query: with text fused, without it by commit time; all still readable, in
  // order, over the pages.
  method RecentQuery(b: Binding, f: Found, text: string, max: nat, pageSize: nat, readable: Hit -> bool)
      returns (rows: seq<Served>, hits: seq<Hit>, kept: seq<MountRef>)
    requires WellFound(b, f) && pageSize > 0
    ensures AsListed(b, f, text == "", max, kept, hits) && InOrder(b, f, text == "", kept, hits)
    ensures rows == Readable(b, hits, readable)
    ensures (forall i :: 0 <= i < |hits| ==> readable(hits[i])) ==>
              |rows| == |hits| && forall i :: 0 <= i < |hits| ==> rows[i] == Render(b, hits[i])
  {
    hide Selected, AsListed, Readable, OwnOrder, Falling;
    hits, kept := Select(b, f, text == "", max);
    SelectedInOrder(b, f, text == "", max, kept, hits);
    rows := QueryRecent(b, hits, pageSize, readable);
    if forall i :: 0 <= i < |hits| ==> readable(hits[i]) {
      AllReadable(b, hits, readable);
    }
  }

  lemma SelectedInOrder(b: Binding, f: Found, byTime: bool, max: nat, kept: seq<MountRef>, hits: seq<Hit>)
    requires WellFound(b, f) && Selected(b, f, byTime, max, kept, hits)
    ensures InOrder(b, f, byTime, kept, hits)
  {
    var winner :| Decides(f.paths, WriteTargets(b, f), winner) && kept == Capped(Winning(OrderOf(f, byTime), f.paths, winner), max);
    OrderHasAll(b, f, byTime);
    RowsDistinct(b, f, OrderOf(f, byTime), max, winner, kept, hits);
    var all := Winning(OrderOf(f, byTime), f.paths, winner);
    WinningWithin(OrderOf(f, byTime), f.paths, winner);
    if OwnOrder(OrderOf(f, byTime)) {
      WithinKeepsOrder(all, OrderOf(f, byTime));
    }
  }

  lemma HitAddressed(b: Binding, hit: Hit)
    requires Valid(b) && hit.mount < |b.mounts| && hit.rel != "" && !IsPrefix(KB_SCHEME, hit.rel)
    ensures Addressed(b, hit)
  {
    WireRoutesBack(b, hit.mount, hit.rel);
    hide Route;
    assert RepoId(Id12(b.mounts[hit.mount].id));
  }

  lemma SelectedAsListed(b: Binding, f: Found, byTime: bool, max: nat, kept: seq<MountRef>, hits: seq<Hit>)
    requires WellFound(b, f) && Selected(b, f, byTime, max, kept, hits)
    ensures AsListed(b, f, byTime, max, kept, hits)
  {
    hide Ahead, OrderOf, ServesAlone, EachOnce, Winning, WellFound, DistinctRows, Decides;
    Shapes(b, f);
    var order := OrderOf(f, byTime);
    var winner :| Decides(f.paths, WriteTargets(b, f), winner) && kept == Capped(Winning(order, f.paths, winner), max);
    OrderHasAll(b, f, byTime);
    WinningAhead(b, f, byTime, order, winner);
    forall i | 0 <= i < |kept| ensures ServesAlone(b, f, kept[i].mount, hits[i].rel) {
      WinnerServes(b, f, order, winner, i);
    }
    forall t: nat, r: nat | t < |f.paths| && r < |f.paths[t]| && ServesAlone(b, f, t, f.paths[t][r]) && MountRef(t, r) !in kept
      ensures |kept| == max && forall i :: 0 <= i < max ==> Ahead(f, byTime, kept[i], MountRef(t, r))
    {
      var j := ServedWins(b, f, order, winner, t, r);
    }
  }

  lemma Shapes(b: Binding, f: Found)
    requires WellFound(b, f)
    ensures |f.mounts| == |f.paths| == |f.commits| == |f.stamps|
    ensures forall t :: 0 <= t < |f.paths| ==> |f.commits[t]| == |f.paths[t]|
  {
  }

  lemma WinningAhead(b: Binding, f: Found, byTime: bool, order: seq<MountRef>, winner: map<Path, nat>)
    requires forall i, j :: 0 <= i < j < |order| ==> Ahead(f, byTime, order[i], order[j])
    ensures var all := Winning(order, f.paths, winner); forall i, j :: 0 <= i < j < |all| ==> Ahead(f, byTime, all[i], all[j])
  {
    hide Ahead, Winning;
    var all := Winning(order, f.paths, winner);
    WinningWithin(order, f.paths, winner);
    var at: seq<nat> :| Places(all, order, at);
    forall i, j | 0 <= i < j < |all| ensures Ahead(f, byTime, all[i], all[j]) {
      assert order[at[i]] == all[i] && order[at[j]] == all[j];
    }
  }

  // What is kept won its path.
  lemma WinnerServes(b: Binding, f: Found, order: seq<MountRef>, winner: map<Path, nat>, i: nat)
    requires WellFound(b, f) && Decides(f.paths, WriteTargets(b, f), winner) && EachOnce(order, PathLens(f.paths))
    requires i < |Winning(order, f.paths, winner)|
    ensures var ref := Winning(order, f.paths, winner)[i];
            Row(PathLens(f.paths), ref) && ServesAlone(b, f, ref.mount, f.paths[ref.mount][ref.rank])
  {
    var ref := Winning(order, f.paths, winner)[i];
    hide DistinctRows;
    assert ref in multiset(Winning(order, f.paths, winner));
    WinningCounts(order, f.paths, winner, ref);
    hide Winning;
    var p := f.paths[ref.mount][ref.rank];
    assert Wins(f.paths, WriteTargets(b, f), p, ref.mount);
    forall u | 0 <= u < |f.paths| && u != ref.mount && p in f.paths[u] ensures Serves(b, f, ref.mount, u) {
      assert Has(f.paths, u, p);
    }
  }

  // What is served of a path won it.
  lemma ServedWins(b: Binding, f: Found, order: seq<MountRef>, winner: map<Path, nat>, t: nat, r: nat) returns (j: nat)
    requires WellFound(b, f) && Decides(f.paths, WriteTargets(b, f), winner) && EachOnce(order, PathLens(f.paths))
    requires t < |f.paths| && r < |f.paths[t]| && ServesAlone(b, f, t, f.paths[t][r])
    ensures j < |Winning(order, f.paths, winner)| && Winning(order, f.paths, winner)[j] == MountRef(t, r)
  {
    hide DistinctRows;
    var p := f.paths[t][r];
    assert Has(f.paths, t, p);
    assert Wins(f.paths, WriteTargets(b, f), p, winner[p]);
    assert Has(f.paths, winner[p], p);
    WinningCounts(order, f.paths, winner, MountRef(t, r));
    assert MountRef(t, r) in multiset(Winning(order, f.paths, winner));
    j :| 0 <= j < |Winning(order, f.paths, winner)| && Winning(order, f.paths, winner)[j] == MountRef(t, r);
  }

  lemma RowsDistinct(b: Binding, f: Found, order: seq<MountRef>, max: nat, winner: map<Path, nat>, kept: seq<MountRef>, hits: seq<Hit>)
    requires WellFound(b, f) && Decides(f.paths, WriteTargets(b, f), winner) && EachOnce(order, PathLens(f.paths))
    requires kept == Capped(Winning(order, f.paths, winner), max) && HitsOf(f, kept, hits)
    ensures Addressable(b, hits) && forall i :: 0 <= i < |hits| ==> Addressed(b, hits[i])
    ensures forall i, j :: 0 <= i < j < |hits| ==> Render(b, hits[i]).wire != Render(b, hits[j]).wire && hits[i].rel != hits[j].rel
  {
    var all := Winning(order, f.paths, winner);
    hide Winning, Addressed, Route;
    forall i | 0 <= i < |hits| ensures Addressed(b, hits[i]) {
      HitAddressed(b, hits[i]);
    }
    forall i, j | 0 <= i < j < |hits|
      ensures hits[i].rel != hits[j].rel
    {
      var p := hits[i].rel;
      assert PathAt(f.paths, all[i]) == p && Has(f.paths, all[i].mount, p);
      OneCopyKept(order, f.paths, WriteTargets(b, f), winner, p);
      assert AtMostOne(all, f.paths, p);
    }
    forall i, j | 0 <= i < j < |hits|
      ensures Render(b, hits[i]).wire != Render(b, hits[j]).wire
    {
      if Render(b, hits[i]).wire == Render(b, hits[j]).wire {
        WireInjective(b, hits[i].mount, hits[i].rel, hits[j].mount, hits[j].rel);
        assert false;
      }
    }
  }
}
