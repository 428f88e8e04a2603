/**
 The paged provenance walk of knomit_explain (internal/mcp/explain.go).

 A walk starts at a root fact version and follows versioned edges breadth first. Between
 calls it lives in a session: a seen-set and a queue ordered by depth. Each resume takes a
 page from the queue, reads each node, and queues the children it has not seen.

 The reference definition is `Within`: the nodes a given number of edges away, going only
 through readable nodes. The walk is proved to emit exactly those nodes, at their distance.
*/
module Explain {

  const PAGE_SIZE: nat := 25
  const MAX_DEPTH: nat := 10
  const ATTEMPTS: nat := 3

  /** A fact at a commit. */
  datatype Node = Node(path: string, commit: string)

  /** A row of the session queue; `depth` is its SortKey. */
  datatype Item = Item(node: Node, depth: nat)

  /** A row of an answer. */
  datatype Entry = Entry(node: Node, depth: nat)

  /** The versioned graph as one walk sees it. `rootEdges` are the edges of the root read at
      the anchor commit, which need not be the commit the root is reported at. */
  datatype Graph = Graph(
    root: Node,
    rootEdges: seq<Node>,
    readable: Node -> bool,
    outgoing: Node -> seq<Node>)
  {
    function Children(n: Node): seq<Node> {
      if n == root then rootEdges else outgoing(n)
    }

    predicate Expands(n: Node) {
      n == root || readable(n)
    }

    ghost function Next(from: set<Node>): set<Node> {
      set n, c | n in from && Expands(n) && c in Children(n) :: c
    }

    /** The nodes at most k edges from the root, through nodes that can be read. */
    ghost function Within(k: nat): set<Node> {
      if k == 0 then {root} else Within(k - 1) + Next(Within(k - 1))
    }

    /** k is the length of a shortest walk from the root to n. */
    ghost predicate AtDepth(n: Node, k: nat) {
      n in Within(k) && (k > 0 ==> n !in Within(k - 1))
    }
  }

  /** The text key the session stores for a node. */
  function SeenKey(n: Node): string {
    n.path + "@" + n.commit
  }

  // Commits are hex, so the last '@' of a key is always its separator.
  lemma SeenKeyInjective(a: Node, b: Node)
    requires '@' !in a.commit && '@' !in b.commit
    requires SeenKey(a) == SeenKey(b)
    ensures a == b
  {
    SeenKeyShape(a);
    SeenKeyShape(b);
    var s := SeenKey(a);
    assert |a.path| == |b.path|;
    assert s[..|a.path|] == a.path && s[|a.path| + 1..] == a.commit;
    assert s[..|b.path|] == b.path && s[|b.path| + 1..] == b.commit;
  }

  lemma SeenKeyShape(n: Node)
    requires '@' !in n.commit
    ensures |SeenKey(n)| == |n.path| + 1 + |n.commit| && SeenKey(n)[|n.path|] == '@'
    ensures forall i :: |n.path| < i < |SeenKey(n)| ==> SeenKey(n)[i] != '@'
  {
    assert forall i :: |n.path| < i < |SeenKey(n)| ==> SeenKey(n)[i] == n.commit[i - |n.path| - 1];
  }

  // ---------- distance ----------

  lemma {:induction false} WithinGrows(g: Graph, j: nat, k: nat)
    requires j <= k
    ensures g.Within(j) <= g.Within(k)
    decreases k
  {
    hide Graph.Next;
    if j < k {
      WithinGrows(g, j, k - 1);
    }
  }

  lemma DepthIsUnique(g: Graph, n: Node, j: nat, k: nat)
    requires g.AtDepth(n, j) && g.AtDepth(n, k)
    ensures j == k
  {
    hide Graph.Next;
    if j < k {
      WithinGrows(g, j, k - 1);
    } else if k < j {
      WithinGrows(g, k, j - 1);
    }
  }

  lemma DepthIsLeast(g: Graph, n: Node, d: nat, k: nat)
    requires g.AtDepth(n, d) && n in g.Within(k)
    ensures d <= k
  {
    hide Graph.Next;
    if k < d {
      WithinGrows(g, k, d - 1);
    }
  }

  // ---------- the walk's invariant ----------

  ghost function Nodes(items: set<Item>): set<Node> {
    set i | i in items :: i.node
  }

  ghost function Elements<T>(s: seq<T>): set<T> {
    set x | x in s
  }

  ghost predicate OneItemPerNode(pending: set<Item>) {
    forall a, b :: a in pending && b in pending && a.node == b.node ==> a == b
  }

  /** `pending` are the items still to be read, `visited` the nodes already taken from the
      queue with the depth they were taken at. */
  ghost predicate Partition(root: Node, seen: set<Node>, pending: set<Item>, visited: map<Node, nat>) {
    && root in visited && visited[root] == 0
    && seen == visited.Keys + Nodes(pending)
    && visited.Keys !! Nodes(pending)
    && OneItemPerNode(pending)
  }

  ghost predicate DepthsRight(g: Graph, pending: set<Item>, visited: map<Node, nat>) {
    && (forall i :: i in pending ==> 1 <= i.depth <= MAX_DEPTH && g.AtDepth(i.node, i.depth))
    && (forall n :: n in visited ==> visited[n] <= MAX_DEPTH && g.AtDepth(n, visited[n]))
  }

  ghost predicate ChildrenSeen(g: Graph, seen: set<Node>, n: Node) {
    forall c :: c in g.Children(n) ==> c in seen
  }

  ghost predicate Expanded(g: Graph, seen: set<Node>, visited: map<Node, nat>) {
    forall n :: n in visited && visited[n] < MAX_DEPTH && g.Expands(n) ==> ChildrenSeen(g, seen, n)
  }

  ghost predicate WalkInv(g: Graph, seen: set<Node>, pending: set<Item>, visited: map<Node, nat>) {
    && Partition(g.root, seen, pending, visited)
    && DepthsRight(g, pending, visited)
    && Expanded(g, seen, visited)
  }

  // Once every seen node nearer than k has been visited, everything within k has been seen.
  lemma {:induction false} NearNodesSeen(g: Graph, seen: set<Node>, pending: set<Item>, visited: map<Node, nat>, k: nat)
    requires WalkInv(g, seen, pending, visited)
    requires k <= MAX_DEPTH
    requires forall i :: i in pending ==> k <= i.depth
    ensures g.Within(k) <= seen
  {
    hide Graph.Next, DepthsRight;
    if k > 0 {
      NearNodesSeen(g, seen, pending, visited, k - 1);
      assert g.Within(k) == g.Within(k - 1) + g.Next(g.Within(k - 1));
      forall c | c in g.Next(g.Within(k - 1))
        ensures c in seen
      {
        NextIsSeen(g, seen, pending, visited, k, c);
      }
    }
  }

  lemma NextIsSeen(g: Graph, seen: set<Node>, pending: set<Item>, visited: map<Node, nat>, k: nat, c: Node)
    requires WalkInv(g, seen, pending, visited)
    requires 0 < k <= MAX_DEPTH && g.Within(k - 1) <= seen
    requires forall i :: i in pending ==> k <= i.depth
    requires c in g.Next(g.Within(k - 1))
    ensures c in seen
  {
    hide Graph.Within;
    var n :| n in g.Within(k - 1) && g.Expands(n) && c in g.Children(n);
    NearSeenIsVisited(g, seen, pending, visited, n, k);
    assert ChildrenSeen(g, seen, n);
  }

  lemma NearSeenIsVisited(g: Graph, seen: set<Node>, pending: set<Item>, visited: map<Node, nat>, n: Node, k: nat)
    requires Partition(g.root, seen, pending, visited) && DepthsRight(g, pending, visited)
    requires 0 < k && n in seen && n in g.Within(k - 1)
    requires forall i :: i in pending ==> k <= i.depth
    ensures n in visited && visited[n] < k
  {
    hide Graph.Within, Graph.Next;
    if n !in visited {
      var i :| i in pending && i.node == n;
      DepthIsLeast(g, n, i.depth, k - 1);
      assert false;
    }
    DepthIsLeast(g, n, visited[n], k - 1);
  }

  // A child not seen so far is exactly one edge further out than the nearest pending item.
  lemma UnseenChildDepth(g: Graph, seen: set<Node>, pending: set<Item>, visited: map<Node, nat>, it: Item, c: Node)
    requires WalkInv(g, seen, pending, visited)
    requires it in pending && g.Expands(it.node) && c in g.Children(it.node) && c !in seen
    requires forall i :: i in pending ==> it.depth <= i.depth
    ensures g.AtDepth(c, it.depth + 1)
  {
    NearNodesSeen(g, seen, pending, visited, it.depth);
    assert c in g.Next(g.Within(it.depth));
  }

  /** The items a node's unseen children are queued as. */
  ghost function NewItems(g: Graph, seen: set<Node>, it: Item): set<Item> {
    if g.readable(it.node) && it.depth < MAX_DEPTH
    then set c | c in g.Children(it.node) && c !in seen :: Item(c, it.depth + 1)
    else {}
  }

  lemma NewItemsNodes(g: Graph, seen: set<Node>, it: Item)
    requires g.readable(it.node) && it.depth < MAX_DEPTH
    ensures Nodes(NewItems(g, seen, it)) == Elements(g.Children(it.node)) - seen
  {
    var added := NewItems(g, seen, it);
    forall c | c in Elements(g.Children(it.node)) - seen
      ensures c in Nodes(added)
    {
      assert Item(c, it.depth + 1) in added;
    }
  }

  lemma PartitionAfterVisit(root: Node, seen: set<Node>, pending: set<Item>, visited: map<Node, nat>, it: Item, added: set<Item>)
    requires Partition(root, seen, pending, visited) && it in pending
    requires OneItemPerNode(added) && Nodes(added) !! seen
    ensures Partition(root, seen + Nodes(added), pending - {it} + added, visited[it.node := it.depth])
  {
    var pending' := pending - {it} + added;
    assert it.node in Nodes(pending);
    forall n | n in Nodes(pending) + Nodes(added) - {it.node}
      ensures n in Nodes(pending')
    {
      var i :| i in pending + added && i.node == n;
      assert i in pending';
    }
    forall i | i in pending'
      ensures i.node in Nodes(pending) + Nodes(added) - {it.node}
    {
      if i in added {
        assert i.node in Nodes(added) && it.node in seen;
      } else {
        assert i.node in Nodes(pending);
      }
    }
    assert Nodes(pending') == Nodes(pending) + Nodes(added) - {it.node};
    forall a, b | a in pending' && b in pending' && a.node == b.node
      ensures a == b
    {
      assert a in added ==> a.node in Nodes(added);
      assert b in added ==> b.node in Nodes(added);
      assert a in pending ==> a.node in Nodes(pending);
      assert b in pending ==> b.node in Nodes(pending);
    }
  }

  // Taking a nearest pending item keeps the invariant.
  lemma VisitKeepsInv(g: Graph, seen: set<Node>, pending: set<Item>, visited: map<Node, nat>, it: Item)
    requires WalkInv(g, seen, pending, visited)
    requires it in pending
    requires forall i :: i in pending ==> it.depth <= i.depth
    ensures var added := NewItems(g, seen, it);
            WalkInv(g, seen + Nodes(added), pending - {it} + added, visited[it.node := it.depth])
  {
    var added := NewItems(g, seen, it);
    NewItemsAreFresh(g, seen, it);
    NewItemsDepths(g, seen, pending, visited, it);
    PartitionAfterVisit(g.root, seen, pending, visited, it, added);
    DepthsAfterVisit(g, pending, visited, it, added);
    assert it.node in Nodes(pending);
    ExpandedAfterVisit(g, seen, visited, it, added);
  }

  lemma NewItemsAreFresh(g: Graph, seen: set<Node>, it: Item)
    ensures OneItemPerNode(NewItems(g, seen, it)) && Nodes(NewItems(g, seen, it)) !! seen
  {
  }

  lemma NewItemsDepths(g: Graph, seen: set<Node>, pending: set<Item>, visited: map<Node, nat>, it: Item)
    requires WalkInv(g, seen, pending, visited)
    requires it in pending
    requires forall i :: i in pending ==> it.depth <= i.depth
    ensures forall i :: i in NewItems(g, seen, it) ==> 1 <= i.depth <= MAX_DEPTH && g.AtDepth(i.node, i.depth)
  {
    hide WalkInv, Graph.AtDepth, Graph.Children;
    forall i | i in NewItems(g, seen, it)
      ensures g.AtDepth(i.node, i.depth)
    {
      UnseenChildDepth(g, seen, pending, visited, it, i.node);
    }
  }

  lemma DepthsAfterVisit(g: Graph, pending: set<Item>, visited: map<Node, nat>, it: Item, added: set<Item>)
    requires DepthsRight(g, pending, visited) && it in pending
    requires forall i :: i in added ==> 1 <= i.depth <= MAX_DEPTH && g.AtDepth(i.node, i.depth)
    ensures DepthsRight(g, pending - {it} + added, visited[it.node := it.depth])
  {
  }

  lemma ExpandedAfterVisit(g: Graph, seen: set<Node>, visited: map<Node, nat>, it: Item, added: set<Item>)
    requires Expanded(g, seen, visited) && it.node != g.root
    requires added == NewItems(g, seen, it)
    ensures Expanded(g, seen + Nodes(added), visited[it.node := it.depth])
  {
    var seen' := seen + Nodes(added);
    var visited' := visited[it.node := it.depth];
    forall n | n in visited' && visited'[n] < MAX_DEPTH && g.Expands(n)
      ensures ChildrenSeen(g, seen', n)
    {
      if n == it.node {
        NewItemsNodes(g, seen, it);
        assert forall c :: c in g.Children(n) ==> c in Elements(g.Children(n));
      } else {
        assert ChildrenSeen(g, seen, n);
      }
    }
  }

  // ---------- the session queue ----------

  function Lowest(queue: seq<Item>): (k: nat)
    requires |queue| > 0
    ensures k < |queue|
    ensures forall j :: 0 <= j < |queue| ==> queue[k].depth <= queue[j].depth
  {
    if |queue| == 1 then 0
    else
      var k' := Lowest(queue[1..]);
      assert forall j :: 1 <= j < |queue| ==> queue[j] == queue[1..][j - 1];
      if queue[0].depth <= queue[1..][k'].depth then 0 else k' + 1
  }

  ghost predicate Sorted(items: seq<Item>) {
    forall i, j :: 0 <= i < j < |items| ==> items[i].depth <= items[j].depth
  }

  ghost predicate NoRepeats(s: seq<Item>) {
    forall x :: multiset(s)[x] <= 1
  }

  /** What DequeuePaths returns and leaves: up to `limit` rows, lowest depth first, oldest
      first among equals. */
  function Dequeue(queue: seq<Item>, limit: nat): (r: (seq<Item>, seq<Item>))
    ensures |r.0| == if |queue| <= limit then |queue| else limit
    decreases limit
  {
    if limit == 0 || |queue| == 0 then ([], queue)
    else
      var k := Lowest(queue);
      var (page, left) := Dequeue(queue[..k] + queue[k + 1..], limit - 1);
      ([queue[k]] + page, left)
  }

  lemma TakeOut(queue: seq<Item>, k: nat)
    requires k < |queue|
    ensures multiset{queue[k]} + multiset(queue[..k] + queue[k + 1..]) == multiset(queue)
  {
    assert queue == queue[..k] + [queue[k]] + queue[k + 1..];
  }

  lemma PutFirst(i: Item, page: seq<Item>, left: seq<Item>, rest: seq<Item>)
    requires multiset(page) + multiset(left) == multiset(rest)
    ensures multiset([i] + page) + multiset(left) == multiset{i} + multiset(rest)
  {
  }

  lemma {:induction false} DequeueKeepsRows(queue: seq<Item>, limit: nat)
    ensures multiset(Dequeue(queue, limit).0) + multiset(Dequeue(queue, limit).1) == multiset(queue)
    decreases limit
  {
    hide Lowest;
    if limit > 0 && |queue| > 0 {
      var k := Lowest(queue);
      var rest := queue[..k] + queue[k + 1..];
      DequeueKeepsRows(rest, limit - 1);
      TakeOut(queue, k);
      var (page, left) := Dequeue(rest, limit - 1);
      assert Dequeue(queue, limit) == ([queue[k]] + page, left);
      PutFirst(queue[k], page, left, rest);
    }
  }

  lemma {:induction false} DequeueIsLowest(queue: seq<Item>, limit: nat)
    ensures Sorted(Dequeue(queue, limit).0)
    ensures forall a, b :: a in Dequeue(queue, limit).0 && b in Dequeue(queue, limit).1 ==> a.depth <= b.depth
    decreases limit
  {
    if limit > 0 && |queue| > 0 {
      var k := Lowest(queue);
      var rest := queue[..k] + queue[k + 1..];
      DequeueIsLowest(rest, limit - 1);
      var (page, left) := Dequeue(rest, limit - 1);
      assert Dequeue(queue, limit) == ([queue[k]] + page, left);
      hide Lowest, Dequeue, Sorted;
      LowestBeforeRest(queue, k, limit - 1);
      SortedBehind(queue[k], page);
    }
  }

  lemma LowestBeforeRest(queue: seq<Item>, k: nat, limit: nat)
    requires k < |queue| && forall j :: 0 <= j < |queue| ==> queue[k].depth <= queue[j].depth
    ensures var rest := queue[..k] + queue[k + 1..];
      forall x :: x in Dequeue(rest, limit).0 || x in Dequeue(rest, limit).1 ==> queue[k].depth <= x.depth
  {
    hide Dequeue;
    var rest := queue[..k] + queue[k + 1..];
    forall x | x in Dequeue(rest, limit).0 || x in Dequeue(rest, limit).1 ensures queue[k].depth <= x.depth {
      DequeuedIsRow(rest, limit, x);
    }
  }

  lemma SortedBehind(first: Item, items: seq<Item>)
    requires Sorted(items) && forall x :: x in items ==> first.depth <= x.depth
    ensures Sorted([first] + items)
  {
    var all := [first] + items;
    assert forall i :: 0 < i < |all| ==> all[i] == items[i - 1] && all[i] in items;
  }

  lemma DequeueLeaves(queue: seq<Item>, limit: nat)
    ensures |Dequeue(queue, limit).0| + |Dequeue(queue, limit).1| == |queue|
  {
    DequeueKeepsRows(queue, limit);
    var (page, left) := Dequeue(queue, limit);
    assert |multiset(page) + multiset(left)| == |page| + |left|;
  }

  lemma DequeuedIsRow(queue: seq<Item>, limit: nat, x: Item)
    requires x in Dequeue(queue, limit).0 || x in Dequeue(queue, limit).1
    ensures x in queue
  {
    DequeueKeepsRows(queue, limit);
    assert x in multiset(Dequeue(queue, limit).0) + multiset(Dequeue(queue, limit).1);
  }

  // ---------- one page ----------

  /** All pending rows lie on two adjacent levels. */
  ghost predicate TwoLevels(pending: set<Item>) {
    forall i, j :: i in pending && j in pending ==> i.depth <= j.depth + 1
  }

  ghost predicate QueueInv(g: Graph, seen: set<Node>, queue: seq<Item>, visited: map<Node, nat>) {
    && WalkInv(g, seen, Elements(queue), visited)
    && NoRepeats(queue)
    && TwoLevels(Elements(queue))
    && Behind(visited, Elements(queue))
  }

  /** Nothing pending is nearer than anything already visited. */
  ghost predicate Behind(visited: map<Node, nat>, pending: set<Item>) {
    forall n, i :: n in visited && i in pending ==> visited[n] <= i.depth
  }

  /** While a page is read: `todo` is what is left of it, `others` all other queue rows. */
  ghost predicate PageInv(g: Graph, seen: set<Node>, todo: seq<Item>, others: seq<Item>, visited: map<Node, nat>) {
    && QueueInv(g, seen, todo + others, visited)
    && Sorted(todo)
    && (forall a, b :: a in todo && b in others ==> a.depth <= b.depth)
  }

  lemma SameRows(a: seq<Item>, b: seq<Item>)
    requires multiset(a) == multiset(b)
    ensures Elements(a) == Elements(b)
    ensures NoRepeats(a) <==> NoRepeats(b)
  {
    forall x
      ensures x in a <==> x in b
    {
      assert x in a <==> x in multiset(a);
    }
  }

  lemma PageStart(g: Graph, seen: set<Node>, queue: seq<Item>, visited: map<Node, nat>, limit: nat)
    requires QueueInv(g, seen, queue, visited)
    ensures PageInv(g, seen, Dequeue(queue, limit).0, Dequeue(queue, limit).1, visited)
  {
    var (todo, left) := Dequeue(queue, limit);
    DequeueKeepsRows(queue, limit);
    DequeueIsLowest(queue, limit);
    assert multiset(todo + left) == multiset(queue);
    SameRows(todo + left, queue);
  }

  lemma FirstIsNearest(todo: seq<Item>, others: seq<Item>)
    requires |todo| > 0 && Sorted(todo)
    requires forall a, b :: a in todo && b in others ==> a.depth <= b.depth
    ensures forall i :: i in Elements(todo + others) ==> todo[0].depth <= i.depth
  {
    forall i | i in Elements(todo + others)
      ensures todo[0].depth <= i.depth
    {
      if i in todo {
        var k :| 0 <= k < |todo| && todo[k] == i;
      }
    }
  }

  lemma PageStep(g: Graph, seen: set<Node>, todo: seq<Item>, others: seq<Item>, visited: map<Node, nat>, rows: seq<Item>)
    requires PageInv(g, seen, todo, others, visited) && |todo| > 0
    requires NoRepeats(rows) && Elements(rows) == NewItems(g, seen, todo[0])
    ensures todo[0].node !in visited && todo[0].node != g.root
    ensures PageInv(g, seen + Nodes(Elements(rows)), todo[1..], others + rows, visited[todo[0].node := todo[0].depth])
  {
    var it := todo[0];
    var pending := Elements(todo + others);
    assert it in pending && it.node in Nodes(pending);
    FirstIsNearest(todo, others);
    VisitKeepsInv(g, seen, pending, visited, it);
    NewRowsAreNew(g, seen, pending, visited, it);
    assert forall i :: i in rows ==> i in NewItems(g, seen, it);
    RowsAfterStep(todo, others, rows);
    LevelsAfterStep(pending, visited, it, Elements(rows));
    RestIsSorted(todo, others, rows);
  }

  lemma LevelsAfterStep(pending: set<Item>, visited: map<Node, nat>, it: Item, added: set<Item>)
    requires TwoLevels(pending) && Behind(visited, pending) && it in pending
    requires forall i :: i in pending ==> it.depth <= i.depth
    requires forall i :: i in added ==> i.depth == it.depth + 1
    ensures TwoLevels(pending - {it} + added)
    ensures Behind(visited[it.node := it.depth], pending - {it} + added)
  {
  }

  lemma RestIsSorted(todo: seq<Item>, others: seq<Item>, rows: seq<Item>)
    requires |todo| > 0 && Sorted(todo)
    requires forall a, b :: a in todo && b in others ==> a.depth <= b.depth
    requires TwoLevels(Elements(todo + others))
    requires forall i :: i in rows ==> i.depth == todo[0].depth + 1
    ensures Sorted(todo[1..])
    ensures forall a, b :: a in todo[1..] && b in others + rows ==> a.depth <= b.depth
  {
    assert forall a :: a in todo[1..] ==> a in todo && a in Elements(todo + others);
    assert todo[0] in Elements(todo + others);
  }

  lemma NewRowsAreNew(g: Graph, seen: set<Node>, pending: set<Item>, visited: map<Node, nat>, it: Item)
    requires Partition(g.root, seen, pending, visited)
    ensures NewItems(g, seen, it) !! pending
    ensures forall i :: i in NewItems(g, seen, it) ==> i.depth == it.depth + 1
  {
    NewItemsAreFresh(g, seen, it);
    forall i | i in NewItems(g, seen, it)
      ensures i !in pending
    {
      assert i.node in Nodes(NewItems(g, seen, it));
      assert i in pending ==> i.node in Nodes(pending);
    }
  }

  lemma RowsAfterStep(todo: seq<Item>, others: seq<Item>, rows: seq<Item>)
    requires |todo| > 0 && NoRepeats(todo + others) && NoRepeats(rows)
    requires Elements(rows) !! Elements(todo + others)
    ensures Elements(todo[1..] + (others + rows)) == Elements(todo + others) - {todo[0]} + Elements(rows)
    ensures NoRepeats(todo[1..] + (others + rows))
  {
    var before := todo + others;
    var after := todo[1..] + (others + rows);
    assert before == [todo[0]] + todo[1..] + others;
    assert multiset(after) == multiset(before) - multiset{todo[0]} + multiset(rows);
    forall x
      ensures multiset(after)[x] <= 1
      ensures x in after <==> x in Elements(before) - {todo[0]} + Elements(rows)
    {
      assert multiset(before)[x] <= 1 && multiset(rows)[x] <= 1;
      assert x in Elements(rows) ==> x !in Elements(before);
      assert x in after <==> x in multiset(after);
      assert x in before <==> x in multiset(before);
      assert x in rows <==> x in multiset(rows);
    }
  }

  // ---------- the session ----------

  /** The rows an answer owes for the nodes visited since `before`: the readable ones, once
      each, nearest first. */
  ghost predicate Answers(g: Graph, facts: seq<Entry>, before: map<Node, nat>, after: map<Node, nat>) {
    && (forall e :: e in facts ==> e.node in after && e.node !in before && g.readable(e.node) && after[e.node] == e.depth)
    && (forall n :: n in after && n !in before && g.readable(n) ==> Entry(n, after[n]) in facts)
    && (forall i, j :: 0 <= i < j < |facts| ==> facts[i].node != facts[j].node)
    && (forall i, j :: 0 <= i < j < |facts| ==> facts[i].depth <= facts[j].depth)
  }

  /** `after` adds nodes to `before`, none nearer than those of `before`. */
  ghost predicate Extends(before: map<Node, nat>, after: map<Node, nat>) {
    && (forall n :: n in before ==> n in after && after[n] == before[n])
    && (forall m, n :: m in before && n in after && n !in before ==> before[m] <= after[n])
  }

  lemma AnswerRow(g: Graph, facts: seq<Entry>, before: map<Node, nat>, after: map<Node, nat>, it: Item)
    requires Answers(g, facts, before, after)
    requires Extends(before, after) && it.node !in after
    requires forall e :: e in facts ==> e.depth <= it.depth
    requires forall n :: n in after ==> after[n] <= it.depth
    ensures Extends(before, after[it.node := it.depth])
    ensures Answers(g, if g.readable(it.node) then facts + [Entry(it.node, it.depth)] else facts,
                    before, after[it.node := it.depth])
  {
  }

  /** Queue rows for the edges not seen before; `seen` gates enqueueing, never emission. */
  method Enqueue(edges: seq<Node>, seen: set<Node>, depth: nat) returns (seen': set<Node>, rows: seq<Item>)
    ensures seen' == seen + Elements(edges)
    ensures Elements(rows) == set c | c in edges && c !in seen :: Item(c, depth)
    ensures NoRepeats(rows)
  {
    seen', rows := seen, [];
    for k := 0 to |edges|
      invariant seen' == seen + Elements(edges[..k])
      invariant forall i :: i in rows <==> i.depth == depth && i.node in edges[..k] && i.node !in seen
      invariant NoRepeats(rows)
    {
      assert edges[..k + 1] == edges[..k] + [edges[k]];
      if edges[k] !in seen' {
        assert Item(edges[k], depth) !in multiset(rows);
        seen' := seen' + {edges[k]};
        rows := rows + [Item(edges[k], depth)];
      }
    }
    assert edges[..|edges|] == edges;
  }

  /** Queues the unseen children of one row, if its node can be read and is not at the depth bound. */
  method ReadNode(g: Graph, it: Item, seen: set<Node>) returns (seen': set<Node>, rows: seq<Item>)
    requires it.node != g.root
    ensures NoRepeats(rows) && Elements(rows) == NewItems(g, seen, it)
    ensures seen' == seen + Nodes(Elements(rows))
    ensures !g.readable(it.node) ==> rows == []
  {
    seen', rows := seen, [];
    if g.readable(it.node) && it.depth < MAX_DEPTH {
      seen', rows := Enqueue(g.outgoing(it.node), seen, it.depth + 1);
      NewItemsNodes(g, seen, it);
    }
  }

  lemma ConcatAssoc(a: seq<Item>, b: seq<Item>, c: seq<Item>)
    ensures a + b + c == a + (b + c)
  {
  }

  lemma TodoHead(g: Graph, seen: set<Node>, todo: seq<Item>, others: seq<Item>, visited: map<Node, nat>)
    requires PageInv(g, seen, todo, others, visited) && |todo| > 0
    ensures todo[0].node !in visited && todo[0].node != g.root
  {
    assert todo[0] in Elements(todo + others);
    assert todo[0].node in Nodes(Elements(todo + others));
  }

  /** Where a page stands after some of its rows: `todo` is left, `others` is the rest of the queue. */
  ghost predicate Reading(g: Graph, seen: set<Node>, todo: seq<Item>, others: seq<Item>,
                          before: map<Node, nat>, visited: map<Node, nat>, facts: seq<Entry>)
  {
    && PageInv(g, seen, todo, others, visited)
    && Extends(before, visited)
    && Answers(g, facts, before, visited)
    && (forall e, i :: e in facts && i in todo ==> e.depth <= i.depth)
  }

  lemma ReadingStep(g: Graph, seen: set<Node>, todo: seq<Item>, others: seq<Item>,
                    before: map<Node, nat>, visited: map<Node, nat>, facts: seq<Entry>, rows: seq<Item>)
    requires Reading(g, seen, todo, others, before, visited, facts) && |todo| > 0
    requires NoRepeats(rows) && Elements(rows) == NewItems(g, seen, todo[0])
    ensures todo[0].node !in visited
    ensures Reading(g, seen + Nodes(Elements(rows)), todo[1..], others + rows, before,
                    visited[todo[0].node := todo[0].depth],
                    if g.readable(todo[0].node) then facts + [Entry(todo[0].node, todo[0].depth)] else facts)
  {
    PageStep(g, seen, todo, others, visited, rows);
    assert todo[0] in Elements(todo + others);
    AnswerRow(g, facts, before, visited, todo[0]);
    forall i | i in todo[1..]
      ensures i in todo && todo[0].depth <= i.depth
    {
      var k :| 0 <= k < |todo[1..]| && todo[1..][k] == i;
      assert todo[k + 1] == i;
    }
  }

  lemma NothingRead(g: Graph, visited: map<Node, nat>)
    ensures Answers(g, [], visited, visited) && Extends(visited, visited)
  {
  }

  /** Reads one page of dequeued rows in order, queueing each readable node's unseen children. */
  method ReadPage(g: Graph, items: seq<Item>, seen: set<Node>, ghost queue: seq<Item>, ghost visited: map<Node, nat>)
    returns (facts: seq<Entry>, seen': set<Node>, newQueue: seq<Item>, ghost visited': map<Node, nat>)
    requires PageInv(g, seen, items, queue, visited)
    ensures Reading(g, seen', [], queue + newQueue, visited, visited', facts)
    ensures |visited'| == |visited| + |items| && |facts| <= |items|
    ensures facts == [] ==> newQueue == []
  {
    facts, seen', newQueue, visited' := [], seen, [], visited;
    NothingRead(g, visited);
    assert queue + newQueue == queue && items[0..] == items;
    for k := 0 to |items|
      invariant Reading(g, seen', items[k..], queue + newQueue, visited, visited', facts)
      invariant |visited'| == |visited| + k && |facts| <= k
      invariant facts == [] ==> newQueue == []
    {
      var it := items[k];
      ghost var todo := items[k..];
      assert it == todo[0] && items[k + 1..] == todo[1..];
      TodoHead(g, seen', todo, queue + newQueue, visited');
      var seenNow, rows := ReadNode(g, it, seen');
      ReadingStep(g, seen', todo, queue + newQueue, visited, visited', facts, rows);
      ConcatAssoc(queue, newQueue, rows);
      if g.readable(it.node) {
        facts := facts + [Entry(it.node, it.depth)];
      }
      seen', newQueue, visited' := seenNow, newQueue + rows, visited'[it.node := it.depth];
    }
    assert items[|items|..] == [];
  }
  /** How many rows n full pages have. */
  ghost function Pages(n: nat, pageSize: nat): nat {
    if n == 0 then 0 else Pages(n - 1, pageSize) + pageSize
  }

  /** Reads one page of the queue. */
  method ReadNext(g: Graph, pageSize: nat, seen: set<Node>, queue: seq<Item>, ghost first: map<Node, nat>, ghost visited: map<Node, nat>)
    returns (facts: seq<Entry>, seen': set<Node>, left: seq<Item>, newQueue: seq<Item>, ghost visited': map<Node, nat>)
    requires pageSize > 0 && queue != [] && Reading(g, seen, [], queue + [], first, visited, [])
    ensures Reading(g, seen', [], left + newQueue, first, visited', facts)
    ensures |facts| <= pageSize && |visited| < |visited'| <= |visited| + pageSize
    ensures facts == [] ==> newQueue == [] && (left != [] ==> |visited'| == |visited| + pageSize)
  {
    hide QueueInv, Extends, Answers, Reading, PageInv, Dequeue;
    StartPage(g, seen, queue, first, visited, pageSize);
    var items;
    items, left := Dequeue(queue, pageSize).0, Dequeue(queue, pageSize).1;
    DequeueLeaves(queue, pageSize);
    facts, seen', newQueue, visited' := ReadPage(g, items, seen, left, visited);
    JoinPage(g, seen', left + newQueue, first, visited, visited', facts);
  }

  /** Reads a page of the queue, and another while none of the rows read so far could be read,
      up to three. The new rows join the queue at the end. */
  method ReadPages(g: Graph, pageSize: nat, seen: set<Node>, queue: seq<Item>, ghost visited: map<Node, nat>)
    returns (facts: seq<Entry>, seen': set<Node>, queue': seq<Item>, ghost visited': map<Node, nat>)
    requires pageSize > 0 && QueueInv(g, seen, queue, visited)
    ensures QueueInv(g, seen', queue', visited')
    ensures Extends(visited, visited') && Answers(g, facts, visited, visited')
    ensures queue != [] ==> |visited| < |visited'|
    ensures |facts| <= pageSize && |visited'| <= |visited| + Pages(ATTEMPTS, pageSize)
    ensures facts == [] && queue' != [] ==> |visited'| == |visited| + Pages(ATTEMPTS, pageSize)
  {
    hide QueueInv, Extends, Answers, Reading, Pages;
    facts, seen', queue', visited' := [], seen, queue, visited;
    var newQueue: seq<Item> := [];
    var attempt := 0;
    StartReading(g, seen, queue, visited);
    assert Counted(0, pageSize, 0, |queue|, |visited|, |visited|) by { CountStarts(pageSize, |queue|, |visited|); }
    while attempt < ATTEMPTS && facts == [] && queue' != []
      invariant attempt <= ATTEMPTS
      invariant Reading(g, seen', [], queue' + newQueue, visited, visited', facts)
      invariant facts == [] ==> newQueue == []
      invariant attempt == 0 ==> facts == [] && queue' == queue && visited' == visited
      invariant attempt > 0 ==> |visited| < |visited'|
      invariant Counted(attempt, pageSize, |facts|, |queue'|, |visited|, |visited'|)
    {
      ghost var before := |visited'|;
      facts, seen', queue', newQueue, visited' := ReadNext(g, pageSize, seen', queue', visited, visited');
      CountNext(attempt, pageSize, |facts|, |queue'|, |visited|, before, |visited'|);
      attempt := attempt + 1;
    }
    CountEnds(attempt, pageSize, |facts|, |queue'|, |visited|, |visited'|);
    queue' := queue' + newQueue;
    EndReading(g, seen', queue', visited, visited', facts);
  }

  /** After so many attempts: how many rows have been answered, and how many nodes visited. */
  ghost predicate Counted(attempt: nat, pageSize: nat, facts: nat, queue: nat, start: nat, visited: nat) {
    facts <= pageSize && visited <= start + Pages(attempt, pageSize) && (facts == 0 && queue > 0 ==> visited == start + Pages(attempt, pageSize))
  }

  lemma CountStarts(pageSize: nat, queue: nat, start: nat)
    ensures Counted(0, pageSize, 0, queue, start, start)
  {
  }

  lemma CountNext(attempt: nat, pageSize: nat, facts: nat, queue: nat, start: nat, before: nat, visited: nat)
    requires Counted(attempt, pageSize, 0, 1, start, before) && facts <= pageSize && visited <= before + pageSize
    requires facts == 0 && queue > 0 ==> visited == before + pageSize
    ensures Counted(attempt + 1, pageSize, facts, queue, start, visited)
  {
  }

  lemma CountEnds(attempt: nat, pageSize: nat, facts: nat, queue: nat, start: nat, visited: nat)
    requires attempt <= ATTEMPTS && Counted(attempt, pageSize, facts, queue, start, visited)
    ensures facts <= pageSize && visited <= start + Pages(ATTEMPTS, pageSize)
    ensures facts == 0 && queue > 0 && attempt == ATTEMPTS ==> visited == start + Pages(ATTEMPTS, pageSize)
  {
    PagesMore(attempt, pageSize);
  }

  lemma PagesMore(n: nat, pageSize: nat)
    requires n <= ATTEMPTS
    ensures Pages(n, pageSize) <= Pages(ATTEMPTS, pageSize)
  {
    assert Pages(3, pageSize) == Pages(2, pageSize) + pageSize && Pages(2, pageSize) == Pages(1, pageSize) + pageSize;
  }

  class Session {
    const g: Graph
    var seen: set<Node>
    var queue: seq<Item>
    var completed: bool
    ghost var visited: map<Node, nat>

    ghost predicate Valid()
      reads this
    {
      && QueueInv(g, seen, queue, visited)
      && (completed <==> queue == [])
    }

    /** explainFirstCall: the root is answered at once, its children are queued. */
    constructor (g: Graph)
      ensures Valid() && this.g == g
      ensures visited == map[g.root := 0]
    {
      this.g := g;
      visited := map[g.root := 0];
      seen, queue, completed := {}, [], false;
      new;
      seen, queue := Enqueue(g.rootEdges, {g.root}, 1);
      completed := queue == [];
      FirstCallInv(g, seen, queue);
    }

    /** explainResume. An answer holds the readable nodes just visited, and no others: twenty-five at
        most; and none, with more to come, only after seventy-five that could not be read. */
    method Resume() returns (facts: seq<Entry>, hasMore: bool)
      requires Valid()
      modifies this
      ensures Valid()
      ensures Extends(old(visited), visited)
      ensures Answers(g, facts, old(visited), visited)
      ensures old(queue) != [] ==> |old(visited)| < |visited|
      ensures hasMore == (queue != [])
      ensures |facts| <= 25 && |visited| <= |old(visited)| + 75
      ensures facts == [] && hasMore ==> |visited| == |old(visited)| + 75
    {
      hide QueueInv, Extends, Answers;
      var seen', queue';
      ghost var visited';
      facts, seen', queue', visited' := ReadPages(g, PAGE_SIZE, seen, queue, visited);
      assert Pages(ATTEMPTS, PAGE_SIZE) == 75;
      seen, queue, visited := seen', queue', visited';
      completed := queue == [];
      hasMore := queue != [];
    }
  }

  lemma StartReading(g: Graph, seen: set<Node>, queue: seq<Item>, visited: map<Node, nat>)
    requires QueueInv(g, seen, queue, visited)
    ensures Reading(g, seen, [], queue + [], visited, visited, [])
  {
    assert [] + (queue + []) == queue;
  }

  lemma EndReading(g: Graph, seen: set<Node>, queue: seq<Item>, before: map<Node, nat>, visited: map<Node, nat>, facts: seq<Entry>)
    requires Reading(g, seen, [], queue, before, visited, facts)
    ensures QueueInv(g, seen, queue, visited)
    ensures Extends(before, visited) && Answers(g, facts, before, visited)
  {
    assert [] + queue == queue;
  }

  lemma StartPage(g: Graph, seen: set<Node>, queue: seq<Item>, before: map<Node, nat>, visited: map<Node, nat>, limit: nat)
    requires Reading(g, seen, [], queue + [], before, visited, [])
    ensures PageInv(g, seen, Dequeue(queue, limit).0, Dequeue(queue, limit).1, visited)
    ensures Extends(before, visited) && Answers(g, [], before, visited)
  {
    assert [] + (queue + []) == queue;
    PageStart(g, seen, queue, visited, limit);
  }

  lemma JoinPage(g: Graph, seen: set<Node>, queue: seq<Item>, first: map<Node, nat>, start: map<Node, nat>,
                 end: map<Node, nat>, facts: seq<Entry>)
    requires Extends(first, start) && Answers(g, [], first, start)
    requires Reading(g, seen, [], queue, start, end, facts)
    ensures Reading(g, seen, [], queue, first, end, facts)
  {
    AnswersJoin(g, [], facts, first, start, end);
    assert [] + facts == facts;
  }

  // Consecutive answers together are the answer for all they visited.
  lemma AnswersJoin(g: Graph, a: seq<Entry>, b: seq<Entry>, first: map<Node, nat>, mid: map<Node, nat>, end: map<Node, nat>)
    requires Extends(first, mid) && Answers(g, a, first, mid)
    requires Extends(mid, end) && Answers(g, b, mid, end)
    ensures Extends(first, end) && Answers(g, a + b, first, end)
  {
    forall n | n in end && n !in first && g.readable(n)
      ensures Entry(n, end[n]) in a + b
    {
      if n in mid {
        assert Entry(n, mid[n]) in a;
      } else {
        assert Entry(n, end[n]) in b;
      }
    }
    forall i, j | 0 <= i < |a| && 0 <= j < |b|
      ensures a[i].node != b[j].node && a[i].depth <= b[j].depth
    {
      assert a[i] in a && b[j] in b;
    }
  }

  lemma FirstCallInv(g: Graph, seen: set<Node>, queue: seq<Item>)
    requires seen == {g.root} + Elements(g.rootEdges)
    requires Elements(queue) == set c | c in g.rootEdges && c !in {g.root} :: Item(c, 1)
    requires NoRepeats(queue)
    ensures QueueInv(g, seen, queue, map[g.root := 0])
  {
    forall c | c in g.rootEdges && c != g.root
      ensures c in Nodes(Elements(queue)) && g.AtDepth(c, 1)
    {
      assert Item(c, 1) in Elements(queue);
      assert g.Within(0) == {g.root} && g.Within(1) == g.Within(0) + g.Next(g.Within(0));
      assert g.Expands(g.root) && c in g.Children(g.root);
      assert c in g.Next({g.root});
    }
    assert seen == {g.root} + Nodes(Elements(queue));
  }

  // ---------- a whole run ----------

  /** What a walk owes its caller in all: each node within reach that can be read, once, with
      the length of a shortest walk to it. */
  ghost predicate Complete(g: Graph, facts: seq<Entry>) {
    && (forall e: Entry :: e in facts <==> e.depth <= MAX_DEPTH && g.AtDepth(e.node, e.depth) && g.Expands(e.node))
    && (forall i, j :: 0 <= i < j < |facts| ==> facts[i].node != facts[j].node)
    && (forall i, j :: 0 <= i < j < |facts| ==> facts[i].depth <= facts[j].depth)
  }

  lemma VisitedBound(g: Graph, seen: set<Node>, queue: seq<Item>, visited: map<Node, nat>)
    requires QueueInv(g, seen, queue, visited)
    ensures visited.Keys <= g.Within(MAX_DEPTH)
    ensures |visited| <= |g.Within(MAX_DEPTH)|
    ensures queue != [] ==> |visited| < |g.Within(MAX_DEPTH)|
  {
    forall n | n in visited
      ensures n in g.Within(MAX_DEPTH)
    {
      WithinGrows(g, visited[n], MAX_DEPTH);
    }
    Subset(visited.Keys, g.Within(MAX_DEPTH));
    if queue != [] {
      var i := queue[0];
      assert i in Elements(queue) && i.node in Nodes(Elements(queue));
      WithinGrows(g, i.depth, MAX_DEPTH);
      Subset(visited.Keys + {i.node}, g.Within(MAX_DEPTH));
    }
  }

  lemma {:induction false} Subset<T>(a: set<T>, b: set<T>)
    requires a <= b
    ensures |a| <= |b|
  {
    if a != {} {
      var x :| x in a;
      Subset(a - {x}, b - {x});
    }
  }

  // With the queue empty, every node within reach has been visited, at its depth.
  lemma DrainedIsComplete(g: Graph, seen: set<Node>, visited: map<Node, nat>, facts: seq<Entry>)
    requires QueueInv(g, seen, [], visited)
    requires Answers(g, facts, map[g.root := 0], visited)
    ensures Complete(g, [Entry(g.root, 0)] + facts)
  {
    var all := [Entry(g.root, 0)] + facts;
    NearNodesSeen(g, seen, Elements<Item>([]), visited, MAX_DEPTH);
    assert seen == visited.Keys;
    forall e: Entry | e.depth <= MAX_DEPTH && g.AtDepth(e.node, e.depth) && g.Expands(e.node)
      ensures e in all
    {
      WithinGrows(g, e.depth, MAX_DEPTH);
      DepthIsUnique(g, e.node, e.depth, visited[e.node]);
      if e.node == g.root {
        assert all[0] == e;
      } else {
        assert e in facts;
      }
    }
    forall e | e in all
      ensures e.depth <= MAX_DEPTH && g.AtDepth(e.node, e.depth) && g.Expands(e.node)
    {
      assert e == all[0] || e in facts;
    }
    assert forall i :: 0 < i < |all| ==> all[i] == facts[i - 1] && all[i] in facts;
  }

  /** A caller that pages a walk to its end. Every walk ends, within one resume per node in
      reach, and its answers together are exactly what the walk owes. */
  method Explain(g: Graph) returns (facts: seq<Entry>, resumes: nat)
    ensures Complete(g, facts)
    ensures resumes < |g.Within(MAX_DEPTH)|
  {
    var s := new Session(g);
    var answers: seq<Entry> := [];
    var hasMore := !s.completed;
    resumes := 0;
    NothingRead(g, s.visited);
    VisitedBound(g, s.seen, s.queue, s.visited);
    while hasMore
      invariant s.Valid() && s.g == g && fresh(s)
      invariant hasMore == (s.queue != [])
      invariant Extends(map[g.root := 0], s.visited) && Answers(g, answers, map[g.root := 0], s.visited)
      invariant resumes < |s.visited| <= |g.Within(MAX_DEPTH)|
      decreases |g.Within(MAX_DEPTH)| - |s.visited|
    {
      ghost var before := s.visited;
      VisitedBound(g, s.seen, s.queue, s.visited);
      var page;
      page, hasMore := s.Resume();
      VisitedBound(g, s.seen, s.queue, s.visited);
      AnswersJoin(g, answers, page, map[g.root := 0], before, s.visited);
      answers := answers + page;
      resumes := resumes + 1;
    }
    DrainedIsComplete(g, s.seen, s.visited, answers);
    facts := [Entry(g.root, 0)] + answers;
  }
}
