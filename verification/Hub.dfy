/**
 Background tasks of a repo (internal/repos/hub.go): one task an operation at a time, its events
 broadcast to whoever listens. Tasks, listeners and new starts interleave at every lock boundary;
 each task emits from one goroutine. What a listener shows is its snapshot brought up to date by
 the events it hears.
*/
module Hub {
  import opened Wrappers
  import opened Decimal

  type Op = string
  type Client = int

  datatype Event = Event(op: Op, id: nat, terminal: bool, message: string)

  /** How far a task's emitting has come. */
  datatype Phase =
    | Working
    | Holding(ev: Event)   // accepted, not yet broadcast
    | Told(ev: Event)      // its last event is out, the hub still counts it as running
    | Over

  datatype Task = Task(op: Op, phase: Phase)

  /** What a listener shows, and the operations whose last event it was too late to hear. */
  datatype View = View(shown: map<Op, Event>, late: set<Op>)

  datatype State = State(
    active: map<Op, Event>,
    lastDone: map<Op, Event>,
    cancels: set<nat>,
    counter: nat,
    tasks: map<nat, Task>,
    log: seq<Event>,
    views: map<Client, View>)

  datatype Step =
    | Start(op: Op)
    | Emit(id: nat, terminal: bool, message: string)
    | Publish(id: nat)
    | Finish(id: nat)
    | Subscribe(c: Client)

  predicate Enabled(s: State, t: Step) {
    match t
    case Start(_) => true
    case Emit(id, _, _) => id in s.tasks && !s.tasks[id].phase.Holding?
    case Publish(id) => id in s.tasks && s.tasks[id].phase.Holding?
    case Finish(id) => id in s.tasks && s.tasks[id].phase.Told?
    case Subscribe(c) => c !in s.views
  }

  function Hear(v: View, ev: Event): View {
    View(v.shown[ev.op := ev], v.late - {ev.op})
  }

  /** Running tasks, and the last ended one of every other operation. */
  function Snapshot(s: State): map<Op, Event> {
    map op | op in s.active.Keys + s.lastDone.Keys :: if op in s.active then s.active[op] else s.lastDone[op]
  }

  function ToldOps(s: State): set<Op> {
    set id | id in s.tasks && s.tasks[id].phase.Told? :: s.tasks[id].op
  }

  function Apply(s: State, t: Step): State
    requires Enabled(s, t)
  {
    match t
    case Start(op) =>
      if op in s.active then s
      else
        var id := s.counter + 1;
        s.(counter := id, cancels := s.cancels + {id}, active := s.active[op := Event(op, id, false, "")],
           tasks := s.tasks[id := Task(op, Working)])
    case Emit(id, terminal, message) =>
      var task := s.tasks[id];
      if task.phase != Working then s
      else
        var ev := Event(task.op, id, terminal, message);
        s.(tasks := s.tasks[id := Task(task.op, Holding(ev))],
           active := if terminal then s.active else s.active[task.op := ev])
    case Publish(id) =>
      var ev := s.tasks[id].phase.ev;
      s.(log := s.log + [ev], views := map c | c in s.views :: Hear(s.views[c], ev),
         tasks := s.tasks[id := Task(s.tasks[id].op, if ev.terminal then Told(ev) else Working)])
    case Finish(id) =>
      var ev := s.tasks[id].phase.ev;
      s.(active := s.active - {ev.op}, cancels := s.cancels - {id}, lastDone := s.lastDone[ev.op := ev],
         tasks := s.tasks[id := Task(s.tasks[id].op, Over)])
    case Subscribe(c) => s.(views := s.views[c := View(Snapshot(s), ToldOps(s))])
  }

  // ---- what every step keeps ----

  ghost predicate Live(s: State, id: nat) {
    id in s.tasks && s.tasks[id].phase != Over
  }

  /** The hub's books: an operation is active exactly while a task of it is live, and that task is the one. */
  ghost predicate Books(s: State) {
    (forall id :: id in s.tasks ==> id <= s.counter) &&
    (forall id :: Live(s, id) ==> s.tasks[id].op in s.active && s.active[s.tasks[id].op].id == id) &&
    (forall op :: op in s.active ==>
      Live(s, s.active[op].id) && s.tasks[s.active[op].id].op == op && s.active[op].op == op && !s.active[op].terminal) &&
    (forall id: nat, past: nat :: Live(s, id) && past in s.tasks && s.tasks[past].op == s.tasks[id].op ==> past <= id) &&
    (forall id :: id in s.cancels <==> Live(s, id)) &&
    (forall op :: op in s.lastDone ==> s.lastDone[op].terminal && s.lastDone[op].op == op)
  }

  /** What a task holds is its own. */
  ghost predicate Own(s: State) {
    forall id :: id in s.tasks ==>
      match s.tasks[id].phase {
        case Holding(ev) => ev.id == id && ev.op == s.tasks[id].op
        case Told(ev) => ev.id == id && ev.op == s.tasks[id].op && ev.terminal
        case _ => true
      }
  }

  /** What has been broadcast: a task's last event is its last, and a later task's come later. */
  ghost predicate Orderly(s: State) {
    (forall i :: 0 <= i < |s.log| ==>
      s.log[i].id in s.tasks && s.tasks[s.log[i].id].op == s.log[i].op &&
      (s.log[i].terminal ==> s.tasks[s.log[i].id].phase.Told? || s.tasks[s.log[i].id].phase.Over?)) &&
    (forall i, j :: 0 <= i < j < |s.log| && s.log[i].id == s.log[j].id ==> !s.log[i].terminal) &&
    (forall i, j :: 0 <= i < j < |s.log| && s.log[i].op == s.log[j].op ==> s.log[i].id <= s.log[j].id)
  }

  /** What a listener shows of an operation with nothing running, or about to have nothing running. */
  ghost predicate Sees(s: State, v: View, op: Op) {
    if op !in s.active then
      if op in v.late then op in v.shown && !v.shown[op].terminal
      else op in v.shown <==> op in s.lastDone && (op in v.shown ==> v.shown[op] == s.lastDone[op])
    else
      s.active[op].id in s.tasks &&
      match s.tasks[s.active[op].id].phase {
        case Told(ev) => op in v.shown && (if op in v.late then !v.shown[op].terminal else v.shown[op] == ev)
        case _ => true
      }
  }

  ghost predicate Views(s: State) {
    forall c, op: Op :: c in s.views ==> Sees(s, s.views[c], op)
  }

  ghost predicate Inv(s: State) {
    Books(s) && Own(s) && Orderly(s) && Views(s)
  }

  lemma BooksKept(s: State, t: Step)
    requires Books(s) && Own(s) && Enabled(s, t)
    ensures Books(Apply(s, t))
  {
    match t
    case Start(op) => StartBooks(s, op);
    case Finish(id) => FinishBooks(s, id);
    case Subscribe(_) =>
    case Emit(_, _, _) => EmitBooks(s, t);
    case Publish(_) => PublishBooks(s, t);
  }

  lemma StartBooks(s: State, op: Op)
    requires Books(s)
    ensures Books(Apply(s, Start(op)))
  {
    var g := Apply(s, Start(op));
    if op !in s.active {
      forall id ensures Live(g, id) <==> Live(s, id) || id == g.counter {
      }
    }
  }

  lemma FinishBooks(s: State, id: nat)
    requires Books(s) && Own(s) && Enabled(s, Finish(id))
    ensures Books(Apply(s, Finish(id)))
  {
    var g := Apply(s, Finish(id));
    assert Live(s, id);
    forall other ensures Live(g, other) <==> Live(s, other) && other != id {
    }
  }

  lemma EmitBooks(s: State, t: Step)
    requires Books(s) && Own(s) && Enabled(s, t) && t.Emit?
    ensures Books(Apply(s, t))
  {
    var g := Apply(s, t);
    forall id ensures Live(g, id) <==> Live(s, id) {
    }
    assert s.tasks[t.id].phase != Over ==> Live(s, t.id);
  }

  lemma PublishBooks(s: State, t: Step)
    requires Books(s) && Own(s) && Enabled(s, t) && t.Publish?
    ensures Books(Apply(s, t))
  {
    var g := Apply(s, t);
    forall id ensures Live(g, id) <==> Live(s, id) {
    }
    assert Live(s, t.id);
  }

  lemma OwnKept(s: State, t: Step)
    requires Own(s) && Enabled(s, t)
    ensures Own(Apply(s, t))
  {
  }

  lemma OrderlyKept(s: State, t: Step)
    requires Books(s) && Own(s) && Orderly(s) && Enabled(s, t)
    ensures Orderly(Apply(s, t))
  {
    if t.Publish? {
      PublishOrderly(s, t.id);
    }
  }

  lemma PublishOrderly(s: State, id: nat)
    requires Books(s) && Own(s) && Orderly(s) && Enabled(s, Publish(id))
    ensures Orderly(Apply(s, Publish(id)))
  {
    var g := Apply(s, Publish(id));
    assert Live(s, id);
    forall i | 0 <= i < |g.log|
      ensures g.log[i].id in g.tasks && g.tasks[g.log[i].id].op == g.log[i].op
      ensures g.log[i].terminal ==> g.tasks[g.log[i].id].phase.Told? || g.tasks[g.log[i].id].phase.Over?
    {
      if i < |s.log| {
        assert g.log[i] == s.log[i];
      }
    }
  }

  lemma ViewsKept(s: State, t: Step)
    requires Books(s) && Own(s) && Views(s) && Enabled(s, t)
    ensures Views(Apply(s, t))
  {
    var g := Apply(s, t);
    forall c, op: Op | c in g.views ensures Sees(g, g.views[c], op) {
      if t.Subscribe? && c == t.c {
        Arrives(s, c, op);
      } else {
        assert Sees(s, s.views[c], op);
        StillSees(s, t, c, op);
      }
    }
  }

  lemma Arrives(s: State, c: Client, op: Op)
    requires Books(s) && Own(s) && Enabled(s, Subscribe(c))
    ensures var g := Apply(s, Subscribe(c)); Sees(g, g.views[c], op)
  {
  }

  lemma StillSees(s: State, t: Step, c: Client, op: Op)
    requires Books(s) && Own(s) && Enabled(s, t) && c in s.views && Sees(s, s.views[c], op)
    requires !(t.Subscribe? && t.c == c)
    ensures var g := Apply(s, t); c in g.views && Sees(g, g.views[c], op)
  {
    hide Snapshot, ToldOps;
    match t
    case Publish(id) => assert Live(s, id);
    case Finish(id) => assert Live(s, id);
    case Emit(id, _, _) => assert s.tasks[id].phase != Over ==> Live(s, id);
    case _ =>
  }

  lemma InvKept(s: State, t: Step)
    requires Inv(s) && Enabled(s, t)
    ensures Inv(Apply(s, t))
  {
    hide Books, Own, Orderly, Views, Apply;
    BooksKept(s, t);
    OwnKept(s, t);
    OrderlyKept(s, t);
    ViewsKept(s, t);
  }

  // ---- whole runs ----

  function Empty(): State {
    State(map[], map[], {}, 0, map[], [], map[])
  }

  ghost predicate Run(states: seq<State>, steps: seq<Step>) {
    |states| == |steps| + 1 && states[0] == Empty() &&
    forall i :: 0 <= i < |steps| ==> Enabled(states[i], steps[i]) && states[i + 1] == Apply(states[i], steps[i])
  }

  lemma {:induction false} RunInv(states: seq<State>, steps: seq<Step>)
    requires Run(states, steps)
    ensures Inv(states[|steps|])
    decreases |steps|
  {
    if steps != [] {
      var n := |steps| - 1;
      hide Enabled, Apply, Inv;
      assert forall i :: 0 <= i < n ==> states[..n + 1][i] == states[i] && steps[..n][i] == steps[i];
      RunInv(states[..n + 1], steps[..n]);
      assert Enabled(states[n], steps[n]) && states[n + 1] == Apply(states[n], steps[n]);
      InvKept(states[n], steps[n]);
    }
  }

  // ---- what a running operation is shown as ----

  /** The last progress of a task that has been broadcast; that it runs, before any was. */
  ghost function LastNews(log: seq<Event>, op: Op, id: nat): Event {
    if log == [] then Event(op, id, false, "")
    else if log[|log| - 1].id == id && !log[|log| - 1].terminal then log[|log| - 1]
    else LastNews(log[..|log| - 1], op, id)
  }

  /** A live task's entry is the progress it is about to broadcast, or else the last it has. */
  ghost predicate Current(s: State) {
    forall id :: Live(s, id) ==>
      var task := s.tasks[id];
      task.op in s.active &&
      s.active[task.op] == if task.phase.Holding? && !task.phase.ev.terminal then task.phase.ev else LastNews(s.log, task.op, id)
  }

  lemma {:induction false} NoNews(log: seq<Event>, op: Op, id: nat)
    requires forall i :: 0 <= i < |log| ==> log[i].id != id
    ensures LastNews(log, op, id) == Event(op, id, false, "")
  {
    if log != [] { NoNews(log[..|log| - 1], op, id); }
  }

  lemma NewsNext(log: seq<Event>, ev: Event, op: Op, id: nat)
    ensures LastNews(log + [ev], op, id) == if ev.id == id && !ev.terminal then ev else LastNews(log, op, id)
  {
    assert (log + [ev])[..|log|] == log;
  }

  lemma CurrentKept(s: State, t: Step)
    requires Books(s) && Own(s) && Orderly(s) && Current(s) && Enabled(s, t)
    ensures Current(Apply(s, t))
  {
    var g := Apply(s, t);
    hide LastNews, Orderly;
    forall id | Live(g, id)
      ensures var task := g.tasks[id];
        task.op in g.active &&
        g.active[task.op] == if task.phase.Holding? && !task.phase.ev.terminal then task.phase.ev else LastNews(g.log, task.op, id)
    {
      if Live(s, id) {
        OneLive(s, t, id);
        if t.Publish? { NewsNext(s.log, s.tasks[t.id].phase.ev, g.tasks[id].op, id); }
      } else {
        BeganNow(s, t, id);
      }
    }
  }

  lemma BeganNow(s: State, t: Step, id: nat)
    requires Books(s) && Orderly(s) && Enabled(s, t) && Live(Apply(s, t), id) && !Live(s, id)
    ensures var g := Apply(s, t); t.Start? && g.tasks[id] == Task(t.op, Working) && t.op in g.active && g.active[t.op] == LastNews(g.log, t.op, id)
  {
    NoNews(s.log, t.op, id);
  }

  lemma OneLive(s: State, t: Step, id: nat)
    requires Books(s) && Enabled(s, t) && Live(s, id)
    ensures (t.Emit? || t.Publish? || t.Finish?) && Live(s, t.id) && s.tasks[t.id].op == s.tasks[id].op ==> t.id == id
    ensures t.Start? && t.op == s.tasks[id].op ==> t.op in s.active
  {
  }

  lemma {:induction false} RunCurrent(states: seq<State>, steps: seq<Step>)
    requires Run(states, steps)
    ensures Current(states[|steps|])
    decreases |steps|
  {
    if steps != [] {
      var n := |steps| - 1;
      hide Enabled, Apply, Inv, Current;
      assert forall i :: 0 <= i < n ==> states[..n + 1][i] == states[i] && steps[..n][i] == steps[i];
      RunCurrent(states[..n + 1], steps[..n]);
      RunInv(states[..n + 1], steps[..n]);
      assert Enabled(states[n], steps[n]) && states[n + 1] == Apply(states[n], steps[n]);
      InvParts(states[n]);
      CurrentKept(states[n], steps[n]);
    }
  }

  lemma InvParts(s: State)
    requires Inv(s)
    ensures Books(s) && Own(s) && Orderly(s)
  {
  }

  // Over every run: whoever begins to listen is shown, of each running operation, the progress its task
  // is about to broadcast or else the last it has; of each other its last event, if it has had one.
  lemma ShownAtFirst(states: seq<State>, steps: seq<Step>, c: Client)
    requires Run(states, steps) && Enabled(states[|steps|], Subscribe(c))
    ensures var s := states[|steps|];
      var v := Apply(s, Subscribe(c)).views[c];
      && (forall op :: op in v.shown <==> op in s.lastDone || exists id :: Live(s, id) && s.tasks[id].op == op)
      && (forall id :: Live(s, id) ==>
            var task := s.tasks[id];
            v.shown[task.op] == if task.phase.Holding? && !task.phase.ev.terminal then task.phase.ev else LastNews(s.log, task.op, id))
      && (forall op :: op in s.lastDone && !(exists id :: Live(s, id) && s.tasks[id].op == op) ==> v.shown[op] == s.lastDone[op])
  {
    RunInv(states, steps);
    RunCurrent(states, steps);
    hide Orderly, Views, LastNews;
  }

  /** A task is named after its operation and its number. */
  function TaskId(op: Op, id: nat): string {
    op + "-" + Itoa(id)
  }

  // However operations are called, two tasks never share a name.
  lemma TaskIdsDiffer(op: Op, id: nat, other: Op, n: nat)
    requires TaskId(op, id) == TaskId(other, n)
    ensures id == n && op == other
  {
    DashLast(op, id);
    DashLast(other, n);
    var s := TaskId(op, id);
    assert s[..|op|] == op && s[..|op|] == other;
    assert s[|op| + 1..] == Itoa(id) && s[|op| + 1..] == Itoa(n);
    ItoaInjective(id, n);
  }

  lemma DashLast(op: Op, id: nat)
    ensures TaskId(op, id)[|op|] == '-'
    ensures forall i :: |op| < i < |TaskId(op, id)| ==> TaskId(op, id)[i] != '-'
  {
    forall i | |op| < i < |TaskId(op, id)| ensures TaskId(op, id)[i] != '-' {
      assert TaskId(op, id)[i] == Itoa(id)[i - |op| - 1];
    }
  }

  /**
   Over every run: at most one live task an operation; a task broadcasts nothing after its last event,
   and nothing of it comes after an event of a later task of its operation.
  */
  lemma SingleFlight(states: seq<State>, steps: seq<Step>)
    requires Run(states, steps)
    ensures var s := states[|steps|];
      (forall a, b :: Live(s, a) && Live(s, b) && s.tasks[a].op == s.tasks[b].op ==> a == b) &&
      (forall op :: op in s.active <==> exists id :: Live(s, id) && s.tasks[id].op == op) &&
      (forall i, j :: 0 <= i < j < |s.log| && s.log[i].id == s.log[j].id ==> !s.log[i].terminal) &&
      (forall i, j :: 0 <= i < j < |s.log| && s.log[i].op == s.log[j].op ==> s.log[i].id <= s.log[j].id)
  {
    RunInv(states, steps);
  }

  /**
   Once an operation has ended, a listener shows its last event if and only if it did not begin to
   listen between that event's broadcast and the hub's noting it, or has heard of the operation since.
   One that did shows it running for good.
  */
  lemma LateListeners(states: seq<State>, steps: seq<Step>, c: Client, op: Op)
    requires Run(states, steps)
    requires var s := states[|steps|]; c in s.views && op !in s.active && op in s.lastDone
    ensures var s := states[|steps|]; var v := s.views[c];
      op in v.shown &&
      (v.shown[op] == s.lastDone[op] <==> op !in v.late) &&
      (op in v.late ==> !v.shown[op].terminal)
  {
    RunInv(states, steps);
    var s := states[|steps|];
    assert Sees(s, s.views[c], op);
  }

  // One such run: the listener arrives when the task's last event is out and not yet noted.
  lemma ListenerMissesEnd(op: Op, c: Client, message: string) returns (states: seq<State>)
    ensures Run(states, [Start(op), Emit(1, true, message), Publish(1), Subscribe(c), Finish(1)])
    ensures var end := states[5];
      op !in end.active && op in end.lastDone && end.lastDone[op].terminal &&
      c in end.views && op in end.views[c].shown && !end.views[c].shown[op].terminal
  {
    var ev := Event(op, 1, true, message);
    var running := Event(op, 1, false, "");
    var s1 := State(map[op := running], map[], {1}, 1, map[1 := Task(op, Working)], [], map[]);
    var s2 := s1.(tasks := map[1 := Task(op, Holding(ev))]);
    var s3 := s1.(tasks := map[1 := Task(op, Told(ev))], log := [ev]);
    var s4 := s3.(views := map[c := View(map[op := running], {op})]);
    var s5 := s4.(active := map[], cancels := {}, lastDone := map[op := ev], tasks := map[1 := Task(op, Over)]);
    assert Apply(Empty(), Start(op)) == s1;
    assert Apply(s1, Emit(1, true, message)) == s2;
    assert Apply(s2, Publish(1)) == s3 by { assert [] + [ev] == [ev]; }
    assert Snapshot(s3) == map[op := running] && ToldOps(s3) == {op};
    assert Apply(s3, Subscribe(c)) == s4;
    assert Apply(s4, Finish(1)) == s5;
    states := [Empty(), s1, s2, s3, s4, s5];
  }

  /** What makes a listener late, and what cures it. */
  lemma LateExactly(s: State, t: Step, c: Client, op: Op)
    requires Enabled(s, t) && c in Apply(s, t).views
    ensures op in Apply(s, t).views[c].late <==>
      if t == Subscribe(c) then exists id :: id in s.tasks && s.tasks[id].phase.Told? && s.tasks[id].op == op
      else op in s.views[c].late && !(t.Publish? && s.tasks[t.id].phase.ev.op == op)
  {
  }

  lemma NumbersNew(s: State)
    requires Inv(s)
    ensures s.counter + 1 !in s.tasks
    ensures forall id :: id in s.tasks && s.tasks[id].phase.Told? ==> s.tasks[id].phase.ev.op == s.tasks[id].op
  {
  }

  // ---- the hub ----

  /** The hub's fields, and what its tasks and listeners hold; each method is one section or broadcast. */
  class TaskHub {
    var active: map<Op, Event>
    var lastDone: map<Op, Event>
    var cancels: set<nat>
    var counter: nat
    var tasks: map<nat, Task>
    var views: map<Client, View>
    ghost var log: seq<Event>

    ghost function Now(): State
      reads this
    {
      State(active, lastDone, cancels, counter, tasks, log, views)
    }

    constructor ()
      ensures Now() == Empty() && Inv(Now())
    {
      active, lastDone, cancels, counter := map[], map[], {}, 0;
      tasks, views, log := map[], map[], [];
    }

    /** One task an operation: refused while another runs. */
    method StartTask(op: Op) returns (ok: bool, id: nat)
      requires Inv(Now())
      modifies this
      ensures Inv(Now()) && Now() == Apply(old(Now()), Start(op))
      ensures ok <==> op !in old(active)
      ensures ok ==> id !in old(tasks) && Live(Now(), id) && tasks[id].op == op
    {
      hide Inv, Sees;
      NumbersNew(Now());
      InvKept(Now(), Start(op));
      ok, id := op !in active, counter;
      if !ok {
        return;
      }
      counter := counter + 1;
      id := counter;
      cancels := cancels + {id};
      active := active[op := Event(op, id, false, "")];
      tasks := tasks[id := Task(op, Working)];
    }

    /** Accepts an event, unless its task has had its last one. */
    method Note(id: nat, terminal: bool, message: string) returns (ok: bool)
      requires Inv(Now()) && Enabled(Now(), Emit(id, terminal, message))
      modifies this
      ensures Inv(Now()) && Now() == Apply(old(Now()), Emit(id, terminal, message))
      ensures ok <==> old(tasks)[id].phase == Working
      ensures !ok ==> Now() == old(Now())
      ensures ok ==>
        var op := old(tasks)[id].op;
        tasks == old(tasks)[id := Task(op, Holding(Event(op, id, terminal, message)))] &&
        active == if terminal then old(active) else old(active)[op := Event(op, id, false, message)]
    {
      hide Inv, Sees;
      InvKept(Now(), Emit(id, terminal, message));
      var op := tasks[id].op;
      ok := tasks[id].phase == Working;
      if !ok {
        return;
      }
      var ev := Event(op, id, terminal, message);
      tasks := tasks[id := Task(op, Holding(ev))];
      if !terminal {
        active := active[op := ev];
      }
    }

    /** Every listener hears it; the hub's lock is not held. */
    method Broadcast(id: nat)
      requires Inv(Now()) && Enabled(Now(), Publish(id))
      modifies this
      ensures Inv(Now()) && Now() == Apply(old(Now()), Publish(id))
      ensures forall c :: c in views ==> var ev := old(tasks)[id].phase.ev; ev.op in views[c].shown && views[c].shown[ev.op] == ev
    {
      hide Inv, Sees;
      InvKept(Now(), Publish(id));
      var ev := tasks[id].phase.ev;
      views := map c | c in views :: Hear(views[c], ev);
      tasks := tasks[id := Task(tasks[id].op, if ev.terminal then Told(ev) else Working)];
      log := log + [ev];
    }

    /** Once its last event is out, a task leaves the books. */
    method Retire(id: nat)
      requires Inv(Now()) && Enabled(Now(), Finish(id))
      modifies this
      ensures Inv(Now()) && Now() == Apply(old(Now()), Finish(id))
      ensures old(tasks)[id].op !in active && !Live(Now(), id)
    {
      hide Inv, Sees;
      NumbersNew(Now());
      InvKept(Now(), Finish(id));
      var ev := tasks[id].phase.ev;
      active := active - {ev.op};
      cancels := cancels - {id};
      lastDone := lastDone[ev.op := ev];
      tasks := tasks[id := Task(tasks[id].op, Over)];
    }

    /** The snapshot and the subscription are one section. */
    method Listen(c: Client)
      requires Inv(Now()) && Enabled(Now(), Subscribe(c))
      modifies this
      ensures Inv(Now()) && Now() == Apply(old(Now()), Subscribe(c))
    {
      hide Inv, Sees;
      InvKept(Now(), Subscribe(c));
      var snapshot := map op | op in active.Keys + lastDone.Keys :: if op in active then active[op] else lastDone[op];
      var late := set id | id in tasks && tasks[id].phase.Told? :: tasks[id].op;
      views := views[c := View(snapshot, late)];
    }
  }
}
