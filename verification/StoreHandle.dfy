/**
 Generations of a repo's store: acquire, release, detach, drain, close and attach
 (internal/repos/instance.go, and their callers in builder.go and swapstore.go).

 Every lock operation, field access, count and wait is a step of its own; any number of
 acquirers, closers and swappers interleave.
*/
module StoreHandle {
  import opened Wrappers

  type Gen = nat
  type Pid = int

  /** One opened service: users counted by its wait group, whether anyone began to wait for them,
      and how often it was closed. */
  datatype Store = Store(users: int, waited: bool, closes: nat)

  /** Where a goroutine is. */
  datatype Proc =
    // Acquire, and the release it returns
    | WantRead | InRead | Seen(gen: Gen) | Added(gen: Gen) | Failing | Failed | Using(gen: Gen) | Released(gen: Gen)
    // closeFn (mark) or SwapStore: detach, drain, close
    | WantTake(mark: bool) | InTake(mark: bool) | Took(taken: Option<Gen>) | Draining(gen: Gen) | Waiting(gen: Gen) | Drained(gen: Gen)
    // attachStore of a newly opened service, closed by the caller when refused
    | WantPut(gen: Gen) | InPut(gen: Gen) | DidPut | Refused(gen: Gen) | Orphan(gen: Gen)
    | Done

  datatype State = State(
    closed: bool,
    handle: Option<Gen>,
    stores: map<Gen, Store>,
    readers: set<Pid>,
    writer: Option<Pid>,
    procs: map<Pid, Proc>,
    lost: set<Gen>)          // attached over: dropped from the handle without anyone draining it

  datatype Step = StartRead(p: Pid) | StartTake(p: Pid, mark: bool) | StartPut(p: Pid, gen: Gen) | Advance(p: Pid)

  predicate Enabled(s: State, t: Step) {
    match t
    case StartRead(p) => p !in s.procs
    case StartTake(p, _) => p !in s.procs
    case StartPut(p, gen) => p !in s.procs && gen !in s.stores
    case Advance(p) =>
      p in s.procs && match s.procs[p] {
        case WantRead => s.writer.None?
        case WantTake(_) => s.writer.None? && s.readers == {}
        case WantPut(_) => s.writer.None? && s.readers == {}
        case Seen(gen) => gen in s.stores
        case Using(gen) => gen in s.stores
        case Draining(gen) => gen in s.stores
        case Waiting(gen) => gen in s.stores && s.stores[gen].users == 0
        case Drained(gen) => gen in s.stores
        case Orphan(gen) => gen in s.stores
        case Failed => false
        case Done => false
        case _ => true
      }
  }

  function Goto(s: State, p: Pid, to: Proc): State {
    s.(procs := s.procs[p := to])
  }

  function Count(s: State, gen: Gen, delta: int): map<Gen, Store>
    requires gen in s.stores
  {
    s.stores[gen := s.stores[gen].(users := s.stores[gen].users + delta)]
  }

  function Apply(s: State, t: Step): State
    requires Enabled(s, t)
  {
    match t
    case StartRead(p) => Goto(s, p, WantRead)
    case StartTake(p, mark) => Goto(s, p, WantTake(mark))
    case StartPut(p, gen) => Goto(s, p, WantPut(gen)).(stores := s.stores[gen := Store(0, false, 0)])
    case Advance(p) =>
      match s.procs[p] {
        case WantRead => Goto(s, p, InRead).(readers := s.readers + {p})
        case InRead => Goto(s, p, if s.closed || s.handle.None? then Failing else Seen(s.handle.value))
        case Seen(gen) => Goto(s, p, Added(gen)).(stores := Count(s, gen, 1))
        case Added(gen) => Goto(s, p, Using(gen)).(readers := s.readers - {p})
        case Failing => Goto(s, p, Failed).(readers := s.readers - {p})
        case Using(gen) => Goto(s, p, Released(gen)).(stores := Count(s, gen, -1))
        case Released(_) => s
        case WantTake(mark) => Goto(s, p, InTake(mark)).(writer := Some(p))
        case InTake(mark) => Goto(s, p, Took(s.handle)).(closed := s.closed || mark, handle := None)
        case Took(taken) => Goto(s, p, if taken.Some? then Draining(taken.value) else Done).(writer := None)
        case Draining(gen) => Goto(s, p, Waiting(gen)).(stores := s.stores[gen := s.stores[gen].(waited := true)])
        case Waiting(gen) => Goto(s, p, Drained(gen))
        case Drained(gen) => Goto(s, p, Done).(stores := Closed(s, gen))
        case WantPut(gen) => Goto(s, p, InPut(gen)).(writer := Some(p))
        case InPut(gen) =>
          if s.closed then Goto(s, p, Refused(gen))
          else Goto(s, p, DidPut).(handle := Some(gen), lost := s.lost + (if s.handle.Some? then {s.handle.value} else {}))
        case DidPut => Goto(s, p, Done).(writer := None)
        case Refused(gen) => Goto(s, p, Orphan(gen)).(writer := None)
        case Orphan(gen) => Goto(s, p, Done).(stores := Closed(s, gen))
        case Failed => s
        case Done => s
      }
  }

  function Closed(s: State, gen: Gen): map<Gen, Store>
    requires gen in s.stores
  {
    s.stores[gen := s.stores[gen].(closes := s.stores[gen].closes + 1)]
  }

  ghost predicate Run(states: seq<State>, steps: seq<Step>) {
    && |states| == |steps| + 1
    && forall i :: 0 <= i < |steps| ==> StepTo(states[i], steps[i], states[i + 1])
  }

  ghost predicate StepTo(s: State, t: Step, s': State) {
    Enabled(s, t) && s' == Apply(s, t)
  }

  /** A new instance: nothing attached, nobody at work. */
  ghost predicate Initial(s: State) {
    s == State(false, None, map[], {}, None, map[], {})
  }

  // ---------- the lock ----------

  predicate ReadLocked(proc: Proc) {
    proc.InRead? || proc.Seen? || proc.Added? || proc.Failing?
  }

  predicate WriteLocked(proc: Proc) {
    proc.InTake? || proc.Took? || proc.InPut? || proc.DidPut? || proc.Refused?
  }

  ghost predicate LockInv(s: State) {
    && (forall p :: p in s.procs && ReadLocked(s.procs[p]) <==> p in s.readers)
    && (forall p :: p in s.procs && WriteLocked(s.procs[p]) <==> s.writer == Some(p))
    && (s.writer.Some? ==> s.readers == {})
  }

  // ---------- who is responsible for a generation ----------

  predicate Holds(proc: Proc, gen: Gen) {
    (proc.Added? || proc.Using?) && proc.gen == gen
  }

  ghost function Holders(procs: map<Pid, Proc>, gen: Gen): set<Pid> {
    set p | p in procs && Holds(procs[p], gen)
  }

  /** The generation a detacher has taken and not closed, or an attacher has opened and not
      attached or closed. */
  function Owned(proc: Proc): Option<Gen> {
    match proc
    case Took(taken) => taken
    case Draining(gen) => Some(gen)
    case Waiting(gen) => Some(gen)
    case Drained(gen) => Some(gen)
    case WantPut(gen) => Some(gen)
    case InPut(gen) => Some(gen)
    case Refused(gen) => Some(gen)
    case Orphan(gen) => Some(gen)
    case _ => None
  }

  ghost predicate HasOwner(procs: map<Pid, Proc>, gen: Gen) {
    exists p :: p in procs && Owned(procs[p]) == Some(gen)
  }

  ghost predicate OneOwner(procs: map<Pid, Proc>) {
    forall p, q :: p in procs && q in procs && Owned(procs[p]).Some? && Owned(procs[p]) == Owned(procs[q]) ==> p == q
  }

  /** What the state of each goroutine promises about its generation. */
  ghost predicate ProcInv(proc: Proc, s: State) {
    match proc
    case Seen(gen) => s.handle == Some(gen)
    case Added(gen) => s.handle == Some(gen)
    case Using(gen) => gen in s.stores && s.stores[gen].closes == 0
    case Waiting(gen) => gen in s.stores && s.stores[gen].waited
    case Drained(gen) => gen in s.stores && s.stores[gen].waited && s.stores[gen].users == 0
    case WantPut(gen) => Unused(s, gen)
    case InPut(gen) => Unused(s, gen)
    case Refused(gen) => Unused(s, gen)
    case Orphan(gen) => Unused(s, gen)
    case _ => true
  }

  ghost predicate Unused(s: State, gen: Gen) {
    gen in s.stores && s.stores[gen].users == 0 && !s.stores[gen].waited
  }

  /** A generation is attached, or has one owner, or was attached over, or has been closed, once:
      exactly one of these. */
  ghost predicate Accounted(s: State, gen: Gen)
    requires gen in s.stores
  {
    var attached, owned, lost := s.handle == Some(gen), HasOwner(s.procs, gen), gen in s.lost;
    && s.stores[gen].closes <= 1
    && !(attached && owned) && !(attached && lost) && !(owned && lost)
    && (s.stores[gen].closes == 1 <==> !attached && !owned && !lost)
    && (attached || lost ==> !s.stores[gen].waited)
    && (s.stores[gen].closes == 1 ==> s.stores[gen].users == 0)
  }

  ghost predicate Counted(s: State, gen: Gen)
    requires gen in s.stores
  {
    s.stores[gen].users == |Holders(s.procs, gen)|
  }

  ghost predicate HandleInv(s: State) {
    && LockInv(s)
    && (s.closed ==> s.handle.None?)
    && (s.handle.Some? ==> s.handle.value in s.stores)
    && s.lost <= s.stores.Keys
    && (forall p :: p in s.procs && Owned(s.procs[p]).Some? ==> Owned(s.procs[p]).value in s.stores)
    && (forall p :: p in s.procs ==> ProcInv(s.procs[p], s))
    && OneOwner(s.procs)
    && (forall gen :: gen in s.stores ==> Accounted(s, gen))
    && (forall gen :: gen in s.stores ==> Counted(s, gen))
  }

  // ---------- every step keeps it ----------

  lemma Actor(s: State, t: Step)
    requires Enabled(s, t)
    ensures forall q :: q != t.p ==> (q in Apply(s, t).procs <==> q in s.procs)
    ensures forall q :: q != t.p && q in s.procs ==> Apply(s, t).procs[q] == s.procs[q]
  {
  }

  lemma LockKept(s: State, t: Step)
    requires LockInv(s) && Enabled(s, t)
    ensures LockInv(Apply(s, t))
  {
  }

  lemma NoHolders(s: State, gen: Gen)
    requires gen in s.stores && Counted(s, gen) && s.stores[gen].users == 0
    ensures forall p :: p in s.procs ==> !Holds(s.procs[p], gen)
  {
    forall p | p in s.procs
      ensures !Holds(s.procs[p], gen)
    {
      assert Holders(s.procs, gen) == {};
      assert p !in Holders(s.procs, gen);
    }
  }

  lemma HoldersAfter(s: State, t: Step, gen: Gen)
    requires Enabled(s, t)
    ensures Holders(Apply(s, t).procs, gen)
         == if t.Advance? && s.procs[t.p] == Seen(gen) then Holders(s.procs, gen) + {t.p}
            else if t.Advance? && s.procs[t.p] == Using(gen) then Holders(s.procs, gen) - {t.p}
            else Holders(s.procs, gen)
  {
    var s' := Apply(s, t);
    Actor(s, t);
    assert t.p in s'.procs && (t.p in s.procs <==> t.Advance?);
    assert Holds(s'.procs[t.p], gen) <==>
        t.Advance? && (s.procs[t.p] == Seen(gen) || s.procs[t.p] == Added(gen));
    hide Apply;
  }

  lemma UsersAfter(s: State, t: Step, gen: Gen)
    requires Enabled(s, t) && gen in s.stores
    ensures gen in Apply(s, t).stores
    ensures Apply(s, t).stores[gen].users
         == if t.Advance? && s.procs[t.p] == Seen(gen) then s.stores[gen].users + 1
            else if t.Advance? && s.procs[t.p] == Using(gen) then s.stores[gen].users - 1
            else s.stores[gen].users
  {
  }

  lemma CountKept(s: State, t: Step, gen: Gen)
    requires HandleInv(s) && Enabled(s, t) && gen in Apply(s, t).stores
    ensures Counted(Apply(s, t), gen)
  {
    HoldersAfter(s, t, gen);
    if gen !in s.stores {
      FreshStore(s, t, gen);
    } else {
      UsersAfter(s, t, gen);
      assert Counted(s, gen);
      hide Apply, HandleInv;
    }
  }

  lemma FreshStore(s: State, t: Step, gen: Gen)
    requires HandleInv(s) && Enabled(s, t) && gen !in s.stores && gen in Apply(s, t).stores
    ensures t.StartPut? && Apply(s, t).stores[gen] == Store(0, false, 0) && Holders(s.procs, gen) == {}
  {
    forall p | p in s.procs
      ensures !Holds(s.procs[p], gen)
    {
      assert ProcInv(s.procs[p], s);
    }
  }

  lemma OtherProcKept(s: State, t: Step, q: Pid)
    requires HandleInv(s) && Enabled(s, t) && q in s.procs && q != t.p
    ensures ProcInv(s.procs[q], Apply(s, t))
  {
    assert ProcInv(s.procs[q], s);
    match s.procs[q]
    case Using(gen) =>
      if t.Advance? && (s.procs[t.p] == Drained(gen) || s.procs[t.p] == Orphan(gen)) {
        assert ProcInv(s.procs[t.p], s);
        assert Counted(s, gen);
        NoHolders(s, gen);
        assert Holds(s.procs[q], gen);
        assert false;
      }
    case _ =>
      if t.Advance? { OtherUnusedKept(s, t, q); }
  }

  lemma OtherUnusedKept(s: State, t: Step, q: Pid)
    requires HandleInv(s) && Enabled(s, t) && q in s.procs && q != t.p && t.Advance? && !s.procs[q].Using?
    ensures ProcInv(s.procs[q], Apply(s, t))
  {
    assert ProcInv(s.procs[q], s) && ProcInv(s.procs[t.p], s);
    if Owned(s.procs[q]).Some? {
      var gen := Owned(s.procs[q]).value;
      assert gen in s.stores && Accounted(s, gen) && Counted(s, gen);
      assert HasOwner(s.procs, gen);
      assert Owned(s.procs[t.p]) != Some(gen);
      if s.procs[t.p] == Using(gen) && s.stores[gen].users == 0 {
        NoHolders(s, gen);
        assert Holds(s.procs[t.p], gen);
        assert false;
      }
    }
  }

  lemma OwnProcKept(s: State, t: Step)
    requires HandleInv(s) && Enabled(s, t)
    ensures ProcInv(Apply(s, t).procs[t.p], Apply(s, t))
  {
    if t.Advance? {
      assert ProcInv(s.procs[t.p], s);
      assert s.handle.Some? ==> Accounted(s, s.handle.value);
      AdvancedProc(s, t.p);
    }
  }

  lemma AdvancedProc(s: State, p: Pid)
    requires Enabled(s, Advance(p)) && ProcInv(s.procs[p], s)
    requires s.handle.Some? ==> s.handle.value in s.stores && s.stores[s.handle.value].closes == 0
    ensures ProcInv(Apply(s, Advance(p)).procs[p], Apply(s, Advance(p)))
  {
  }

  // ---------- accounting ----------

  lemma OwnedAfter(s: State, t: Step)
    requires Enabled(s, t)
    ensures var now := Owned(Apply(s, t).procs[t.p]);
            match t {
              case StartPut(_, gen) => now == Some(gen)
              case Advance(p) =>
                if s.procs[p].InTake? then now == s.handle && Owned(s.procs[p]).None?
                else if s.procs[p].Drained? || s.procs[p].Orphan? || (s.procs[p].InPut? && !s.closed) then now.None?
                else now == Owned(s.procs[p])
              case _ => now.None?
            }
  {
  }

  // Who owns what after a step.
  lemma OwnersAfter(s: State, t: Step, gen: Gen)
    requires HandleInv(s) && Enabled(s, t)
    ensures HasOwner(Apply(s, t).procs, gen) <==>
            || (t.StartPut? && t.gen == gen)
            || (t.Advance? && s.procs[t.p].InTake? && s.handle == Some(gen))
            || (HasOwner(s.procs, gen)
                && !(t.Advance? && Owned(s.procs[t.p]) == Some(gen)
                     && (s.procs[t.p].Drained? || s.procs[t.p].Orphan? || (s.procs[t.p].InPut? && !s.closed))))
  {
    var s' := Apply(s, t);
    Actor(s, t);
    OwnedAfter(s, t);
    assert OneOwner(s.procs);
    assert t.p in s'.procs && (t.p in s.procs <==> t.Advance?);
    hide Apply, HandleInv, Owned;
    if HasOwner(s.procs, gen) {
      var q :| q in s.procs && Owned(s.procs[q]) == Some(gen);
      assert q != t.p ==> q in s'.procs && Owned(s'.procs[q]) == Some(gen);
    }
  }

  lemma OneOwnerKept(s: State, t: Step)
    requires HandleInv(s) && Enabled(s, t)
    ensures OneOwner(Apply(s, t).procs)
    ensures forall p :: p in Apply(s, t).procs && Owned(Apply(s, t).procs[p]).Some? ==>
              Owned(Apply(s, t).procs[p]).value in Apply(s, t).stores
  {
    var s' := Apply(s, t);
    Actor(s, t);
    OwnedAfter(s, t);
    assert s.handle.Some? ==> Accounted(s, s.handle.value);
    assert OneOwner(s.procs);
    assert s'.stores.Keys >= s.stores.Keys && (t.StartPut? ==> t.gen in s'.stores);
    hide Apply;
    forall p, q | p in s'.procs && q in s'.procs && Owned(s'.procs[p]).Some? && Owned(s'.procs[p]) == Owned(s'.procs[q])
      ensures p == q
    {
      assert p != t.p ==> HasOwner(s.procs, Owned(s'.procs[p]).value);
      assert q != t.p ==> HasOwner(s.procs, Owned(s'.procs[q]).value);
    }
  }

  lemma StoreAfter(s: State, t: Step, gen: Gen)
    requires Enabled(s, t) && gen in s.stores
    ensures gen in Apply(s, t).stores
    ensures var was, now := s.stores[gen], Apply(s, t).stores[gen];
            var proc := if t.Advance? then s.procs[t.p] else Done;
            && now.closes == was.closes + (if proc == Drained(gen) || proc == Orphan(gen) then 1 else 0)
            && now.waited == (was.waited || proc == Draining(gen))
  {
  }

  lemma HandleAfter(s: State, t: Step)
    requires Enabled(s, t)
    ensures var proc := if t.Advance? then s.procs[t.p] else Done;
            && Apply(s, t).handle == (if proc.InTake? then None else if proc.InPut? && !s.closed then Some(proc.gen) else s.handle)
            && Apply(s, t).lost == s.lost + (if proc.InPut? && !s.closed && s.handle.Some? then {s.handle.value} else {})
            && Apply(s, t).closed == (s.closed || (proc.InTake? && proc.mark))
  {
  }

  lemma AccountedKept(s: State, t: Step, gen: Gen)
    requires HandleInv(s) && Enabled(s, t) && gen in s.stores
    ensures gen in Apply(s, t).stores && Accounted(Apply(s, t), gen)
  {
    assert Accounted(s, gen) && Counted(s, gen);
    OwnersAfter(s, t, gen);
    StoreAfter(s, t, gen);
    UsersAfter(s, t, gen);
    HandleAfter(s, t);
    if t.Advance? {
      assert ProcInv(s.procs[t.p], s);
      assert Owned(s.procs[t.p]) == Some(gen) ==> HasOwner(s.procs, gen);
      if s.procs[t.p] == Using(gen) && s.stores[gen].users == 0 {
        NoHolders(s, gen);
        assert false;
      }
    } else {
      assert t.StartPut? ==> t.gen != gen;
    }
    hide Apply, HandleInv, HasOwner, Counted;
  }

  lemma FreshAccounted(s: State, t: Step, gen: Gen)
    requires HandleInv(s) && Enabled(s, t) && gen !in s.stores && gen in Apply(s, t).stores
    ensures Accounted(Apply(s, t), gen)
  {
    FreshStore(s, t, gen);
    HandleAfter(s, t);
    OwnersAfter(s, t, gen);
    hide Apply, HasOwner;
  }

  lemma HandleKept(s: State, t: Step)
    requires HandleInv(s) && Enabled(s, t)
    ensures HandleInv(Apply(s, t))
  {
    var s' := Apply(s, t);
    LockKept(s, t);
    OneOwnerKept(s, t);
    HandleAfter(s, t);
    Actor(s, t);
    forall p | p in s'.procs
      ensures ProcInv(s'.procs[p], s')
    {
      if p == t.p { OwnProcKept(s, t); } else { OtherProcKept(s, t, p); }
    }
    forall gen | gen in s'.stores
      ensures Accounted(s', gen) && Counted(s', gen)
    {
      CountKept(s, t, gen);
      if gen in s.stores { AccountedKept(s, t, gen); } else { FreshAccounted(s, t, gen); }
    }
    StoresGrow(s, t);
    hide Apply, ProcInv, Accounted, Counted, LockInv, OneOwner;
  }

  lemma StoresGrow(s: State, t: Step)
    requires HandleInv(s) && Enabled(s, t)
    ensures s.stores.Keys <= Apply(s, t).stores.Keys
    ensures Apply(s, t).handle.Some? ==> Apply(s, t).handle.value in Apply(s, t).stores
    ensures Apply(s, t).closed ==> Apply(s, t).handle.None?
  {
  }

  // ---------- whole runs ----------

  /** No user of a closed generation, no generation closed twice. */
  ghost predicate SafelyClosed(s: State) {
    && (forall p :: p in s.procs && (s.procs[p].Added? || s.procs[p].Using?) ==>
          s.procs[p].gen in s.stores && s.stores[s.procs[p].gen].closes == 0)
    && (forall gen :: gen in s.stores ==> s.stores[gen].closes <= 1 && s.stores[gen].users >= 0)
  }

  /** The step counts a new user of a generation. */
  predicate Adds(s: State, t: Step) {
    t.Advance? && t.p in s.procs && s.procs[t.p].Seen?
  }

  /** The step attaches a generation. */
  predicate Attaches(s: State, t: Step) {
    t.Advance? && t.p in s.procs && s.procs[t.p].InPut? && !s.closed
  }

  lemma InvIsSafe(s: State)
    requires HandleInv(s)
    ensures SafelyClosed(s)
  {
    forall p | p in s.procs && (s.procs[p].Added? || s.procs[p].Using?)
      ensures s.procs[p].gen in s.stores && s.stores[s.procs[p].gen].closes == 0
    {
      assert ProcInv(s.procs[p], s);
      assert s.procs[p].gen in s.stores && Accounted(s, s.procs[p].gen);
    }
    forall gen | gen in s.stores
      ensures s.stores[gen].closes <= 1 && s.stores[gen].users >= 0
    {
      assert Accounted(s, gen) && Counted(s, gen);
    }
  }

  lemma {:induction false} InvAlong(states: seq<State>, steps: seq<Step>)
    requires Run(states, steps) && Initial(states[0])
    ensures forall i :: 0 <= i < |states| ==> HandleInv(states[i])
    decreases |steps|
  {
    if |steps| > 0 {
      hide HandleInv, Enabled, Apply;
      var n := |steps| - 1;
      assert forall i :: 0 <= i < n ==> states[..n + 1][i] == states[i] && steps[..n][i] == steps[i];
      InvAlong(states[..n + 1], steps[..n]);
      assert states[..n + 1][n] == states[n];
      assert StepTo(states[n], steps[n], states[n + 1]);
      HandleKept(states[n], steps[n]);
    }
  }

  // In every run no generation is closed while an acquirer holds it, and none is closed twice.
  lemma {:induction false} ClosedSafely(states: seq<State>, steps: seq<Step>)
    requires Run(states, steps) && Initial(states[0])
    ensures forall s :: s in states ==> SafelyClosed(s)
  {
    InvAlong(states, steps);
    forall s | s in states
      ensures SafelyClosed(s)
    {
      InvIsSafe(s);
    }
  }

  // In every run no user is counted on a generation once anyone waits for its users.
  lemma {:induction false} NoAddAfterWait(states: seq<State>, steps: seq<Step>, i: nat)
    requires Run(states, steps) && Initial(states[0]) && i < |steps| && Adds(states[i], steps[i])
    ensures var gen := states[i].procs[steps[i].p].gen;
            gen in states[i].stores && !states[i].stores[gen].waited && states[i].stores[gen].closes == 0
  {
    InvAlong(states, steps);
    assert ProcInv(states[i].procs[steps[i].p], states[i]);
    assert Accounted(states[i], states[i].procs[steps[i].p].gen);
  }

  // Once an instance is closed it stays so: nothing is attached, acquired or counted again.
  lemma {:induction false} ClosedForGood(states: seq<State>, steps: seq<Step>, i: nat, j: nat)
    requires Run(states, steps) && Initial(states[0]) && i <= j < |states| && states[i].closed
    ensures states[j].closed && states[j].handle.None?
    ensures j < |steps| ==> !Adds(states[j], steps[j]) && !Attaches(states[j], steps[j])
    decreases j - i
  {
    InvAlong(states, steps);
    if i < j {
      assert StepTo(states[i], steps[i], states[i + 1]);
      HandleAfter(states[i], steps[i]);
      ClosedForGood(states, steps, i + 1, j);
    }
    hide Accounted, Counted, OneOwner, LockInv;
    assert forall p :: p in states[j].procs ==> ProcInv(states[j].procs[p], states[j]);
  }

  /** Nobody is at work: every goroutine has finished. */
  ghost predicate Quiet(s: State) {
    forall p :: p in s.procs ==> s.procs[p].Failed? || s.procs[p].Released? || s.procs[p].Done?
  }

  // When everybody has finished on a closed instance, every generation ever opened has been
  // closed exactly once, but for those attached over; so all of them were, if and only if no
  // attach found a generation in place.
  lemma {:induction false} AllClosedOnce(states: seq<State>, steps: seq<Step>)
    requires Run(states, steps) && Initial(states[0])
    requires var end := states[|steps|]; end.closed && Quiet(end)
    ensures var end := states[|steps|];
            && (forall gen :: gen in end.stores ==> (end.stores[gen].closes == 1 <==> gen !in end.lost))
            && (forall gen :: gen in end.stores ==> end.stores[gen].users == 0)
    ensures (forall gen :: gen in states[|steps|].stores ==> states[|steps|].stores[gen].closes == 1)
       <==> (forall i :: 0 <= i < |steps| && Attaches(states[i], steps[i]) ==> states[i].handle.None?)
  {
    InvAlong(states, steps);
    var end := states[|steps|];
    forall gen | gen in end.stores
      ensures (end.stores[gen].closes == 1 <==> gen !in end.lost) && end.stores[gen].users == 0
    {
      assert Accounted(end, gen) && Counted(end, gen);
      assert forall p :: p in end.procs ==> !Holds(end.procs[p], gen);
      assert Holders(end.procs, gen) == {};
      assert !HasOwner(end.procs, gen);
    }
    LostAlong(states, steps);
    assert end.lost <= end.stores.Keys;
    assert (forall gen :: gen in end.stores ==> end.stores[gen].closes == 1) <==> end.lost == {} by {
      if gen :| gen in end.lost { assert gen in end.stores; }
    }
  }

  // ---------- a store that is never closed ----------

  /** Taking the steps one after another leads from s to end. */
  ghost predicate Plays(s: State, steps: seq<Step>, end: State)
    decreases |steps|
  {
    if steps == [] then end == s
    else Enabled(s, steps[0]) && Plays(Apply(s, steps[0]), steps[1..], end)
  }

  lemma {:induction false} PlaysThen(s: State, first: seq<Step>, mid: State, next: seq<Step>, end: State)
    requires Plays(s, first, mid) && Plays(mid, next, end)
    ensures Plays(s, first + next, end)
    decreases |first|
  {
    if first == [] {
      assert first + next == next;
    } else {
      assert (first + next)[0] == first[0] && (first + next)[1..] == first[1..] + next;
      PlaysThen(Apply(s, first[0]), first[1..], mid, next, end);
    }
  }

  lemma {:induction false} PlaysIsRun(s: State, steps: seq<Step>, end: State) returns (states: seq<State>)
    requires Plays(s, steps, end)
    ensures Run(states, steps) && states[0] == s && states[|steps|] == end
    decreases |steps|
  {
    if steps == [] {
      states := [s];
    } else {
      hide Enabled, Apply;
      var rest := PlaysIsRun(Apply(s, steps[0]), steps[1..], end);
      states := [s] + rest;
      forall i | 0 <= i < |steps| ensures StepTo(states[i], steps[i], states[i + 1]) {
        if i > 0 { assert StepTo(rest[i - 1], steps[1..][i - 1], rest[i]); }
      }
    }
  }

  lemma {:induction false} ChainPlays(states: seq<State>, steps: seq<Step>)
    requires Run(states, steps)
    ensures Plays(states[0], steps, states[|steps|])
    decreases |steps|
  {
    if steps != [] {
      assert StepTo(states[0], steps[0], states[1]);
      hide Enabled, Apply;
      forall i | 0 <= i < |steps| - 1 ensures StepTo(states[1..][i], steps[1..][i], states[1..][i + 1]) {
        assert StepTo(states[i + 1], steps[i + 1], states[i + 2]);
      }
      ChainPlays(states[1..], steps[1..]);
    }
  }

  predicate Unlocked(s: State) {
    s.writer.None? && s.readers == {}
  }

  function PutSteps(p: Pid, gen: Gen): seq<Step> {
    [StartPut(p, gen), Advance(p), Advance(p), Advance(p)]
  }

  function AfterPut(s: State, p: Pid, gen: Gen): State {
    s.(stores := s.stores[gen := Store(0, false, 0)], handle := Some(gen), procs := s.procs[p := Done],
       lost := s.lost + if s.handle.Some? then {s.handle.value} else {})
  }

  // An attach that meets no one.
  lemma PutPlays(s: State, p: Pid, gen: Gen)
    requires p !in s.procs && gen !in s.stores && !s.closed && Unlocked(s)
    ensures Plays(s, PutSteps(p, gen), AfterPut(s, p, gen))
  {
    var s1 := Apply(s, StartPut(p, gen));
    var s2 := Apply(s1, Advance(p));
    var s3 := Apply(s2, Advance(p));
    var s4 := AfterPut(s, p, gen);
    assert StepTo(s, StartPut(p, gen), s1) && StepTo(s1, Advance(p), s2) && StepTo(s2, Advance(p), s3);
    assert s3.procs[p := Done] == s4.procs;
    assert StepTo(s3, Advance(p), s4);
    hide StepTo, Apply;
    ChainPlays([s, s1, s2, s3, s4], PutSteps(p, gen));
  }

  function TakeSteps(p: Pid, mark: bool, held: bool): seq<Step> {
    [StartTake(p, mark), Advance(p), Advance(p), Advance(p)] + if held then [Advance(p), Advance(p), Advance(p)] else []
  }

  function AfterTake(s: State, p: Pid, mark: bool): State {
    if s.handle.Some? && s.handle.value in s.stores then
      var gen := s.handle.value;
      s.(closed := s.closed || mark, handle := None, procs := s.procs[p := Done],
         stores := s.stores[gen := Store(s.stores[gen].users, true, s.stores[gen].closes + 1)])
    else
      s.(closed := s.closed || mark, handle := None, procs := s.procs[p := Done])
  }

  // A detach that finds nothing attached.
  lemma TakeNonePlays(s: State, p: Pid, mark: bool)
    requires p !in s.procs && Unlocked(s) && s.handle.None?
    ensures Plays(s, TakeSteps(p, mark, false), AfterTake(s, p, mark))
  {
    var s1 := Apply(s, StartTake(p, mark));
    var s2 := Apply(s1, Advance(p));
    var s3 := Apply(s2, Advance(p));
    var s4 := AfterTake(s, p, mark);
    assert StepTo(s, StartTake(p, mark), s1) && StepTo(s1, Advance(p), s2) && StepTo(s2, Advance(p), s3);
    assert s3.procs[p := Done] == s4.procs;
    assert StepTo(s3, Advance(p), s4);
    hide StepTo, Apply;
    ChainPlays([s, s1, s2, s3, s4], TakeSteps(p, mark, false));
  }

  /** A detacher of p's that has taken gen, at a stage. */
  function Taking(s: State, p: Pid, proc: Proc, locked: bool): State {
    s.(procs := s.procs[p := proc], writer := if locked then Some(p) else None)
  }

  lemma TakeDetaches(s: State, p: Pid, mark: bool)
    requires p !in s.procs && Unlocked(s) && s.handle.Some?
    ensures var off := s.(closed := s.closed || mark, handle := None);
      StepTo(s, StartTake(p, mark), Taking(s, p, WantTake(mark), false)) &&
      StepTo(Taking(s, p, WantTake(mark), false), Advance(p), Taking(s, p, InTake(mark), true)) &&
      StepTo(Taking(s, p, InTake(mark), true), Advance(p), Taking(off, p, Took(s.handle), true)) &&
      StepTo(Taking(off, p, Took(s.handle), true), Advance(p), Taking(off, p, Draining(s.handle.value), false))
  {
  }

  lemma TakeDrains(s: State, p: Pid, gen: Gen)
    requires Unlocked(s) && gen in s.stores && s.stores[gen].users == 0
    ensures var waited := s.(stores := s.stores[gen := s.stores[gen].(waited := true)]);
      StepTo(Taking(s, p, Draining(gen), false), Advance(p), Taking(waited, p, Waiting(gen), false)) &&
      StepTo(Taking(waited, p, Waiting(gen), false), Advance(p), Taking(waited, p, Drained(gen), false)) &&
      StepTo(Taking(waited, p, Drained(gen), false), Advance(p), Taking(waited, p, Done, false).(stores := Closed(waited, gen)))
  {
  }

  // A detach of a generation nobody uses, drained and closed.
  lemma TakePlays(s: State, p: Pid, mark: bool)
    requires p !in s.procs && Unlocked(s) && s.handle.Some? && s.handle.value in s.stores && s.stores[s.handle.value].users == 0
    ensures Plays(s, TakeSteps(p, mark, true), AfterTake(s, p, mark))
  {
    var gen := s.handle.value;
    var off := s.(closed := s.closed || mark, handle := None);
    var waited := off.(stores := off.stores[gen := off.stores[gen].(waited := true)]);
    TakeDetaches(s, p, mark);
    TakeDrains(off, p, gen);
    assert Closed(waited, gen) == AfterTake(s, p, mark).stores;
    hide StepTo, Apply, Taking;
    TakeChains(s, p, mark, off, waited, gen, AfterTake(s, p, mark));
  }

  lemma TakeChains(s: State, p: Pid, mark: bool, off: State, waited: State, gen: Gen, end: State)
    requires StepTo(s, StartTake(p, mark), Taking(s, p, WantTake(mark), false))
    requires StepTo(Taking(s, p, WantTake(mark), false), Advance(p), Taking(s, p, InTake(mark), true))
    requires StepTo(Taking(s, p, InTake(mark), true), Advance(p), Taking(off, p, Took(Some(gen)), true))
    requires StepTo(Taking(off, p, Took(Some(gen)), true), Advance(p), Taking(off, p, Draining(gen), false))
    requires StepTo(Taking(off, p, Draining(gen), false), Advance(p), Taking(waited, p, Waiting(gen), false))
    requires StepTo(Taking(waited, p, Waiting(gen), false), Advance(p), Taking(waited, p, Drained(gen), false))
    requires StepTo(Taking(waited, p, Drained(gen), false), Advance(p), end)
    ensures Plays(s, TakeSteps(p, mark, true), end)
  {
    hide StepTo, Apply, Taking;
    ChainPlays([s, Taking(s, p, WantTake(mark), false), Taking(s, p, InTake(mark), true), Taking(off, p, Took(Some(gen)), true),
                Taking(off, p, Draining(gen), false), Taking(waited, p, Waiting(gen), false),
                Taking(waited, p, Drained(gen), false), end],
               TakeSteps(p, mark, true));
  }

  /** Two file-backed swaps: the second finds nothing to detach, the first having drained and closed
      what it took, and only then does either attach. */
  function CrossedSwaps(p: Pid, gen: Gen): seq<Step> {
    TakeSteps(p, false, true) + (TakeSteps(p + 1, false, false) + (PutSteps(p + 2, gen) + PutSteps(p + 3, gen + 1)))
  }

  /** A generation attached to an open instance with nobody at work, and the next names free. */
  predicate Served(s: State, p: Pid, gen: Gen) {
    && Unlocked(s) && !s.closed && s.handle.Some? && s.handle.value in s.stores && s.stores[s.handle.value].users == 0
    && s.handle.value < gen && gen !in s.stores && gen + 1 !in s.stores
    && p !in s.procs && p + 1 !in s.procs && p + 2 !in s.procs && p + 3 !in s.procs
  }

  function AfterSwaps(s: State, p: Pid, gen: Gen): State {
    AfterPut(AfterPut(AfterTake(AfterTake(s, p, false), p + 1, false), p + 2, gen), p + 3, gen + 1)
  }

  lemma SwapsCross(s: State, p: Pid, gen: Gen)
    requires Served(s, p, gen)
    ensures Plays(s, CrossedSwaps(p, gen), AfterSwaps(s, p, gen))
  {
    var s1 := AfterTake(s, p, false);
    var s2 := AfterTake(s1, p + 1, false);
    var s3 := AfterPut(s2, p + 2, gen);
    var s4 := AfterPut(s3, p + 3, gen + 1);
    assert Plays(s, TakeSteps(p, false, true), s1) by { TakePlays(s, p, false); }
    assert Plays(s1, TakeSteps(p + 1, false, false), s2) by { TakeNonePlays(s1, p + 1, false); }
    assert Plays(s2, PutSteps(p + 2, gen), s3) by { PutPlays(s2, p + 2, gen); }
    assert Plays(s3, PutSteps(p + 3, gen + 1), s4) by { PutPlays(s3, p + 3, gen + 1); }
    hide Plays, AfterPut, AfterTake, PutSteps, TakeSteps;
    PlaysThen(s2, PutSteps(p + 2, gen), s3, PutSteps(p + 3, gen + 1), s4);
    PlaysThen(s1, TakeSteps(p + 1, false, false), s2, PutSteps(p + 2, gen) + PutSteps(p + 3, gen + 1), s4);
    PlaysThen(s, TakeSteps(p, false, true), s1, TakeSteps(p + 1, false, false) + (PutSteps(p + 2, gen) + PutSteps(p + 3, gen + 1)), s4);
  }

  // The one attached first is still open, no one owns it, and the other has taken its place.
  lemma SwapsDrop(s: State, p: Pid, gen: Gen)
    requires Served(s, p, gen)
    ensures var end := AfterSwaps(s, p, gen);
      && Unlocked(end) && !end.closed && end.handle == Some(gen + 1) && end.stores.Keys == s.stores.Keys + {gen, gen + 1}
      && end.stores[gen] == Store(0, false, 0) && end.stores[gen + 1] == Store(0, false, 0)
      && end.procs == s.procs[p := Done][p + 1 := Done][p + 2 := Done][p + 3 := Done]
  {
  }

  // From a new instance: two file-backed swaps whose detaches both come before their attaches leave, once
  // the instance is closed and everyone has finished, a generation that no one has closed or will.
  lemma SwapsLeak() returns (states: seq<State>)
    ensures Run(states, FileLeak()) && Initial(states[0]) && Leaky(states[|FileLeak()|])
  {
    hide Plays, FileLeak, Leaky;
    var end := FileLeakPlays();
    states := PlaysIsRun(State(false, None, map[], {}, None, map[], {}), FileLeak(), end);
  }

  function FileLeak(): seq<Step> {
    PutSteps(0, 0) + (CrossedSwaps(1, 1) + TakeSteps(5, true, true))
  }

  lemma FileLeakPlays() returns (end: State)
    ensures Plays(State(false, None, map[], {}, None, map[], {}), FileLeak(), end) && Leaky(end)
  {
    var s0 := State(false, None, map[], {}, None, map[], {});
    var s1 := AfterPut(s0, 0, 0);
    hide AfterSwaps, Plays, AfterPut, AfterTake, PutSteps, TakeSteps, CrossedSwaps, Quiet, Served;
    FirstServed();
    SwapsDrop(s1, 1, 1);
    SwapsCross(s1, 1, 1);
    var s2 := AfterSwaps(s1, 1, 1);
    CloseLeaves(s2);
    end := AfterTake(s2, 5, true);
    PlaysThen(s1, CrossedSwaps(1, 1), s2, TakeSteps(5, true, true), end);
    PlaysThen(s0, PutSteps(0, 0), s1, CrossedSwaps(1, 1) + TakeSteps(5, true, true), end);
  }

  /** Two in-memory swaps: each opens its store, detaches, attaches and then drains what it took; the
      second detaches, finding nothing, before the first attaches. */
  function MemorySwaps(p: Pid, gen: Gen): seq<Step> {
    OpenSteps(p, gen) + (DetachSteps(p) + (TakeSteps(p + 1, false, false)
    + (ThreeSteps(p + 2) + (ThreeSteps(p + 3) + ThreeSteps(p)))))
  }

  function OpenSteps(p: Pid, gen: Gen): seq<Step> {
    [StartPut(p + 2, gen), StartPut(p + 3, gen + 1)]
  }

  function DetachSteps(p: Pid): seq<Step> {
    [StartTake(p, false), Advance(p), Advance(p), Advance(p)]
  }

  function ThreeSteps(p: Pid): seq<Step> {
    [Advance(p), Advance(p), Advance(p)]
  }

  function Opened(s: State, p: Pid, gen: Gen): State {
    s.(stores := s.stores[gen := Store(0, false, 0)][gen + 1 := Store(0, false, 0)],
       procs := s.procs[p + 2 := WantPut(gen)][p + 3 := WantPut(gen + 1)])
  }

  lemma OpenPlays(s: State, p: Pid, gen: Gen)
    requires Served(s, p, gen)
    ensures Plays(s, OpenSteps(p, gen), Opened(s, p, gen))
  {
    var s1, s2 := Apply(s, StartPut(p + 2, gen)), Opened(s, p, gen);
    assert StepTo(s, StartPut(p + 2, gen), s1) && StepTo(s1, StartPut(p + 3, gen + 1), s2);
    hide StepTo, Apply;
    ChainPlays([s, s1, s2], OpenSteps(p, gen));
  }

  lemma DetachPlays(s: State, p: Pid)
    requires p !in s.procs && Unlocked(s) && s.handle.Some?
    ensures Plays(s, DetachSteps(p), s.(handle := None, procs := s.procs[p := Draining(s.handle.value)]))
  {
    var off := s.(handle := None);
    TakeDetaches(s, p, false);
    assert s.(closed := s.closed || false, handle := None) == off;
    assert Taking(off, p, Draining(s.handle.value), false) == s.(handle := None, procs := s.procs[p := Draining(s.handle.value)]);
    hide StepTo, Apply;
    ChainPlays([s, Taking(s, p, WantTake(false), false), Taking(s, p, InTake(false), true), Taking(off, p, Took(s.handle), true),
                Taking(off, p, Draining(s.handle.value), false)], DetachSteps(p));
  }

  function Attached(s: State, p: Pid, gen: Gen): State {
    s.(handle := Some(gen), procs := s.procs[p := Done], lost := s.lost + if s.handle.Some? then {s.handle.value} else {})
  }

  lemma AttachPlays(s: State, p: Pid, gen: Gen)
    requires p in s.procs && s.procs[p] == WantPut(gen) && !s.closed && Unlocked(s)
    ensures Plays(s, ThreeSteps(p), Attached(s, p, gen))
  {
    var s1 := Apply(s, Advance(p));
    var s2 := Apply(s1, Advance(p));
    var s3 := Attached(s, p, gen);
    assert StepTo(s, Advance(p), s1) && StepTo(s1, Advance(p), s2);
    assert s2.procs[p := Done] == s3.procs;
    assert StepTo(s2, Advance(p), s3);
    hide StepTo, Apply;
    ChainPlays([s, s1, s2, s3], ThreeSteps(p));
  }

  function DrainedBy(s: State, p: Pid, gen: Gen): State
    requires gen in s.stores
  {
    s.(procs := s.procs[p := Done], stores := s.stores[gen := Store(s.stores[gen].users, true, s.stores[gen].closes + 1)])
  }

  lemma DrainPlays(s: State, p: Pid, gen: Gen)
    requires p in s.procs && s.procs[p] == Draining(gen) && Unlocked(s) && gen in s.stores && s.stores[gen].users == 0
    ensures Plays(s, ThreeSteps(p), DrainedBy(s, p, gen))
  {
    var waited := s.(stores := s.stores[gen := s.stores[gen].(waited := true)]);
    TakeDrains(s, p, gen);
    assert Taking(s, p, Draining(gen), false) == s;
    assert Taking(waited, p, Done, false).(stores := Closed(waited, gen)) == DrainedBy(s, p, gen);
    hide StepTo, Apply;
    ChainPlays([s, Taking(waited, p, Waiting(gen), false), Taking(waited, p, Drained(gen), false), DrainedBy(s, p, gen)], ThreeSteps(p));
  }

  function AfterMemorySwaps(s: State, p: Pid, gen: Gen): State
    requires Served(s, p, gen)
  {
    var held := s.handle.value;
    var ready := Opened(s, p, gen);
    var off := ready.(handle := None, procs := ready.procs[p := Draining(held)]);
    DrainedBy(Attached(Attached(AfterTake(off, p + 1, false), p + 2, gen), p + 3, gen + 1), p, held)
  }

  lemma MemorySwapsCross(s: State, p: Pid, gen: Gen)
    requires Served(s, p, gen)
    ensures Plays(s, MemorySwaps(p, gen), AfterMemorySwaps(s, p, gen))
  {
    var held := s.handle.value;
    var s1 := Opened(s, p, gen);
    var s2 := s1.(handle := None, procs := s1.procs[p := Draining(held)]);
    var s3 := AfterTake(s2, p + 1, false);
    var s4 := Attached(s3, p + 2, gen);
    var s5 := Attached(s4, p + 3, gen + 1);
    var s6 := DrainedBy(s5, p, held);
    assert Plays(s, OpenSteps(p, gen), s1) by { OpenPlays(s, p, gen); }
    assert Plays(s1, DetachSteps(p), s2) by { DetachPlays(s1, p); }
    assert Plays(s2, TakeSteps(p + 1, false, false), s3) by { TakeNonePlays(s2, p + 1, false); }
    assert Plays(s3, ThreeSteps(p + 2), s4) by { AttachPlays(s3, p + 2, gen); }
    assert Plays(s4, ThreeSteps(p + 3), s5) by { AttachPlays(s4, p + 3, gen + 1); }
    assert Plays(s5, ThreeSteps(p), s6) by { DrainPlays(s5, p, held); }
    hide Plays, Opened, Attached, AfterTake, DrainedBy, OpenSteps, DetachSteps, TakeSteps, ThreeSteps;
    PlaysThen(s4, ThreeSteps(p + 3), s5, ThreeSteps(p), s6);
    PlaysThen(s3, ThreeSteps(p + 2), s4, ThreeSteps(p + 3) + ThreeSteps(p), s6);
    PlaysThen(s2, TakeSteps(p + 1, false, false), s3, ThreeSteps(p + 2) + (ThreeSteps(p + 3) + ThreeSteps(p)), s6);
    PlaysThen(s1, DetachSteps(p), s2, TakeSteps(p + 1, false, false) + (ThreeSteps(p + 2) + (ThreeSteps(p + 3) + ThreeSteps(p))), s6);
    PlaysThen(s, OpenSteps(p, gen), s1,
      DetachSteps(p) + (TakeSteps(p + 1, false, false) + (ThreeSteps(p + 2) + (ThreeSteps(p + 3) + ThreeSteps(p)))), s6);
  }

  lemma MemorySwapsDrop(s: State, p: Pid, gen: Gen)
    requires Served(s, p, gen)
    ensures var end := AfterMemorySwaps(s, p, gen);
      && Unlocked(end) && !end.closed && end.handle == Some(gen + 1) && end.stores.Keys == s.stores.Keys + {gen, gen + 1}
      && end.stores[gen] == Store(0, false, 0) && end.stores[gen + 1] == Store(0, false, 0)
      && end.procs.Keys == s.procs.Keys + {p, p + 1, p + 2, p + 3}
      && (forall q :: q in end.procs ==> end.procs[q] == if q in s.procs then s.procs[q] else Done)
  {
  }

  /** Closed, everyone finished, and a generation never closed. */
  ghost predicate Leaky(end: State) {
    end.closed && Quiet(end) && 1 in end.stores && end.stores[1] == Store(0, false, 0)
  }

  function MemoryLeak(): seq<Step> {
    PutSteps(0, 0) + (MemorySwaps(1, 1) + TakeSteps(5, true, true))
  }

  lemma MemoryLeakPlays() returns (end: State)
    ensures Plays(State(false, None, map[], {}, None, map[], {}), MemoryLeak(), end) && Leaky(end)
  {
    var s0 := State(false, None, map[], {}, None, map[], {});
    var s1 := AfterPut(s0, 0, 0);
    hide Plays, AfterPut, AfterTake, PutSteps, TakeSteps, MemorySwaps, Quiet, Served;
    FirstServed();
    var s2 := MemorySwapped(s1);
    end := AfterTake(s2, 5, true);
    PlaysThen(s1, MemorySwaps(1, 1), s2, TakeSteps(5, true, true), end);
    PlaysThen(s0, PutSteps(0, 0), s1, MemorySwaps(1, 1) + TakeSteps(5, true, true), end);
  }

  lemma MemorySwapped(s1: State) returns (s2: State)
    requires Served(s1, 1, 1) && s1.stores.Keys == {0} && s1.procs == map[0 := Done]
    ensures Plays(s1, MemorySwaps(1, 1), s2) && Plays(s2, TakeSteps(5, true, true), AfterTake(s2, 5, true))
    ensures Leaky(AfterTake(s2, 5, true))
  {
    hide AfterMemorySwaps, Plays, AfterTake, TakeSteps, MemorySwaps, Quiet, Served;
    s2 := AfterMemorySwaps(s1, 1, 1);
    MemorySwapsCross(s1, 1, 1);
    MemorySwapsDrop(s1, 1, 1);
    CloseLeaves(s2);
  }

  // The same of two in-memory swaps.
  lemma MemorySwapsLeak() returns (states: seq<State>)
    ensures Run(states, MemoryLeak()) && Initial(states[0]) && Leaky(states[|MemoryLeak()|])
  {
    hide Plays, MemoryLeak, Leaky;
    var end := MemoryLeakPlays();
    states := PlaysIsRun(State(false, None, map[], {}, None, map[], {}), MemoryLeak(), end);
  }

  lemma FirstServed()
    ensures var s0 := State(false, None, map[], {}, None, map[], {}); var s1 := AfterPut(s0, 0, 0);
      Plays(s0, PutSteps(0, 0), s1) && Served(s1, 1, 1) && s1.stores.Keys == {0} && s1.procs == map[0 := Done]
  {
    var s0 := State(false, None, map[], {}, None, map[], {});
    assert Plays(s0, PutSteps(0, 0), AfterPut(s0, 0, 0)) by { PutPlays(s0, 0, 0); }
    hide Plays;
  }

  lemma CloseLeaves(s: State)
    requires Unlocked(s) && s.handle == Some(2) && 2 in s.stores && s.stores[2].users == 0 && 1 in s.stores && 5 !in s.procs
    requires forall p :: p in s.procs ==> s.procs[p] == Done
    ensures Plays(s, TakeSteps(5, true, true), AfterTake(s, 5, true))
    ensures var end := AfterTake(s, 5, true); end.closed && Quiet(end) && 1 in end.stores && end.stores[1] == s.stores[1]
  {
    TakePlays(s, 5, true);
    hide Plays;
  }

  lemma {:induction false} LostAlong(states: seq<State>, steps: seq<Step>)
    requires Run(states, steps) && Initial(states[0])
    ensures states[|steps|].lost == {}
       <==> forall i :: 0 <= i < |steps| && Attaches(states[i], steps[i]) ==> states[i].handle.None?
    decreases |steps|
  {
    if |steps| > 0 {
      var n := |steps| - 1;
      assert forall i :: 0 <= i < n ==> states[..n + 1][i] == states[i] && steps[..n][i] == steps[i];
      LostAlong(states[..n + 1], steps[..n]);
      assert states[..n + 1][n] == states[n];
      assert StepTo(states[n], steps[n], states[n + 1]);
      HandleAfter(states[n], steps[n]);
      hide Apply;
    }
  }

  // ---------- the instance ----------

  datatype Error = RepoClosed | StoreUnavailable
  datatype Acquired = Ok(lease: Lease) | Err(error: Error)

  /** The release an Acquire returns: whether it has been called. */
  class Lease {
    const gen: Gen
    var released: bool

    constructor (gen: Gen)
      ensures this.gen == gen && !released
    {
      this.gen := gen;
      released := false;
    }
  }

  function StoresAfterAcquire(closed: bool, handle: Option<Gen>, stores: map<Gen, Store>): map<Gen, Store>
    requires handle.Some? ==> handle.value in stores
  {
    if closed || handle.None? then stores
    else stores[handle.value := stores[handle.value].(users := stores[handle.value].users + 1)]
  }

  class Instance {
    var closed: bool
    var handle: Option<Gen>
    var stores: map<Gen, Store>

    ghost predicate Valid()
      reads this
    {
      handle.Some? ==> handle.value in stores
    }

    constructor ()
      ensures Valid() && !closed && handle == None && stores == map[]
    {
      closed, handle, stores := false, None, map[];
    }

    method Acquire() returns (r: Acquired)
      requires Valid()
      modifies this`stores
      ensures Valid()
      ensures stores == StoresAfterAcquire(closed, handle, old(stores))
      ensures r.Err? <==> closed || handle.None?
      ensures r.Err? ==> r.error == if closed then RepoClosed else StoreUnavailable
      ensures r.Ok? ==> fresh(r.lease) && r.lease.gen == handle.value && !r.lease.released
    {
      if closed { return Err(RepoClosed); }
      if handle.None? { return Err(StoreUnavailable); }
      var gen := handle.value;
      stores := stores[gen := stores[gen].(users := stores[gen].users + 1)];
      var lease := new Lease(gen);
      r := Ok(lease);
    }

    // Counts its user off the first time it is called, and never again.
    method Release(lease: Lease)
      requires Valid() && lease.gen in stores
      modifies this`stores, lease
      ensures Valid() && lease.released
      ensures stores == if old(lease.released) then old(stores)
                        else old(stores)[lease.gen := old(stores)[lease.gen].(users := old(stores)[lease.gen].users - 1)]
    {
      if !lease.released {
        lease.released := true;
        stores := stores[lease.gen := stores[lease.gen].(users := stores[lease.gen].users - 1)];
      }
    }

    method DetachStore(markClosed: bool) returns (h: Option<Gen>)
      requires Valid()
      modifies this`closed, this`handle
      ensures Valid() && h == old(handle) && handle == None && closed == (old(closed) || markClosed)
    {
      if markClosed { closed := true; }
      h := handle;
      handle := None;
    }

    method AttachStore(gen: Gen) returns (ok: bool)
      requires Valid() && gen in stores
      modifies this`handle
      ensures Valid() && ok == !closed && handle == if closed then old(handle) else Some(gen)
    {
      if closed { return false; }
      handle := Some(gen);
      ok := true;
    }
  }

  /** What one goroutine's next steps lead to when nobody else takes one. */
  function Advances(s: State, p: Pid, n: nat): Option<State>
    decreases n
  {
    if n == 0 then Some(s)
    else if !Enabled(s, Advance(p)) then None
    else Advances(Apply(s, Advance(p)), p, n - 1)
  }

  // The steps of an acquire, taken under the read lock with any number of other readers, come to
  // the method's outcome.
  lemma AcquireSection(s: State, p: Pid)
    requires HandleInv(s) && p in s.procs && s.procs[p].WantRead? && s.writer.None?
    ensures var end := Advances(s, p, if s.closed || s.handle.None? then 3 else 4);
            && end.Some?
            && end.value.stores == StoresAfterAcquire(s.closed, s.handle, s.stores)
            && end.value.handle == s.handle && end.value.closed == s.closed && end.value.readers == s.readers
            && end.value.procs == s.procs[p := if s.closed || s.handle.None? then Failed else Using(s.handle.value)]
  {
    var s1 := Apply(s, Advance(p));
    var s2 := Apply(s1, Advance(p));
    var s3 := Apply(s2, Advance(p));
    assert p !in s.readers && s.readers + {p} - {p} == s.readers;
    if s.closed || s.handle.None? {
      assert Advances(s2, p, 1) == Some(s3);
      assert Advances(s1, p, 2) == Some(s3);
    } else {
      var s4 := Apply(s3, Advance(p));
      assert Advances(s3, p, 1) == Some(s4);
      assert Advances(s2, p, 2) == Some(s4);
      assert Advances(s1, p, 3) == Some(s4);
    }
  }

  // So do the steps of a detach and of an attach, taken under the write lock.
  lemma DetachSection(s: State, p: Pid)
    requires HandleInv(s) && p in s.procs && s.procs[p].WantTake? && s.writer.None? && s.readers == {}
    ensures Advances(s, p, 3) == Some(s.(handle := None, closed := s.closed || s.procs[p].mark,
                procs := s.procs[p := if s.handle.Some? then Draining(s.handle.value) else Done]))
  {
    var s1 := Apply(s, Advance(p));
    var s2 := Apply(s1, Advance(p));
    var s3 := Apply(s2, Advance(p));
    assert s3.procs == s.procs[p := s3.procs[p]];
    assert Advances(s2, p, 1) == Some(s3);
    assert Advances(s1, p, 2) == Some(s3);
  }

  lemma AttachSection(s: State, p: Pid)
    requires HandleInv(s) && p in s.procs && s.procs[p].WantPut? && s.writer.None? && s.readers == {} && s.handle.None?
    ensures var gen := s.procs[p].gen;
            Advances(s, p, 3) == Some(s.(handle := if s.closed then None else Some(gen),
                procs := s.procs[p := if s.closed then Orphan(gen) else Done]))
  {
    var s1 := Apply(s, Advance(p));
    var s2 := Apply(s1, Advance(p));
    var s3 := Apply(s2, Advance(p));
    assert s3.lost == s.lost;
    assert s3.procs == s.procs[p := s3.procs[p]];
    assert Advances(s2, p, 1) == Some(s3);
    assert Advances(s1, p, 2) == Some(s3);
  }
}
