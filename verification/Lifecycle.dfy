/**
 Names of repos and lenses under concurrent lifecycle calls (internal/repos/lifecycle.go).

 A repo's name lives in its registry row, in the live map and in the live instance; names
 being introduced are held in a reservation set, and lenses share the namespace. Calls are
 split at every lock and SQL boundary, and the steps of any number of calls interleave.
*/
module Lifecycle {
  import opened Wrappers

  type Name = string
  type Uid = string
  type CallId = int

  /** A row of the repos table. Names are unique among active rows only. */
  datatype Row = Row(name: Name, active: bool)

  /** A live instance; a restored repo gets a new one under its old uid. */
  datatype Inst = Inst(id: nat, uid: Uid)

  /** How far a call has come. */
  datatype Pc =
    | Got         // looked up what it works on
    | Reserved    // holds its target name
    | Checked     // saw no live repo of that name
    | Cleared     // saw no lens of that name
    | Renamed     // Restore: the archived row carries the target name
    | Written     // the registry row says so, the live map does not yet
    | Reverting   // Rename: lost the live map, row to be put back
    | BackingOut  // Restore: row archived again, name to be put back
    | Locked      // holds the manager's lock
    | Ending      // only the reservation is left to release

  datatype Call =
    | Rename(inst: Inst, from: Name, to: Name, pc: Pc)
    | Create(uid: Uid, to: Name, pc: Pc)
    | Restore(uid: Uid, found: Name, to: Name, pc: Pc)
    | Archive(inst: Inst, name: Name, pc: Pc)
    | LensPut(prior: Option<Name>, to: Name, pc: Pc)

  datatype State = State(
    rows: map<Uid, Row>,
    repos: map<Name, Inst>,
    shown: map<Inst, Name>,   // the name each instance answers to
    lenses: set<Name>,
    reserved: set<Name>,
    lock: Option<CallId>,
    calls: map<CallId, Call>,
    nextId: nat)

  // ---------- the registry's statements ----------

  /** Another active row than uid's holds the name: the unique index would refuse it. */
  predicate Taken(rows: map<Uid, Row>, uid: Uid, name: Name) {
    exists u :: u in rows && u != uid && rows[u].active && rows[u].name == name
  }

  /** RenameIfNamed: set uid's name to `to` only while it is `from`. */
  function CasName(rows: map<Uid, Row>, uid: Uid, from: Name, to: Name): (r: (map<Uid, Row>, bool)) {
    if uid in rows && rows[uid].name == from && !(rows[uid].active && Taken(rows, uid, to))
    then (rows[uid := rows[uid].(name := to)], true)
    else (rows, false)
  }

  /** Rename: unconditional. */
  function SetName(rows: map<Uid, Row>, uid: Uid, to: Name): (r: (map<Uid, Row>, bool)) {
    if uid in rows && !(rows[uid].active && Taken(rows, uid, to))
    then (rows[uid := rows[uid].(name := to)], true)
    else (rows, false)
  }

  function SetState(rows: map<Uid, Row>, uid: Uid, active: bool): (r: (map<Uid, Row>, bool)) {
    if uid in rows && !(active && Taken(rows, uid, rows[uid].name))
    then (rows[uid := rows[uid].(active := active)], true)
    else (rows, false)
  }

  function Insert(rows: map<Uid, Row>, uid: Uid, name: Name): (r: (map<Uid, Row>, bool)) {
    if uid !in rows && !Taken(rows, uid, name) then (rows[uid := Row(name, true)], true) else (rows, false)
  }

  // ---------- steps ----------

  datatype Step =
    | StartRename(c: CallId, from: Name, to: Name)
    | StartCreate(c: CallId, uid: Uid, to: Name)
    | StartRestore(c: CallId, uid: Uid, newName: Option<Name>)
    | StartArchive(c: CallId, name: Name)
    | StartLens(c: CallId, prior: Option<Name>, to: Name)
    | Reserve(c: CallId)
    | CheckFree(c: CallId)
    | CheckLens(c: CallId)
    | Write(c: CallId)
    | Activate(c: CallId)
    | Land(c: CallId)
    | GiveUp(c: CallId)
    | Undo(c: CallId)
    | Flip(c: CallId)
    | Drop(c: CallId)
    | LensLock(c: CallId)
    | LensCheck(c: CallId)
    | LensWrite(c: CallId)
    | Release(c: CallId)
    | DeleteLens(name: Name)

  predicate At(s: State, c: CallId, pc: Pc) {
    c in s.calls && s.calls[c].pc == pc
  }

  /** Calls that introduce a name, and so reserve it. */
  predicate HasTarget(call: Call) {
    !call.Archive?
  }

  /** Calls that bring a name to the live map. */
  predicate NamesRepo(call: Call) {
    call.Rename? || call.Create? || call.Restore?
  }

  predicate Enabled(s: State, t: Step) {
    match t
    case StartRename(c, from, to) => c !in s.calls && s.lock.None? && from in s.repos && from != to
    case StartCreate(c, uid, to) => c !in s.calls && uid !in s.rows && NewUid(s, uid)
    case StartRestore(c, uid, _) => c !in s.calls && uid in s.rows && !s.rows[uid].active
    case StartArchive(c, name) => c !in s.calls && s.lock.None? && name in s.repos
    case StartLens(c, _, _) => c !in s.calls
    case Reserve(c) => At(s, c, Got) && HasTarget(s.calls[c])
    case CheckFree(c) => At(s, c, Reserved) && NamesRepo(s.calls[c]) && s.lock.None?
    case CheckLens(c) => At(s, c, Checked) && NamesRepo(s.calls[c])
    case Write(c) => At(s, c, Cleared) && NamesRepo(s.calls[c])
    case Activate(c) => At(s, c, Renamed) && s.calls[c].Restore?
    case Land(c) => At(s, c, Written) && NamesRepo(s.calls[c]) && s.lock.None?
    case GiveUp(c) =>
      c in s.calls && match s.calls[c] {
        case Rename(_, _, _, pc) => pc in {Reserved, Checked, Cleared}
        case Create(_, _, pc) => pc in {Reserved, Checked, Cleared, Written}
        case Restore(_, _, _, pc) => pc in {Reserved, Checked, Cleared, Written}
        case Archive(_, _, pc) => pc == Locked
        case LensPut(_, _, pc) => pc in {Reserved, Locked, Checked}
      }
    case Undo(c) => (At(s, c, Reverting) && s.calls[c].Rename?) || (At(s, c, BackingOut) && s.calls[c].Restore?)
    case Flip(c) => At(s, c, Locked) && s.calls[c].Archive?
    case Drop(c) => At(s, c, Written) && s.calls[c].Archive?
    case LensLock(c) => At(s, c, Reserved) && s.calls[c].LensPut? && s.lock.None?
    case LensCheck(c) => At(s, c, Locked) && s.calls[c].LensPut?
    case LensWrite(c) => At(s, c, Checked) && s.calls[c].LensPut?
    case Release(c) => At(s, c, Ending) && HasTarget(s.calls[c])
    case DeleteLens(name) => true
  }

  /** ksuids are minted, so never one in use. */
  predicate NewUid(s: State, uid: Uid) {
    forall c :: c in s.calls ==> s.calls[c].Create? ==> s.calls[c].uid != uid
  }

  function Goto(s: State, c: CallId, pc: Pc): State
    requires c in s.calls
  {
    s.(calls := s.calls[c := s.calls[c].(pc := pc)])
  }

  function Without<K, V>(m: map<K, V>, k: K): map<K, V> {
    m - {k}
  }

  function Apply(s: State, t: Step): State
    requires Enabled(s, t)
  {
    match t
    case StartRename(c, from, to) => s.(calls := s.calls[c := Rename(s.repos[from], from, to, Got)])
    case StartCreate(c, uid, to) => s.(calls := s.calls[c := Create(uid, to, Got)])
    case StartRestore(c, uid, newName) =>
      var found := s.rows[uid].name;
      s.(calls := s.calls[c := Restore(uid, found, if newName.Some? then newName.value else found, Got)])
    case StartArchive(c, name) =>
      s.(calls := s.calls[c := Archive(s.repos[name], name, Locked)], lock := Some(c))
    case StartLens(c, prior, to) => s.(calls := s.calls[c := LensPut(prior, to, Got)])
    case Reserve(c) =>
      var to := s.calls[c].to;
      if to in s.reserved then s.(calls := Without(s.calls, c))
      else Goto(s, c, Reserved).(reserved := s.reserved + {to})
    case CheckFree(c) => Goto(s, c, if s.calls[c].to in s.repos then Ending else Checked)
    case CheckLens(c) => Goto(s, c, if s.calls[c].to in s.lenses then Ending else Cleared)
    case Write(c) => ApplyWrite(s, c)
    case Activate(c) =>
      var (rows, ok) := SetState(s.rows, s.calls[c].uid, true);
      Goto(s, c, if ok then Written else BackingOut).(rows := rows)
    case Land(c) => ApplyLand(s, c)
    case GiveUp(c) => ApplyGiveUp(s, c)
    case Undo(c) => ApplyUndo(s, c)
    case Flip(c) =>
      var (rows, ok) := SetState(s.rows, s.calls[c].inst.uid, false);
      if ok then Goto(s, c, Written).(rows := rows)
      else s.(calls := Without(s.calls, c), lock := None)
    case Drop(c) =>
      s.(repos := Without(s.repos, s.calls[c].name), lock := None, calls := Without(s.calls, c))
    case LensLock(c) => Goto(s, c, Locked).(lock := Some(c))
    case LensCheck(c) =>
      if s.calls[c].to in s.repos then Goto(s, c, Ending).(lock := None) else Goto(s, c, Checked)
    case LensWrite(c) =>
      var call := s.calls[c];
      if call.to in s.lenses || (call.prior.Some? && call.prior.value !in s.lenses)
      then Goto(s, c, Ending).(lock := None)
      else
        var kept := if call.prior.Some? then s.lenses - {call.prior.value} else s.lenses;
        Goto(s, c, Ending).(lock := None, lenses := kept + {call.to})
    case Release(c) => s.(reserved := s.reserved - {s.calls[c].to}, calls := Without(s.calls, c))
    case DeleteLens(name) => s.(lenses := s.lenses - {name})
  }

  function ApplyWrite(s: State, c: CallId): State
    requires Enabled(s, Write(c))
  {
    match s.calls[c]
    case Rename(inst, from, to, _) =>
      var (rows, ok) := CasName(s.rows, inst.uid, from, to);
      Goto(s, c, if ok then Written else Ending).(rows := rows)
    case Create(uid, to, _) =>
      var (rows, ok) := Insert(s.rows, uid, to);
      Goto(s, c, if ok then Written else Ending).(rows := rows)
    case Restore(uid, found, to, _) =>
      if to == found then Goto(s, c, Renamed)
      else
        var (rows, ok) := SetName(s.rows, uid, to);
        Goto(s, c, if ok then Renamed else Ending).(rows := rows)
    case _ => s
  }

  /** The section under the manager's write lock that publishes a name. */
  function ApplyLand(s: State, c: CallId): State
    requires Enabled(s, Land(c))
  {
    match s.calls[c]
    case Rename(inst, from, to, _) =>
      if from in s.repos && s.repos[from] == inst && to !in s.repos
      then Goto(s, c, Ending).(repos := Without(s.repos, from)[to := inst], shown := s.shown[inst := to])
      else Goto(s, c, Reverting)
    case Create(uid, to, _) => Add(s, c, uid, to)
    case Restore(uid, _, to, _) => Add(s, c, uid, to)
    case _ => s
  }

  function Add(s: State, c: CallId, uid: Uid, to: Name): State
    requires c in s.calls
  {
    var inst := Inst(s.nextId, uid);
    Goto(s, c, Ending).(repos := s.repos[to := inst], shown := s.shown[inst := to], nextId := s.nextId + 1)
  }

  function ApplyGiveUp(s: State, c: CallId): State
    requires Enabled(s, GiveUp(c))
  {
    match s.calls[c]
    case Create(uid, _, Written) => Goto(s, c, Ending).(rows := Without(s.rows, uid))
    case Restore(uid, _, _, Written) => Goto(s, c, BackingOut).(rows := SetState(s.rows, uid, false).0)
    case Archive(_, _, _) => s.(calls := Without(s.calls, c), lock := None)
    case LensPut(_, _, pc) =>
      Goto(s, c, Ending).(lock := if pc == Reserved then s.lock else None)
    case _ => Goto(s, c, Ending)
  }

  function ApplyUndo(s: State, c: CallId): State
    requires Enabled(s, Undo(c))
  {
    match s.calls[c]
    case Rename(inst, from, to, _) => Goto(s, c, Ending).(rows := CasName(s.rows, inst.uid, to, from).0)
    case Restore(uid, found, to, _) =>
      Goto(s, c, Ending).(rows := if to == found then s.rows else SetName(s.rows, uid, found).0)
    case _ => s
  }

  ghost predicate StepTo(s: State, t: Step, s': State) {
    Enabled(s, t) && s' == Apply(s, t)
  }

  /** A run: any number of calls, their steps in any order. */
  ghost predicate Run(states: seq<State>, steps: seq<Step>) {
    && |states| == |steps| + 1
    && forall i :: 0 <= i < |steps| ==> StepTo(states[i], steps[i], states[i + 1])
  }

  // ---------- reservations and the lock ----------

  /** The names held reserved, by call. */
  ghost function Held(calls: map<CallId, Call>): map<CallId, Name> {
    map c | c in calls && HasTarget(calls[c]) && calls[c].pc != Got :: calls[c].to
  }

  ghost predicate OneHolder(held: map<CallId, Name>, reserved: set<Name>) {
    && (forall c :: c in held ==> held[c] in reserved)
    && (forall c, d :: c in held && d in held && held[c] == held[d] ==> c == d)
  }

  ghost predicate Reservations(s: State) {
    OneHolder(Held(s.calls), s.reserved)
  }

  ghost predicate LockHeld(s: State) {
    forall c :: c in s.calls && NeedsLock(s.calls[c]) ==> s.lock == Some(c)
  }

  predicate NeedsLock(call: Call) {
    call.Archive? || (call.LensPut? && call.pc in {Locked, Checked})
  }

  /** The call a step belongs to. */
  function Actor(t: Step): Option<CallId> {
    match t
    case DeleteLens(_) => None
    case _ => Some(t.c)
  }

  lemma OthersUntouched(s: State, t: Step, d: CallId)
    requires Enabled(s, t) && Actor(t) != Some(d)
    ensures d in Apply(s, t).calls <==> d in s.calls
    ensures d in s.calls ==> Apply(s, t).calls[d] == s.calls[d]
  {
    match t
    case Write(c) => assert forall e :: e != c ==> (e in ApplyWrite(s, c).calls <==> e in s.calls);
    case Land(c) => assert forall e :: e != c ==> (e in ApplyLand(s, c).calls <==> e in s.calls);
    case GiveUp(c) => assert forall e :: e != c ==> (e in ApplyGiveUp(s, c).calls <==> e in s.calls);
    case Undo(c) => assert forall e :: e != c ==> (e in ApplyUndo(s, c).calls <==> e in s.calls);
    case _ =>
  }

  /** The step adds a call. */
  predicate Starts(t: Step) {
    t.StartRename? || t.StartCreate? || t.StartRestore? || t.StartArchive? || t.StartLens?
  }

  /** A call's own step moves it along and changes nothing else about it. */
  predicate Moved(was: Call, now: Call) {
    match was
    case Rename(inst, from, to, _) => now.Rename? && now.inst == inst && now.from == from && now.to == to
    case Create(uid, to, _) => now.Create? && now.uid == uid && now.to == to
    case Restore(uid, found, to, _) => now.Restore? && now.uid == uid && now.found == found && now.to == to
    case Archive(inst, name, _) => now.Archive? && now.inst == inst && now.name == name
    case LensPut(prior, to, _) => now.LensPut? && now.prior == prior && now.to == to
  }

  ghost predicate OwnMoved(t: Step, was: Call, calls: map<CallId, Call>)
    requires !t.DeleteLens?
  {
    && (t.c !in calls ==> was.Archive? || t.Reserve? || t.Release?)
    && (t.c in calls ==> Moved(was, calls[t.c]) && was.pc != Ending && calls[t.c].pc != Got && (was.pc == Got ==> t.Reserve?))
  }

  lemma OwnMove(s: State, t: Step)
    requires Enabled(s, t) && !Starts(t) && !t.DeleteLens?
    ensures t.c in s.calls && OwnMoved(t, s.calls[t.c], Apply(s, t).calls)
  {
    match t
    case Write(_) => OwnSection(s, t);
    case Land(_) => OwnSection(s, t);
    case GiveUp(_) => OwnGiveUp(s, t);
    case Undo(_) => OwnGiveUp(s, t);
    case _ => hide ApplyWrite, ApplyLand, ApplyGiveUp, ApplyUndo;
  }

  lemma OwnSection(s: State, t: Step)
    requires Enabled(s, t) && (t.Write? || t.Land?)
    ensures OwnMoved(t, s.calls[t.c], Apply(s, t).calls)
  {
    hide CasName, SetName, Insert;
    match s.calls[t.c]
    case Rename(_, _, _, _) =>
    case _ =>
  }

  lemma OwnGiveUp(s: State, t: Step)
    requires Enabled(s, t) && (t.GiveUp? || t.Undo?)
    ensures OwnMoved(t, s.calls[t.c], Apply(s, t).calls)
  {
    hide CasName, SetName, SetState;
    match s.calls[t.c]
    case Archive(_, _, _) =>
    case _ =>
  }

  // Reserving and releasing are the only steps that move a name in or out of the reservations.
  lemma HeldAfter(s: State, t: Step)
    requires Enabled(s, t)
    ensures var s' := Apply(s, t);
            match t {
              case Reserve(c) =>
                && (s.calls[c].to in s.reserved ==> Held(s'.calls) == Held(s.calls) && s'.reserved == s.reserved)
                && (s.calls[c].to !in s.reserved ==>
                      Held(s'.calls) == Held(s.calls)[c := s.calls[c].to] && s'.reserved == s.reserved + {s.calls[c].to})
              case Release(c) =>
                && c in Held(s.calls) && Held(s'.calls) == Without(Held(s.calls), c)
                && s'.reserved == s.reserved - {Held(s.calls)[c]}
              case _ => Held(s'.calls) == Held(s.calls) && s'.reserved == s.reserved
            }
  {
    if !t.Reserve? && !t.Release? {
      HeldKept(s, t);
    }
  }

  lemma HeldKept(s: State, t: Step)
    requires Enabled(s, t) && !t.Reserve? && !t.Release?
    ensures Held(Apply(s, t).calls) == Held(s.calls) && Apply(s, t).reserved == s.reserved
  {
    var s' := Apply(s, t);
    forall d
      ensures d in Held(s.calls) <==> d in Held(s'.calls)
      ensures d in Held(s.calls) ==> Held(s.calls)[d] == Held(s'.calls)[d]
    {
      if Actor(t) != Some(d) {
        OthersUntouched(s, t, d);
      } else if !Starts(t) {
        OwnMove(s, t);
      }
      hide ApplyWrite, ApplyLand, ApplyGiveUp, ApplyUndo;
    }
  }

  lemma ReservationsKept(s: State, t: Step)
    requires Reservations(s) && Enabled(s, t)
    ensures Reservations(Apply(s, t))
  {
    HeldAfter(s, t);
    hide Held, Apply;
  }

  lemma LockKept(s: State, t: Step)
    requires LockHeld(s) && Enabled(s, t)
    ensures LockHeld(Apply(s, t))
  {
  }

  /** No call under way: what a start, or a quiet moment, looks like. */
  ghost predicate Idle(s: State) {
    s.calls == map[] && s.lock == None
  }
}
