/**
 The lifecycle calls as the program writes them (internal/repos/lifecycle.go): methods that look at
 and change the manager's fields one locked section or SQL statement at a time, with whatever
 other calls do in between. Every execution of them is a run of the step machine of `Lifecycle`,
 and each outcome takes its own fixed sequence of steps, so what holds of all runs holds of them.
*/
module Managers {
  import opened Wrappers
  import opened Lifecycle
  import opened Namespace
  import opened Agreement
  import opened Scripts

  /** The steps of one call among many. */
  function Own(log: seq<Step>, me: CallId): seq<Step> {
    if log == [] then []
    else Own(log[..|log| - 1], me) + if Actor(log[|log| - 1]) == Some(me) then [log[|log| - 1]] else []
  }

  lemma OwnSnoc(log: seq<Step>, t: Step, me: CallId)
    ensures Own(log + [t], me) == Own(log, me) + if Actor(t) == Some(me) then [t] else []
  {
    assert (log + [t])[..|log|] == log;
  }

  lemma RunSnoc(states: seq<State>, log: seq<Step>, t: Step)
    requires Run(states, log) && Enabled(states[|log|], t)
    ensures Run(states + [Apply(states[|log|], t)], log + [t])
  {
    hide Enabled, Apply;
    var longer := states + [Apply(states[|log|], t)];
    forall i | 0 <= i < |log| + 1 ensures StepTo(longer[i], (log + [t])[i], longer[i + 1]) {
      if i < |log| {
        assert StepTo(states[i], log[i], states[i + 1]);
      }
    }
  }

  /** What has happened so far: the states passed through, and the steps between them; and what other
      calls still have to do. */
  datatype Past = Past(states: seq<State>, log: seq<Step>, left: seq<seq<Step>>)

  /** From one past to a later one, the call took these steps; others may have taken any, if they had
      anything left to do. */
  ghost predicate Grew(a: Past, b: Past, me: CallId, steps: seq<Step>) {
    a.states <= b.states && Own(b.log, me) == Own(a.log, me) + steps &&
    (a.left == [] ==> b.left == [] && b.log == a.log + steps)
  }

  lemma GrewNone(a: Past, me: CallId)
    ensures Grew(a, a, me, [])
  {
  }

  lemma GrewThen(a: Past, b: Past, c: Past, me: CallId, first: seq<Step>, next: seq<Step>)
    requires Grew(a, b, me, first) && Grew(b, c, me, next)
    ensures Grew(a, c, me, first + next)
  {
    assert Own(a.log, me) + first + next == Own(a.log, me) + (first + next);
    assert a.log + first + next == a.log + (first + next);
  }

  // The same, with the steps written out.
  lemma GrewTo(a: Past, b: Past, c: Past, me: CallId, first: seq<Step>, next: seq<Step>, steps: seq<Step>)
    requires Grew(a, b, me, first) && Grew(b, c, me, next) && steps == first + next
    ensures Grew(a, c, me, steps)
  {
    GrewThen(a, b, c, me, first, next);
  }

  /** A state passed through from one past to a later one. */
  ghost predicate Through(a: Past, b: Past, s: State) {
    exists i: nat :: |a.states| - 1 <= i < |b.states| && b.states[i] == s
  }

  lemma StillThrough(a: Past, b: Past, c: Past, me: CallId, steps: seq<Step>, s: State)
    requires Through(a, b, s) && Grew(b, c, me, steps)
    ensures Through(a, c, s)
  {
    var i: nat :| |a.states| - 1 <= i < |b.states| && b.states[i] == s;
    assert c.states[i] == s;
  }

  lemma ThroughSince(a: Past, b: Past, c: Past, me: CallId, steps: seq<Step>, s: State)
    requires Grew(a, b, me, steps) && Through(b, c, s)
    ensures Through(a, c, s)
  {
    var i: nat :| |b.states| - 1 <= i < |c.states| && c.states[i] == s;
    assert |a.states| - 1 <= i;
  }

  /** The outcome is as a state passed through has it; a failure comes from outside. */
  ghost predicate Told(a: Past, b: Past, s: State, call: Call, r: Outcome)
    requires NamesRepo(call)
  {
    r in {Erred, Failed, BackedOut} || (Through(a, b, s) && Because(s, call, r))
  }

  lemma ToldSince(a: Past, b: Past, c: Past, me: CallId, steps: seq<Step>, s: State, call: Call, pc: Pc, r: Outcome)
    requires NamesRepo(call) && NamesRepo(Stage(call, pc))
    requires Grew(a, b, me, steps) && Told(b, c, s, Stage(call, pc), r)
    ensures Told(a, c, s, call, r)
  {
    hide Through, Grew, Because;
    StagesAlike(s, call, pc, r);
    if r !in {Erred, Failed, BackedOut} {
      ThroughSince(a, b, c, me, steps, s);
    }
  }

  /** Why a rename ended as it did: `found` is where it looked for its repo. */
  ghost predicate RenameTold(a: Past, b: Past, found: State, seen: State, from: Name, to: Name, r: Outcome) {
    Through(a, b, found) &&
    match r
    case Busy => found.lock.Some?
    case NotFound => from !in found.repos
    case NoChange => from == to
    case _ => from in found.repos && Told(a, b, seen, Rename(found.repos[from], from, to, Got), r)
  }

  ghost predicate ArchiveTold(a: Past, b: Past, found: State, flipped: State, dropped: State, name: Name, inUse: bool, r: Outcome) {
    Through(a, b, found) &&
    match r
    case Busy => found.lock.Some?
    case NotFound => name !in found.repos
    case LensHolds => name in found.repos && inUse
    case Refused => name in found.repos && !inUse && Through(a, b, flipped) && found.repos[name].uid !in flipped.rows
    case _ =>
      name in found.repos && !inUse && Through(a, b, flipped) && Through(a, b, dropped) &&
      Archived(flipped, dropped, Archive(found.repos[name], name, Locked))
  }

  ghost predicate CreateTold(a: Past, b: Past, seen: State, uid: Uid, to: Name, r: Outcome) {
    match r
    case Busy => Through(a, b, seen) && seen.lock.Some?
    case SeenRepo => Through(a, b, seen) && to in seen.repos
    case SeenLens => Through(a, b, seen) && to in seen.lenses
    case NotMinted =>
      Through(a, b, seen) && (uid in seen.rows || exists c :: c in seen.calls && seen.calls[c].Create? && seen.calls[c].uid == uid)
    case _ => Told(a, b, seen, Create(uid, to, Got), r)
  }

  ghost predicate RestoreTold(a: Past, b: Past, found: State, seen: State, uid: Uid, newName: Option<Name>, r: Outcome) {
    Through(a, b, found) &&
    if r == NotFound then uid !in found.rows || found.rows[uid].active
    else
      uid in found.rows && !found.rows[uid].active &&
      var was := found.rows[uid].name;
      Told(a, b, seen, Restore(uid, was, if newName.Some? then newName.value else was, Got), r)
  }

  lemma TellBecause(a: Past, b: Past, s: State, call: Call, r: Outcome)
    requires NamesRepo(call) && Through(a, b, s) && Because(s, call, r)
    ensures Told(a, b, s, call, r)
  {
  }

  lemma TellInFlight(a: Past, b: Past, s: State, call: Call)
    requires NamesRepo(call) && Through(a, b, s) && call.to in s.reserved
    ensures Told(a, b, s, call, InFlight)
  {
  }

  lemma TellTaken(a: Past, b: Past, s: State, call: Call)
    requires NamesRepo(call) && Through(a, b, s) && call.to in s.repos
    ensures Told(a, b, s, call, NameTaken)
  {
  }

  lemma TellLens(a: Past, b: Past, s: State, call: Call)
    requires NamesRepo(call) && Through(a, b, s) && call.to in s.lenses
    ensures Told(a, b, s, call, LensHolds)
  {
  }

  lemma TellWaiting(a: Past, b: Past, s: State, call: Call, r: Outcome)
    requires NamesRepo(call) && Through(a, b, s) && s.lock.Some? && r in {Waiting, StillLanding}
    ensures Told(a, b, s, call, r)
  {
  }

  lemma StillWaiting(a: Past, b: Past, s: State, call: Call)
    requires NamesRepo(call) && Told(a, b, s, call, Waiting)
    ensures Told(a, b, s, call, StillLanding)
  {
  }

  lemma TellRefused(a: Past, b: Past, s: State, call: Call)
    requires NamesRepo(call) && Through(a, b, s) && RowRefuses(s, call)
    ensures Told(a, b, s, call, Refused)
  {
  }

  lemma TellLost(a: Past, b: Past, s: State, call: Call)
    requires call.Rename? && Through(a, b, s) && !(call.from in s.repos && s.repos[call.from] == call.inst && call.to !in s.repos)
    ensures Told(a, b, s, call, Lost)
  {
  }

  lemma TellRenamed(a: Past, b: Past, s: State, call: Call)
    requires call.Rename? && Through(a, b, s) && Landed(s, call)
    ensures Told(a, b, s, call, Done)
  {
  }

  lemma TellRegistered(a: Past, b: Past, s: State, call: Call)
    requires (call.Create? || call.Restore?) && Through(a, b, s) && Registered(s, call)
    ensures Told(a, b, s, call, Done)
  {
  }

  lemma TellFailed(a: Past, b: Past, s: State, call: Call, r: Outcome)
    requires NamesRepo(call) && r in {Erred, Failed, BackedOut}
    ensures Told(a, b, s, call, r)
  {
  }

  lemma EarlyRename(a: Past, b: Past, found: State, seen: State, from: Name, to: Name, r: Outcome)
    requires Through(a, b, found) && (found.lock.Some? || from !in found.repos || from == to)
    requires r == if found.lock.Some? then Busy else if from !in found.repos then NotFound else NoChange
    ensures RenameTold(a, b, found, seen, from, to, r)
  {
  }

  lemma BegunRename(a: Past, b: Past, found: State, seen: State, from: Name, to: Name, r: Outcome)
    requires Through(a, b, found) && from in found.repos && r !in Early()
    requires Told(a, b, seen, Rename(found.repos[from], from, to, Got), r)
    ensures RenameTold(a, b, found, seen, from, to, r)
  {
  }

  lemma EarlyCreate(a: Past, b: Past, seen: State, uid: Uid, to: Name, r: Outcome)
    requires Through(a, b, seen) && (seen.lock.Some? || to in seen.repos || to in seen.lenses || uid in seen.rows || !NewUid(seen, uid))
    requires r in {Busy, SeenRepo, SeenLens, NotMinted}
    requires (r == Busy ==> seen.lock.Some?) && (r == SeenRepo ==> to in seen.repos) && (r == SeenLens ==> to in seen.lenses)
    requires r == NotMinted ==> uid in seen.rows || !NewUid(seen, uid)
    ensures CreateTold(a, b, seen, uid, to, r)
  {
  }

  lemma BegunCreate(a: Past, b: Past, seen: State, uid: Uid, to: Name, r: Outcome)
    requires r !in Early() && Told(a, b, seen, Create(uid, to, Got), r)
    ensures CreateTold(a, b, seen, uid, to, r)
  {
  }

  lemma EarlyRestore(a: Past, b: Past, found: State, seen: State, uid: Uid, newName: Option<Name>)
    requires Through(a, b, found) && (uid !in found.rows || found.rows[uid].active)
    ensures RestoreTold(a, b, found, seen, uid, newName, NotFound)
  {
  }

  lemma BegunRestore(a: Past, b: Past, found: State, seen: State, uid: Uid, newName: Option<Name>, r: Outcome)
    requires Through(a, b, found) && uid in found.rows && !found.rows[uid].active && r !in Early()
    requires var was := found.rows[uid].name;
      Told(a, b, seen, Restore(uid, was, if newName.Some? then newName.value else was, Got), r)
    ensures RestoreTold(a, b, found, seen, uid, newName, r)
  {
  }

  lemma EarlyArchive(a: Past, b: Past, found: State, flipped: State, dropped: State, name: Name, inUse: bool, r: Outcome)
    requires Through(a, b, found) && (found.lock.Some? || name !in found.repos)
    requires r == if found.lock.Some? then Busy else NotFound
    ensures ArchiveTold(a, b, found, flipped, dropped, name, inUse, r)
  {
  }

  lemma BegunArchive(a: Past, b: Past, found: State, flipped: State, dropped: State, name: Name, inUse: bool, r: Outcome)
    requires Through(a, b, found) && name in found.repos && r in {LensHolds, Refused, Done} && (r == LensHolds <==> inUse)
    requires r == Refused ==> Through(a, b, flipped) && found.repos[name].uid !in flipped.rows
    requires r == Done ==>
      Through(a, b, flipped) && Through(a, b, dropped) && Archived(flipped, dropped, Archive(found.repos[name], name, Locked))
    ensures ArchiveTold(a, b, found, flipped, dropped, name, inUse, r)
  {
  }

  // Steps taken alone lead from the state they were begun in to the state they ended in.
  lemma {:induction false} RunPlays(states: seq<State>, log: seq<Step>, i: nat)
    requires Run(states, log) && i <= |log|
    ensures Plays(states[i], log[i..], states[|log|])
    decreases |log| - i
  {
    hide Enabled, Apply;
    if i < |log| {
      RunPlays(states, log, i + 1);
      assert StepTo(states[i], log[i], states[i + 1]);
      assert log[i..][0] == log[i] && log[i..][1..] == log[i + 1..];
    }
  }

  lemma AlonePlays(a: Past, b: Past, me: CallId, steps: seq<Step>)
    requires Run(a.states, a.log) && Run(b.states, b.log) && Grew(a, b, me, steps) && a.left == []
    ensures Plays(a.states[|a.log|], steps, b.states[|b.log|])
  {
    hide Enabled, Apply, Plays;
    RunPlays(b.states, b.log, |a.log|);
    assert b.log[|a.log|..] == steps;
  }

  class Manager {
    var rows: map<Uid, Row>
    var repos: map<Name, Inst>
    var shown: map<Inst, Name>
    var lenses: set<Name>
    var creating: set<Name>
    var lock: Option<CallId>
    var calls: map<CallId, Call>   // the calls under way, and how far each has come
    var nextId: nat
    var schedule: seq<seq<Step>>   // what other calls do at each point where this one lets go
    ghost var past: Past

    function Now(): State
      reads this
    {
      State(rows, repos, shown, lenses, creating, lock, calls, nextId)
    }

    ghost predicate Valid()
      reads this
    {
      Run(past.states, past.log) && past.states[|past.log|] == Now() && past.left == schedule
    }

    constructor (s: State, others: seq<seq<Step>>)
      ensures Valid() && Now() == s && past == Past([s], [], others) && schedule == others
    {
      rows, repos, shown, lenses := s.rows, s.repos, s.shown, s.lenses;
      creating, lock, calls, nextId := s.reserved, s.lock, s.calls, s.nextId;
      schedule := others;
      past := Past([s], [], others);
    }

    /** The call took this step, and nothing else happened. */
    twostate predicate Took(t: Step)
      reads this
    {
      Enabled(old(Now()), t) && Now() == Apply(old(Now()), t) && schedule == old(schedule) &&
      past == Past(old(past).states + [Now()], old(past).log + [t], schedule)
    }

    ghost method Record(was: State, me: CallId, t: Step)
      requires Run(past.states, past.log) && past.states[|past.log|] == was && StepTo(was, t, Now()) && past.left == schedule
      requires Actor(t) == Some(me) || schedule != []
      modifies this`past
      ensures Valid() && past == Past(old(past).states + [Now()], old(past).log + [t], schedule)
      ensures Grew(old(past), past, me, if Actor(t) == Some(me) then [t] else [])
    {
      hide Enabled, Apply;
      RunSnoc(past.states, past.log, t);
      OwnSnoc(past.log, t, me);
      past := Past(past.states + [Now()], past.log + [t], schedule);
    }

    /** Others have moved, and this call has not. */
    twostate predicate OthersMoved(me: CallId)
      reads this
    {
      Grew(old(past), past, me, []) &&
      (me in calls <==> me in old(calls)) && (me in calls ==> calls[me] == old(calls)[me])
    }

    /** A step of another call. */
    method Take(me: CallId, t: Step)
      requires Valid() && Enabled(Now(), t) && Actor(t) != Some(me) && schedule != []
      modifies this
      ensures Valid() && OthersMoved(me) && schedule == old(schedule)
    {
      hide Enabled, Apply;
      ghost var was := Now();
      OthersUntouched(was, t, me);
      var s := Apply(Now(), t);
      rows, repos, shown, lenses := s.rows, s.repos, s.shown, s.lenses;
      creating, lock, calls, nextId := s.reserved, s.lock, s.calls, s.nextId;
      Record(was, me, t);
    }

    /** Let go: the other calls take what steps they can of the next batch. */
    method Yield(me: CallId)
      requires Valid()
      modifies this
      ensures Valid() && OthersMoved(me)
      ensures old(schedule) != [] ==> |schedule| < |old(schedule)|
      ensures old(schedule) == [] ==> Now() == old(Now()) && schedule == []
    {
      hide Enabled, Apply;
      GrewNone(past, me);
      if schedule == [] {
        return;
      }
      var batch := schedule[0];
      for i := 0 to |batch|
        invariant Valid() && OthersMoved(me) && schedule == old(schedule)
      {
        if Enabled(Now(), batch[i]) && Actor(batch[i]) != Some(me) {
          ghost var before := past;
          Take(me, batch[i]);
          GrewTo(old(past), before, past, me, [], [], []);
        }
      }
      schedule := schedule[1..];
      past := past.(left := schedule);
    }

    /** Waits for the manager's lock, as long as others still have something to do. */
    method Await(me: CallId) returns (free: bool)
      requires Valid()
      modifies this
      ensures Valid() && OthersMoved(me) && (free <==> lock.None?)
      ensures old(schedule) == [] ==> Now() == old(Now()) && schedule == []
    {
      Yield(me);
      while lock.Some? && schedule != []
        invariant Valid() && OthersMoved(me)
        invariant old(schedule) == [] ==> Now() == old(Now()) && schedule == []
        decreases |schedule|
      {
        ghost var before := past;
        Yield(me);
        GrewTo(old(past), before, past, me, [], [], []);
      }
      free := lock.None?;
    }

    /** Bookkeeping: how far a call has come. */
    method Mark(me: CallId, pc: Pc)
      requires me in calls
      modifies this`calls
      ensures calls == old(calls)[me := old(calls)[me].(pc := pc)]
    {
      calls := calls[me := Stage(calls[me], pc)];
    }

    // ---- sections every call shares ----

    method ReserveName(me: CallId) returns (ok: bool)
      requires Valid() && me in calls && calls[me].pc == Got && HasTarget(calls[me])
      modifies this
      ensures Valid() && Took(Reserve(me)) && Grew(old(past), past, me, [Reserve(me)])
      ensures if ok then me in calls && calls[me] == Stage(old(calls)[me], Reserved) else me !in calls
      ensures ok <==> old(calls)[me].to !in old(creating)
      ensures repos == old(repos) && lenses == old(lenses) && schedule == old(schedule)
    {
      hide Run, Own, Taken, ApplyWrite, ApplyLand, ApplyGiveUp, ApplyUndo;
      ghost var was := Now();
      ok := calls[me].to !in creating;
      if ok {
        creating := creating + {calls[me].to};
        Mark(me, Reserved);
      } else {
        calls := calls - {me};
      }
      Record(was, me, Reserve(me));
    }

    method ReleaseName(me: CallId)
      requires Valid() && me in calls && calls[me].pc == Ending && HasTarget(calls[me])
      modifies this
      ensures Valid() && Took(Release(me)) && Grew(old(past), past, me, [Release(me)]) && me !in calls
    {
      ghost var was := Now();
      creating := creating - {calls[me].to};
      calls := calls - {me};
      Record(was, me, Release(me));
    }

    method NameFree(me: CallId) returns (free: bool)
      requires Valid() && me in calls && calls[me].pc == Reserved && NamesRepo(calls[me]) && lock.None?
      modifies this
      ensures Valid() && Took(CheckFree(me)) && Grew(old(past), past, me, [CheckFree(me)])
      ensures me in calls && calls[me] == Stage(old(calls)[me], if free then Checked else Ending)
      ensures free <==> old(calls)[me].to !in old(repos)
    {
      ghost var was := Now();
      free := calls[me].to !in repos;
      Mark(me, if free then Checked else Ending);
      Record(was, me, CheckFree(me));
    }

    method LensFree(me: CallId) returns (free: bool)
      requires Valid() && me in calls && calls[me].pc == Checked && NamesRepo(calls[me])
      modifies this
      ensures Valid() && Took(CheckLens(me)) && Grew(old(past), past, me, [CheckLens(me)])
      ensures me in calls && calls[me] == Stage(old(calls)[me], if free then Cleared else Ending)
      ensures free <==> old(calls)[me].to !in old(lenses)
    {
      ghost var was := Now();
      free := calls[me].to !in lenses;
      Mark(me, if free then Cleared else Ending);
      Record(was, me, CheckLens(me));
    }

    /** A statement failed before anything was written. */
    method Stop(me: CallId)
      requires Valid() && me in calls && NamesRepo(calls[me]) && calls[me].pc in {Checked, Cleared}
      modifies this
      ensures Valid() && Took(GiveUp(me)) && Grew(old(past), past, me, [GiveUp(me)]) && me in calls && calls[me] == Stage(old(calls)[me], Ending)
    {
      ghost var was := Now();
      Mark(me, Ending);
      Record(was, me, GiveUp(me));
    }

    method StopAndRelease(me: CallId)
      requires Valid() && me in calls && NamesRepo(calls[me]) && calls[me].pc in {Checked, Cleared}
      modifies this
      ensures Valid() && Grew(old(past), past, me, [GiveUp(me), Release(me)]) && me !in calls
    {
      hide Apply, Enabled, Own, Run, Took, Valid, Grew;
      ghost var p0 := past;
      Stop(me);
      ghost var p1 := past;
      Yield(me);
      GrewTo(p0, p1, past, me, [GiveUp(me)], [], [GiveUp(me)]);
      ghost var p2 := past;
      ReleaseName(me);
      GrewTo(p0, p2, past, me, [GiveUp(me)], [Release(me)], [GiveUp(me), Release(me)]);
    }

    // ---- RenameRepo ----

    method RenameIfNamed(me: CallId) returns (changed: bool)
      requires Valid() && me in calls && calls[me].pc == Cleared && calls[me].Rename?
      modifies this
      ensures Valid() && Took(Write(me)) && Grew(old(past), past, me, [Write(me)])
      ensures me in calls && calls[me] == Stage(old(calls)[me], if changed then Written else Ending)
      ensures changed <==> !RowRefuses(old(Now()), old(calls)[me])
    {
      ghost var was := Now();
      var call := calls[me];
      var uid := call.inst.uid;
      changed := uid in rows && rows[uid].name == call.from && !(rows[uid].active && Taken(rows, uid, call.to));
      if changed {
        rows := rows[uid := rows[uid].(name := call.to)];
      }
      Mark(me, if changed then Written else Ending);
      Record(was, me, Write(me));
    }

    /** Under the lock: only if the map still has this instance there and nothing at the target. */
    method SwapNames(me: CallId) returns (ok: bool)
      requires Valid() && me in calls && calls[me].pc == Written && calls[me].Rename? && lock.None?
      modifies this
      ensures Valid() && Took(Land(me)) && Grew(old(past), past, me, [Land(me)])
      ensures me in calls && calls[me] == Stage(old(calls)[me], if ok then Ending else Reverting)
      ensures var c := old(calls)[me]; ok <==> c.from in old(repos) && old(repos)[c.from] == c.inst && c.to !in old(repos)
      ensures var c := old(calls)[me]; ok ==> repos == Without(old(repos), c.from)[c.to := c.inst] && shown == old(shown)[c.inst := c.to]
    {
      ghost var was := Now();
      var call := calls[me];
      ok := call.from in repos && repos[call.from] == call.inst && call.to !in repos;
      if ok {
        repos := Without(repos, call.from)[call.to := call.inst];
        shown := shown[call.inst := call.to];
      }
      Mark(me, if ok then Ending else Reverting);
      Record(was, me, Land(me));
    }

    method Revert(me: CallId)
      requires Valid() && me in calls && calls[me].pc == Reverting && calls[me].Rename?
      modifies this
      ensures Valid() && Took(Undo(me)) && Grew(old(past), past, me, [Undo(me)]) && me in calls && calls[me] == Stage(old(calls)[me], Ending)
    {
      ghost var was := Now();
      var call := calls[me];
      var uid := call.inst.uid;
      if uid in rows && rows[uid].name == call.to && !(rows[uid].active && Taken(rows, uid, call.from)) {
        rows := rows[uid := rows[uid].(name := call.from)];
      }
      Mark(me, Ending);
      Record(was, me, Undo(me));
    }

    /** Reserve the target, and look for a live repo of that name. */
    method ReserveUnused(me: CallId) returns (r: Outcome, ghost seen: State)
      requires Valid() && me in calls && calls[me].pc == Got && NamesRepo(calls[me])
      modifies this
      ensures Valid() && r in {Done, InFlight, NameTaken, Waiting}
      ensures Grew(old(past), past, me, ReserveScript(me, r))
      ensures match r
        case Done => me in calls && calls[me] == Stage(old(calls)[me], Checked)
        case Waiting => me in calls && calls[me] == Stage(old(calls)[me], Reserved) && lock.Some?
        case _ => me !in calls
      ensures r != Done ==> Told(old(past), past, seen, old(calls)[me], r)
    {
      hide Apply, Enabled, Own, Run, Took, Valid, Grew, Through, RowRefuses, Landed, Registered, Because, Told;
      ghost var p0 := past;
      Yield(me);
      ghost var p1 := past;
      seen := Now();
      SeenNow(p0, me, []);
      var ok := ReserveName(me);
      GrewTo(p0, p1, past, me, [], [Reserve(me)], [Reserve(me)]);
      StillThrough(p0, p1, past, me, [Reserve(me)], seen);
      if !ok {
        TellInFlight(p0, past, seen, old(calls)[me]);
        return InFlight, seen;
      }
      ghost var p2 := past;
      var free := Await(me);
      GrewTo(p0, p2, past, me, [Reserve(me)], [], [Reserve(me)]);
      seen := Now();
      SeenNow(p0, me, [Reserve(me)]);
      if !free {
        TellWaiting(p0, past, seen, old(calls)[me], Waiting);
        return Waiting, seen;
      }
      ghost var p3 := past;
      ok := NameFree(me);
      GrewTo(p0, p3, past, me, [Reserve(me)], [CheckFree(me)], [Reserve(me), CheckFree(me)]);
      StillThrough(p0, p3, past, me, [CheckFree(me)], seen);
      if !ok {
        ghost var p4 := past;
        ReleaseName(me);
        GrewTo(p0, p4, past, me, [Reserve(me), CheckFree(me)], [Release(me)], [Reserve(me), CheckFree(me), Release(me)]);
        StillThrough(p0, p4, past, me, [Release(me)], seen);
        TellTaken(p0, past, seen, old(calls)[me]);
        return NameTaken, seen;
      }
      r := Done;
    }

    /** Look for a lens of the name. */
    method NoLens(me: CallId, lensErr: bool) returns (r: Outcome, ghost seen: State)
      requires Valid() && me in calls && calls[me].pc == Checked && NamesRepo(calls[me])
      modifies this
      ensures Valid() && r in {Done, LensHolds, Erred} && (r == Erred <==> lensErr)
      ensures Grew(old(past), past, me, LensScript(me, r))
      ensures if r == Done then me in calls && calls[me] == Stage(old(calls)[me], Cleared) else me !in calls
      ensures r != Done ==> Told(old(past), past, seen, old(calls)[me], r)
    {
      hide Apply, Enabled, Own, Run, Took, Valid, Grew, Through, RowRefuses, Landed, Registered, Because, Told;
      ghost var p0 := past;
      Yield(me);
      ghost var p1 := past;
      seen := Now();
      SeenNow(p0, me, []);
      if lensErr {
        StopAndRelease(me);
        GrewTo(p0, p1, past, me, [], [GiveUp(me), Release(me)], [GiveUp(me), Release(me)]);
        TellFailed(p0, past, seen, old(calls)[me], Erred);
        return Erred, seen;
      }
      var ok := LensFree(me);
      GrewTo(p0, p1, past, me, [], [CheckLens(me)], [CheckLens(me)]);
      StillThrough(p0, p1, past, me, [CheckLens(me)], seen);
      ghost var p2 := past;
      Yield(me);
      GrewTo(p0, p2, past, me, [CheckLens(me)], [], [CheckLens(me)]);
      StillThrough(p0, p2, past, me, [], seen);
      ghost var p3 := past;
      if !ok {
        ReleaseName(me);
        GrewTo(p0, p3, past, me, [CheckLens(me)], [Release(me)], [CheckLens(me), Release(me)]);
        StillThrough(p0, p3, past, me, [Release(me)], seen);
        TellLens(p0, past, seen, old(calls)[me]);
        return LensHolds, seen;
      }
      r := Done;
    }

    /** The target is reserved, then both checks made; the reservation outlives them only if they pass. */
    method Claim(me: CallId, lensErr: bool) returns (r: Outcome, ghost seen: State)
      requires Valid() && me in calls && calls[me].pc == Got && NamesRepo(calls[me])
      modifies this
      ensures Valid() && r in {Done, InFlight, NameTaken, LensHolds, Erred, Waiting} && FlagsFit(r, lensErr, false, false)
      ensures Grew(old(past), past, me, ClaimScript(me, r))
      ensures match r
        case Done => me in calls && calls[me] == Stage(old(calls)[me], Cleared)
        case Waiting => me in calls && calls[me] == Stage(old(calls)[me], Reserved) && lock.Some?
        case _ => me !in calls
      ensures r != Done ==> Told(old(past), past, seen, old(calls)[me], r)
    {
      hide Apply, Enabled, Own, Run, Took, Valid, Grew, ReserveScript, LensScript, Told;
      ghost var p0 := past;
      r, seen := ReserveUnused(me);
      if r != Done { return; }
      ghost var p1 := past;
      r, seen := NoLens(me, lensErr);
      GrewThen(p0, p1, past, me, ReserveScript(me, Done), LensScript(me, r));
      if r != Done {
        ToldSince(p0, p1, past, me, ReserveScript(me, Done), seen, old(calls)[me], Checked, r);
      }
    }

    /** The conditional write, the swap under the lock, and the revert when the map had moved on. */
    method CommitRename(me: CallId) returns (r: Outcome, ghost seen: State)
      requires Valid() && me in calls && calls[me].Rename? && calls[me].pc == Cleared
      modifies this
      ensures Valid() && r in {Done, Refused, Lost, Waiting}
      ensures Grew(old(past), past, me, CommitScript(me, r))
      ensures if r == Waiting then me in calls && calls[me] == Stage(old(calls)[me], Written) && lock.Some? else me !in calls
      ensures Told(old(past), past, seen, old(calls)[me], r)
    {
      hide Apply, Enabled, Own, Run, Took, Valid, Grew, Through, RowRefuses, Registered, Because, Told;
      ghost var p0 := past;
      seen := Now();
      GrewNone(p0, me);
      SeenNow(p0, me, []);
      var ok := RenameIfNamed(me);
      StillThrough(p0, p0, past, me, [Write(me)], seen);
      ghost var p1 := past;
      if !ok {
        ReleaseName(me);
        GrewTo(p0, p1, past, me, [Write(me)], [Release(me)], [Write(me), Release(me)]);
        StillThrough(p0, p1, past, me, [Release(me)], seen);
        TellRefused(p0, past, seen, old(calls)[me]);
        return Refused, seen;
      }
      var free := Await(me);
      GrewTo(p0, p1, past, me, [Write(me)], [], [Write(me)]);
      seen := Now();
      SeenNow(p0, me, [Write(me)]);
      if !free {
        TellWaiting(p0, past, seen, old(calls)[me], Waiting);
        return Waiting, seen;
      }
      ghost var p2 := past;
      r, seen := Swap(me);
      GrewThen(p0, p2, past, me, [Write(me)], SwapScript(me, r));
      assert CommitScript(me, r) == [Write(me)] + SwapScript(me, r);
      ToldSince(p0, p2, past, me, [Write(me)], seen, old(calls)[me], Written, r);
    }

    /** Under the lock, the swap; then the revert if it did not happen, and the name given back. */
    method Swap(me: CallId) returns (r: Outcome, ghost seen: State)
      requires Valid() && me in calls && calls[me].Rename? && calls[me].pc == Written && lock.None?
      modifies this
      ensures Valid() && r in {Done, Lost} && me !in calls
      ensures Grew(old(past), past, me, SwapScript(me, r))
      ensures Told(old(past), past, seen, old(calls)[me], r)
    {
      hide Apply, Enabled, Own, Run, Took, Valid, Grew, Through, RowRefuses, Registered, Because, Told;
      ghost var p2 := past;
      seen := Now();
      GrewNone(p2, me);
      SeenNow(p2, me, []);
      var ok := SwapNames(me);
      ghost var p3 := past;
      if !ok {
        StillThrough(p2, p2, past, me, [Land(me)], seen);
        RevertAndRelease(me);
        GrewTo(p2, p3, past, me, [Land(me)], [Undo(me), Release(me)], [Land(me), Undo(me), Release(me)]);
        StillThrough(p2, p3, past, me, [Undo(me), Release(me)], seen);
        TellLost(p2, past, seen, old(calls)[me]);
        return Lost, seen;
      }
      seen := Now();
      SeenNow(p2, me, [Land(me)]);
      ReleaseName(me);
      GrewTo(p2, p3, past, me, [Land(me)], [Release(me)], [Land(me), Release(me)]);
      StillThrough(p2, p3, past, me, [Release(me)], seen);
      TellRenamed(p2, past, seen, old(calls)[me]);
      r := Done;
    }

    method RevertAndRelease(me: CallId)
      requires Valid() && me in calls && calls[me].pc == Reverting && calls[me].Rename?
      modifies this
      ensures Valid() && Grew(old(past), past, me, [Undo(me), Release(me)]) && me !in calls
    {
      hide Apply, Enabled, Own, Run, Took, Valid, Grew;
      ghost var p0 := past;
      Yield(me);
      ghost var p1 := past;
      Revert(me);
      GrewTo(p0, p1, past, me, [], [Undo(me)], [Undo(me)]);
      ghost var p2 := past;
      Yield(me);
      GrewTo(p0, p2, past, me, [Undo(me)], [], [Undo(me)]);
      ghost var p3 := past;
      ReleaseName(me);
      GrewTo(p0, p3, past, me, [Undo(me)], [Release(me)], [Undo(me), Release(me)]);
    }

    /** A rename, once it has found its repo. */
    method RenameFound(me: CallId, lensErr: bool, rowErr: bool) returns (r: Outcome, ghost seen: State)
      requires Valid() && me in calls && calls[me].Rename? && calls[me].pc == Got
      modifies this
      ensures Valid() && FlagsFit(r, lensErr, rowErr, false)
      ensures r in {InFlight, NameTaken, LensHolds, Erred, Waiting, Failed, Refused, Lost, Done, StillLanding}
      ensures Grew(old(past), past, me, ClaimedScript(me, r))
      ensures match r
        case Waiting => me in calls && calls[me] == Stage(old(calls)[me], Reserved) && lock.Some?
        case StillLanding => me in calls && calls[me] == Stage(old(calls)[me], Written) && lock.Some?
        case _ => me !in calls
      ensures Told(old(past), past, seen, old(calls)[me], r)
    {
      hide Apply, Enabled, Own, Run, Took, Valid, Grew, ClaimScript, CommitScript, Through, RowRefuses, Landed, Because, Told;
      ghost var p0 := past;
      r, seen := Claim(me, lensErr);
      if r != Done { return; }
      ghost var p1 := past;
      if rowErr {
        StopAndRelease(me);
        GrewThen(p0, p1, past, me, ClaimScript(me, Done), [GiveUp(me), Release(me)]);
        TellFailed(p0, past, seen, old(calls)[me], Failed);
        return Failed, seen;
      }
      r, seen := CommitRename(me);
      GrewThen(p0, p1, past, me, ClaimScript(me, Done), CommitScript(me, r));
      ToldSince(p0, p1, past, me, ClaimScript(me, Done), seen, old(calls)[me], Cleared, r);
      if r == Waiting {
        r := StillLanding;
        StillWaiting(p0, past, seen, old(calls)[me]);
      }
    }

    method RenameLive(me: CallId, from: Name, to: Name, lensErr: bool, rowErr: bool) returns (r: Outcome, ghost seen: State)
      requires Valid() && me !in calls && lock.None? && from in repos && from != to
      modifies this
      ensures Valid() && FlagsFit(r, lensErr, rowErr, false)
      ensures r in {InFlight, NameTaken, LensHolds, Erred, Waiting, Failed, Refused, Lost, Done, StillLanding} && r !in Early()
      ensures Grew(old(past), past, me, RenameScript(me, from, to, r))
      ensures if r in {Waiting, StillLanding} then me in calls && lock.Some? else me !in calls
      ensures Told(old(past), past, seen, Rename(old(repos)[from], from, to, Got), r)
    {
      hide Apply, Enabled, Own, Run, Took, Valid, Grew, ClaimedScript, Told, Through, Because, FlagsFit;
      ghost var p0 := past;
      StartRenaming(me, from, to);
      ghost var p2 := past;
      r, seen := RenameFound(me, lensErr, rowErr);
      GrewThen(p0, p2, past, me, [StartRename(me, from, to)], ClaimedScript(me, r));
      ToldSince(p0, p2, past, me, [StartRename(me, from, to)], seen, Rename(old(repos)[from], from, to, Got), Got, r);
    }

    /**
     Renames a live repo. Each outcome is reached by its own sequence of steps, whatever others do in
     between, and was so in a state the call passed through; with nobody in between the outcome and
     what it leaves are those of the state it was called in.
    */
    method RenameRepo(me: CallId, from: Name, to: Name, lensErr: bool, rowErr: bool)
        returns (r: Outcome, ghost found: State, ghost seen: State)
      requires Valid() && me !in calls
      modifies this
      ensures Valid() && FlagsFit(r, lensErr, rowErr, false) && (r in Early() ==> r in {Busy, NotFound, NoChange})
      ensures Grew(old(past), past, me, RenameScript(me, from, to, r))
      ensures r !in {Waiting, StillLanding} ==> me !in calls
      ensures RenameTold(old(past), past, found, seen, from, to, r)
      ensures old(schedule) == [] ==>
        r == RenameOutcome(old(Now()), from, to, lensErr, rowErr) && RenameLeaves(old(Now()), Now(), from, to, r)
    {
      hide Apply, Enabled, Own, Run, Took, Valid, Grew, ClaimedScript, RenameOutcome, RenameLeaves, Told, Through, Because, RenameTold, FlagsFit, Early, RenameScript;
      GrewNone(past, me);
      ghost var p0, s0, alone := past, Now(), schedule == [];
      ValidMeans();
      var free := Await(me);
      found, seen := Now(), Now();
      SeenNow(p0, me, []);
      if !free || from !in repos || from == to {
        r := if !free then Busy else if from !in repos then NotFound else NoChange;
        RenameStops(Now(), me, from, to, lensErr, rowErr, r);
        EarlyRename(p0, past, found, seen, from, to, r);
        return;
      }
      ghost var p1 := past;
      r, seen := RenameLive(me, from, to, lensErr, rowErr);
      GrewTo(p0, p1, past, me, [], RenameScript(me, from, to, r), RenameScript(me, from, to, r));
      StillThrough(p0, p1, past, me, RenameScript(me, from, to, r), found);
      ToldSince(p0, p1, past, me, [], seen, Rename(found.repos[from], from, to, Got), Got, r);
      BegunRename(p0, past, found, seen, from, to, r);
      if alone {
        PlayedAlone(p0, s0, me, RenameScript(me, from, to, r));
        RenameAlone(s0, Now(), me, from, to, lensErr, rowErr, r);
      }
    }

    lemma ValidMeans()
      requires Valid()
      ensures Run(past.states, past.log) && past.states[|past.log|] == Now() && past.left == schedule
    {
    }

    lemma PlayedAlone(a: Past, s: State, me: CallId, steps: seq<Step>)
      requires Valid() && Run(a.states, a.log) && a.states[|a.log|] == s && a.left == [] && Grew(a, past, me, steps)
      ensures Plays(s, steps, Now())
    {
      hide Plays;
      AlonePlays(a, past, me, steps);
    }

    method StartRenaming(me: CallId, from: Name, to: Name)
      requires Valid() && me !in calls && lock.None? && from in repos && from != to
      modifies this
      ensures Valid() && Took(StartRename(me, from, to)) && Grew(old(past), past, me, [StartRename(me, from, to)])
      ensures me in calls && calls[me] == Rename(old(repos)[from], from, to, Got)
    {
      ghost var was := Now();
      calls := calls[me := Rename(repos[from], from, to, Got)];
      Record(was, me, StartRename(me, from, to));
    }

    // ---- Archive ----

    /** Takes the lock and keeps it. */
    method StartArchiving(me: CallId, name: Name)
      requires Valid() && me !in calls && lock.None? && name in repos
      modifies this
      ensures Valid() && Took(StartArchive(me, name)) && Grew(old(past), past, me, [StartArchive(me, name)])
      ensures me in calls && calls[me] == Archive(old(repos)[name], name, Locked)
    {
      ghost var was := Now();
      calls := calls[me := Archive(repos[name], name, Locked)];
      lock := Some(me);
      Record(was, me, StartArchive(me, name));
    }

    method Unlock(me: CallId)
      requires Valid() && me in calls && calls[me].pc == Locked && calls[me].Archive?
      modifies this
      ensures Valid() && Took(GiveUp(me)) && Grew(old(past), past, me, [GiveUp(me)]) && me !in calls
    {
      ghost var was := Now();
      calls := calls - {me};
      lock := None;
      Record(was, me, GiveUp(me));
    }

    /** The fallible step, before anything else is touched. */
    method SetArchived(me: CallId) returns (ok: bool)
      requires Valid() && me in calls && calls[me].pc == Locked && calls[me].Archive?
      modifies this
      ensures Valid() && Took(Flip(me)) && Grew(old(past), past, me, [Flip(me)])
      ensures if ok then me in calls && calls[me] == Stage(old(calls)[me], Written) else me !in calls
      ensures ok <==> old(calls)[me].inst.uid in old(rows)
      ensures ok ==> var u := old(calls)[me].inst.uid; u in rows && !rows[u].active && repos == old(repos)
    {
      ghost var was := Now();
      var uid := calls[me].inst.uid;
      ok := uid in rows;
      if ok {
        rows := rows[uid := rows[uid].(active := false)];
        Mark(me, Written);
      } else {
        calls := calls - {me};
        lock := None;
      }
      Record(was, me, Flip(me));
    }

    method DropName(me: CallId)
      requires Valid() && me in calls && calls[me].pc == Written && calls[me].Archive?
      modifies this
      ensures Valid() && Took(Drop(me)) && Grew(old(past), past, me, [Drop(me)]) && me !in calls
      ensures repos == Without(old(repos), old(calls)[me].name)
    {
      ghost var was := Now();
      repos := Without(repos, calls[me].name);
      calls := calls - {me};
      lock := None;
      Record(was, me, Drop(me));
    }

    /** Under the lock: the row is flipped while the map still has the repo, then the map drops it. */
    method ArchiveLocked(me: CallId, inUse: bool) returns (r: Outcome, ghost flipped: State, ghost dropped: State)
      requires Valid() && me in calls && calls[me].Archive? && calls[me].pc == Locked
      modifies this
      ensures Valid() && r in {LensHolds, Refused, Done} && me !in calls && (r == LensHolds <==> inUse)
      ensures Grew(old(past), past, me, LockedArchiveScript(me, r))
      ensures r == Refused ==> Through(old(past), past, flipped) && old(calls)[me].inst.uid !in flipped.rows
      ensures r == Done ==>
        Through(old(past), past, flipped) && Through(old(past), past, dropped) && Archived(flipped, dropped, old(calls)[me])
    {
      hide Apply, Enabled, Own, Run, Took, Valid, Grew, Through, Because, Told;
      ghost var p0 := past;
      Yield(me);
      ghost var p1 := past;
      flipped, dropped := Now(), Now();
      SeenNow(p0, me, []);
      if inUse {
        Unlock(me);
        GrewTo(p0, p1, past, me, [], [GiveUp(me)], [GiveUp(me)]);
        return LensHolds, flipped, dropped;
      }
      var ok := SetArchived(me);
      GrewTo(p0, p1, past, me, [], [Flip(me)], [Flip(me)]);
      StillThrough(p0, p1, past, me, [Flip(me)], flipped);
      if !ok { return Refused, flipped, dropped; }
      flipped := Now();
      SeenNow(p0, me, [Flip(me)]);
      ghost var p2 := past;
      Yield(me);
      GrewTo(p0, p2, past, me, [Flip(me)], [], [Flip(me)]);
      StillThrough(p0, p2, past, me, [], flipped);
      ghost var p3 := past;
      DropName(me);
      GrewTo(p0, p3, past, me, [Flip(me)], [Drop(me)], [Flip(me), Drop(me)]);
      dropped := Now();
      SeenNow(p0, me, [Flip(me), Drop(me)]);
      StillThrough(p0, p3, past, me, [Drop(me)], flipped);
      r := Done;
    }

    method ArchiveLive(me: CallId, name: Name, inUse: bool) returns (r: Outcome, ghost flipped: State, ghost dropped: State)
      requires Valid() && me !in calls && lock.None? && name in repos
      modifies this
      ensures Valid() && r in {LensHolds, Refused, Done} && me !in calls && (r == LensHolds <==> inUse)
      ensures Grew(old(past), past, me, ArchiveScript(me, name, r))
      ensures r == Refused ==> Through(old(past), past, flipped) && old(repos)[name].uid !in flipped.rows
      ensures r == Done ==>
        Through(old(past), past, flipped) && Through(old(past), past, dropped) &&
        Archived(flipped, dropped, Archive(old(repos)[name], name, Locked))
    {
      hide Apply, Enabled, Own, Run, Took, Valid, Grew, LockedArchiveScript, Archived, Through;
      ghost var p0 := past;
      StartArchiving(me, name);
      ghost var p2 := past;
      r, flipped, dropped := ArchiveLocked(me, inUse);
      GrewThen(p0, p2, past, me, [StartArchive(me, name)], LockedArchiveScript(me, r));
      ArchiveSince(p0, p2, past, me, [StartArchive(me, name)], flipped, dropped);
    }

    /** Shuts a repo down, in one hold of the lock. */
    method ArchiveRepo(me: CallId, name: Name, inUse: bool)
        returns (r: Outcome, ghost found: State, ghost flipped: State, ghost dropped: State)
      requires Valid() && me !in calls
      modifies this
      ensures Valid() && r in {Busy, NotFound, LensHolds, Refused, Done} && me !in calls
      ensures Grew(old(past), past, me, ArchiveScript(me, name, r))
      ensures ArchiveTold(old(past), past, found, flipped, dropped, name, inUse, r)
      ensures old(schedule) == [] ==>
        r == ArchiveOutcome(old(Now()), name, inUse) && ArchiveLeaves(old(Now()), Now(), name, r)
    {
      hide Apply, Enabled, Own, Run, Took, Valid, Grew, LockedArchiveScript, Archived, Through, ArchiveOutcome, ArchiveLeaves, ArchiveTold, ArchiveScript;
      GrewNone(past, me);
      ghost var p0, s0, alone := past, Now(), schedule == [];
      ValidMeans();
      var free := Await(me);
      found, flipped, dropped := Now(), Now(), Now();
      SeenNow(p0, me, []);
      if !free || name !in repos {
        r := if !free then Busy else NotFound;
        ArchiveStops(Now(), me, name, inUse, r);
        EarlyArchive(p0, past, found, flipped, dropped, name, inUse, r);
        return;
      }
      ghost var p1 := past;
      r, flipped, dropped := ArchiveLive(me, name, inUse);
      GrewTo(p0, p1, past, me, [], ArchiveScript(me, name, r), ArchiveScript(me, name, r));
      StillThrough(p0, p1, past, me, ArchiveScript(me, name, r), found);
      ArchiveSince(p0, p1, past, me, [], flipped, dropped);
      BegunArchive(p0, past, found, flipped, dropped, name, inUse, r);
      if alone {
        PlayedAlone(p0, s0, me, ArchiveScript(me, name, r));
        ArchiveAlone(s0, Now(), me, name, inUse, r);
      }
    }

    // ---- Create ----

    method StartCreating(me: CallId, uid: Uid, to: Name)
      requires Valid() && me !in calls && uid !in rows && NewUid(Now(), uid)
      modifies this
      ensures Valid() && Took(StartCreate(me, uid, to)) && Grew(old(past), past, me, [StartCreate(me, uid, to)])
      ensures me in calls && calls[me] == Create(uid, to, Got)
    {
      ghost var was := Now();
      calls := calls[me := Create(uid, to, Got)];
      Record(was, me, StartCreate(me, uid, to));
    }

    /** The row claims the name. */
    method InsertRow(me: CallId) returns (ok: bool)
      requires Valid() && me in calls && calls[me].pc == Cleared && calls[me].Create?
      modifies this
      ensures Valid() && Took(Write(me)) && Grew(old(past), past, me, [Write(me)])
      ensures me in calls && calls[me] == Stage(old(calls)[me], if ok then Written else Ending)
      ensures ok <==> !RowRefuses(old(Now()), old(calls)[me])
    {
      ghost var was := Now();
      var call := calls[me];
      ok := call.uid !in rows && !Taken(rows, call.uid, call.to);
      if ok {
        rows := rows[call.uid := Row(call.to, true)];
      }
      Mark(me, if ok then Written else Ending);
      Record(was, me, Write(me));
    }

    /** Creation failed after the row was written: delete it. */
    method DeleteRow(me: CallId)
      requires Valid() && me in calls && calls[me].pc == Written && calls[me].Create?
      modifies this
      ensures Valid() && Took(GiveUp(me)) && Grew(old(past), past, me, [GiveUp(me)])
      ensures me in calls && calls[me] == Stage(old(calls)[me], Ending) && old(calls)[me].uid !in rows
    {
      ghost var was := Now();
      rows := Without(rows, calls[me].uid);
      Mark(me, Ending);
      Record(was, me, GiveUp(me));
    }

    /** Register the open repo under its name: a new instance. */
    method Register(me: CallId)
      requires Valid() && me in calls && calls[me].pc == Written && (calls[me].Create? || calls[me].Restore?) && lock.None?
      modifies this
      ensures Valid() && Took(Land(me)) && Grew(old(past), past, me, [Land(me)])
      ensures me in calls && calls[me] == Stage(old(calls)[me], Ending)
      ensures var c := old(calls)[me]; c.to in repos && repos[c.to].uid == c.uid && repos[c.to] in shown && shown[repos[c.to]] == c.to
    {
      ghost var was := Now();
      var call := calls[me];
      var inst := Inst(nextId, call.uid);
      repos := repos[call.to := inst];
      shown := shown[inst := call.to];
      nextId := nextId + 1;
      Mark(me, Ending);
      Record(was, me, Land(me));
    }

    /** From the written row on: open it, and register it or take the row back. */
    method FinishCreate(me: CallId, initErr: bool) returns (r: Outcome, ghost seen: State)
      requires Valid() && me in calls && calls[me].pc == Written && calls[me].Create?
      modifies this
      ensures Valid() && r in {BackedOut, StillLanding, Done} && (r == BackedOut <==> initErr)
      ensures Grew(old(past), past, me, LandScript(me, r))
      ensures if r == StillLanding then me in calls && calls[me] == old(calls)[me] && lock.Some? else me !in calls
      ensures Told(old(past), past, seen, old(calls)[me], r)
    {
      hide Apply, Enabled, Own, Run, Took, Valid, Grew, Through, RowRefuses, Landed, Registered, Because, Told;
      ghost var p0 := past;
      var free := Await(me);
      ghost var p1 := past;
      seen := Now();
      SeenNow(p0, me, []);
      if initErr {
        DeleteRow(me);
        GrewTo(p0, p1, past, me, [], [GiveUp(me)], [GiveUp(me)]);
        ghost var p2 := past;
        ReleaseName(me);
        GrewTo(p0, p2, past, me, [GiveUp(me)], [Release(me)], [GiveUp(me), Release(me)]);
        TellFailed(p0, past, seen, old(calls)[me], BackedOut);
        return BackedOut, seen;
      }
      if !free {
        TellWaiting(p0, past, seen, old(calls)[me], StillLanding);
        return StillLanding, seen;
      }
      seen := RegisterAndRelease(me);
      GrewTo(p0, p1, past, me, [], [Land(me), Release(me)], [Land(me), Release(me)]);
      ThroughSince(p0, p1, past, me, [], seen);
      TellRegistered(p0, past, seen, old(calls)[me]);
      r := Done;
    }

    method RegisterAndRelease(me: CallId) returns (ghost landed: State)
      requires Valid() && me in calls && calls[me].pc == Written && (calls[me].Create? || calls[me].Restore?) && lock.None?
      modifies this
      ensures Valid() && Grew(old(past), past, me, [Land(me), Release(me)]) && me !in calls
      ensures Through(old(past), past, landed) && Registered(landed, old(calls)[me])
    {
      hide Apply, Enabled, Own, Run, Took, Valid, Grew, Through, Because, Told;
      ghost var p0 := past;
      Register(me);
      landed := Now();
      SeenNow(p0, me, [Land(me)]);
      ghost var p1 := past;
      Yield(me);
      GrewTo(p0, p1, past, me, [Land(me)], [], [Land(me)]);
      StillThrough(p0, p1, past, me, [], landed);
      ghost var p2 := past;
      ReleaseName(me);
      GrewTo(p0, p2, past, me, [Land(me)], [Release(me)], [Land(me), Release(me)]);
      StillThrough(p0, p2, past, me, [Release(me)], landed);
    }

    /**
     Creates a repo. The name is looked for before anything is reserved, and again after. With nobody in
     between it is done exactly if the name is free everywhere, and otherwise nothing has changed.
    */
    method CreateRepo(me: CallId, uid: Uid, to: Name, lensErr: bool, rowErr: bool, initErr: bool)
        returns (r: Outcome, ghost seen: State)
      requires Valid() && me !in calls
      modifies this
      ensures Valid() && FlagsFit(r, lensErr, rowErr, initErr) && (r in Early() ==> r in {Busy, SeenRepo, SeenLens, NotMinted})
      ensures Grew(old(past), past, me, CreateScript(me, uid, to, r))
      ensures r !in {Waiting, StillLanding} ==> me !in calls
      ensures CreateTold(old(past), past, seen, uid, to, r)
      ensures old(schedule) == [] ==>
        r == CreateOutcome(old(Now()), uid, to, lensErr, rowErr, initErr) && CreateLeaves(old(Now()), Now(), uid, to, r)
    {
      hide Apply, Enabled, Own, Run, Took, Valid, Grew, NewCreateScript, Told, Through, CreateOutcome, CreateLeaves, Because, CreateTold, FlagsFit, Early, CreateScript;
      GrewNone(past, me);
      ghost var p0, s0, alone := past, Now(), schedule == [];
      ValidMeans();
      var free := Await(me);
      seen := Now();
      SeenNow(p0, me, []);
      if !free || to in repos {
        r := if !free then Busy else SeenRepo;
        CreateStops(Now(), me, uid, to, lensErr, rowErr, initErr, r);
        EarlyCreate(p0, past, seen, uid, to, r);
        return;
      }
      ghost var p1 := past;
      Yield(me);
      GrewTo(p0, p1, past, me, [], [], []);
      seen := Now();
      SeenNow(p0, me, []);
      if to in lenses || uid in rows || !NewUid(Now(), uid) {
        r := if to in lenses then SeenLens else NotMinted;
        if alone { CreateStops(Now(), me, uid, to, lensErr, rowErr, initErr, r); }
        CreateEnds(me, uid, to, lensErr, rowErr, initErr, r);
        EarlyCreate(p0, past, seen, uid, to, r);
        return;
      }
      ghost var p2 := past;
      r, seen := CreateMinted(me, uid, to, lensErr, rowErr, initErr);
      GrewTo(p0, p2, past, me, [], CreateScript(me, uid, to, r), CreateScript(me, uid, to, r));
      ToldSince(p0, p2, past, me, [], seen, Create(uid, to, Got), Got, r);
      BegunCreate(p0, past, seen, uid, to, r);
      if alone {
        PlayedAlone(p0, s0, me, CreateScript(me, uid, to, r));
        CreateAlone(s0, Now(), me, uid, to, lensErr, rowErr, initErr, r);
      }
    }

    method CreateMinted(me: CallId, uid: Uid, to: Name, lensErr: bool, rowErr: bool, initErr: bool) returns (r: Outcome, ghost seen: State)
      requires Valid() && me !in calls && uid !in rows && NewUid(Now(), uid)
      modifies this
      ensures Valid() && FlagsFit(r, lensErr, rowErr, initErr)
      ensures r in {InFlight, NameTaken, LensHolds, Erred, Waiting, Failed, Refused, BackedOut, Done, StillLanding} && r !in Early()
      ensures Grew(old(past), past, me, CreateScript(me, uid, to, r))
      ensures if r in {Waiting, StillLanding} then me in calls && lock.Some? else me !in calls
      ensures Told(old(past), past, seen, Create(uid, to, Got), r)
    {
      hide Apply, Enabled, Own, Run, Took, Valid, Grew, NewCreateScript, Told, Through, Because;
      ghost var p0 := past;
      StartCreating(me, uid, to);
      ghost var p3 := past;
      r, seen := CreateNew(me, lensErr, rowErr, initErr);
      GrewThen(p0, p3, past, me, [StartCreate(me, uid, to)], NewCreateScript(me, r));
      ToldSince(p0, p3, past, me, [StartCreate(me, uid, to)], seen, Create(uid, to, Got), Got, r);
    }

    method CreateNew(me: CallId, lensErr: bool, rowErr: bool, initErr: bool) returns (r: Outcome, ghost seen: State)
      requires Valid() && me in calls && calls[me].Create? && calls[me].pc == Got
      modifies this
      ensures Valid() && FlagsFit(r, lensErr, rowErr, initErr)
      ensures r in {InFlight, NameTaken, LensHolds, Erred, Waiting, Failed, Refused, BackedOut, Done, StillLanding}
      ensures Grew(old(past), past, me, NewCreateScript(me, r))
      ensures if r in {Waiting, StillLanding} then me in calls && lock.Some? else me !in calls
      ensures Told(old(past), past, seen, old(calls)[me], r)
    {
      hide Apply, Enabled, Own, Run, Took, Valid, Grew, ClaimScript, LandScript, Through, RowRefuses, Registered, Because, Told;
      ghost var p0 := past;
      r, seen := Claim(me, lensErr);
      if r != Done { return; }
      ghost var p1 := past;
      if rowErr {
        StopAndRelease(me);
        GrewThen(p0, p1, past, me, ClaimScript(me, Done), [GiveUp(me), Release(me)]);
        TellFailed(p0, past, seen, old(calls)[me], Failed);
        return Failed, seen;
      }
      r, seen := CommitCreate(me, initErr);
      GrewTo(p0, p1, past, me, ClaimScript(me, Done), CreatedScript(me, r), NewCreateScript(me, r));
      ToldSince(p0, p1, past, me, ClaimScript(me, Done), seen, old(calls)[me], Cleared, r);
    }

    /** From the claimed name on: the row is written, and the rest. */
    method CommitCreate(me: CallId, initErr: bool) returns (r: Outcome, ghost seen: State)
      requires Valid() && me in calls && calls[me].Create? && calls[me].pc == Cleared
      modifies this
      ensures Valid() && r in {Refused, BackedOut, Done, StillLanding} && FlagsFit(r, false, false, initErr)
      ensures Grew(old(past), past, me, CreatedScript(me, r))
      ensures if r == StillLanding then me in calls && lock.Some? else me !in calls
      ensures Told(old(past), past, seen, old(calls)[me], r)
    {
      hide Apply, Enabled, Own, Run, Took, Valid, Grew, LandScript, Through, RowRefuses, RowElsewhere, Registered, Because, Told;
      ghost var p1 := past;
      seen := Now();
      GrewNone(p1, me);
      SeenNow(p1, me, []);
      var ok := InsertRow(me);
      StillThrough(p1, p1, past, me, [Write(me)], seen);
      ghost var p2 := past;
      if !ok {
        ReleaseName(me);
        GrewThen(p1, p2, past, me, [Write(me)], [Release(me)]);
        StillThrough(p1, p2, past, me, [Release(me)], seen);
        TellRefused(p1, past, seen, old(calls)[me]);
        return Refused, seen;
      }
      r, seen := FinishCreate(me, initErr);
      GrewThen(p1, p2, past, me, [Write(me)], LandScript(me, r));
      ToldSince(p1, p2, past, me, [Write(me)], seen, old(calls)[me], Written, r);
    }

    // ---- Restore ----

    method StartRestoring(me: CallId, uid: Uid, newName: Option<Name>)
      requires Valid() && me !in calls && uid in rows && !rows[uid].active
      modifies this
      ensures Valid() && Took(StartRestore(me, uid, newName)) && Grew(old(past), past, me, [StartRestore(me, uid, newName)])
      ensures var found := old(rows)[uid].name;
        me in calls && calls[me] == Restore(uid, found, if newName.Some? then newName.value else found, Got)
    {
      ghost var was := Now();
      var found := rows[uid].name;
      calls := calls[me := Restore(uid, found, if newName.Some? then newName.value else found, Got)];
      Record(was, me, StartRestore(me, uid, newName));
    }

    /** The archived row takes the target name, if it is another. */
    method RenameArchived(me: CallId) returns (ok: bool)
      requires Valid() && me in calls && calls[me].pc == Cleared && calls[me].Restore?
      modifies this
      ensures Valid() && Took(Write(me)) && Grew(old(past), past, me, [Write(me)])
      ensures me in calls && calls[me] == Stage(old(calls)[me], if ok then Renamed else Ending)
      ensures !ok ==> RowRefuses(old(Now()), old(calls)[me])
    {
      ghost var was := Now();
      var call := calls[me];
      ok := true;
      if call.to != call.found {
        ok := call.uid in rows && !(rows[call.uid].active && Taken(rows, call.uid, call.to));
        if ok {
          rows := rows[call.uid := rows[call.uid].(name := call.to)];
        }
      }
      Mark(me, if ok then Renamed else Ending);
      Record(was, me, Write(me));
    }

    method SetActive(me: CallId) returns (ok: bool)
      requires Valid() && me in calls && calls[me].pc == Renamed && calls[me].Restore?
      modifies this
      ensures Valid() && Took(Activate(me)) && Grew(old(past), past, me, [Activate(me)])
      ensures me in calls && calls[me] == Stage(old(calls)[me], if ok then Written else BackingOut)
      ensures !ok ==> Because(old(Now()), old(calls)[me], NotActivated)
    {
      ghost var was := Now();
      var uid := calls[me].uid;
      ok := uid in rows && !Taken(rows, uid, rows[uid].name);
      if ok {
        rows := rows[uid := rows[uid].(active := true)];
      }
      Mark(me, if ok then Written else BackingOut);
      Record(was, me, Activate(me));
    }

    /** The database would not open: archive the row again. */
    method PutBack(me: CallId)
      requires Valid() && me in calls && calls[me].pc == Written && calls[me].Restore?
      modifies this
      ensures Valid() && Took(GiveUp(me)) && Grew(old(past), past, me, [GiveUp(me)])
      ensures me in calls && calls[me] == Stage(old(calls)[me], BackingOut)
      ensures var u := old(calls)[me].uid; u in rows ==> !rows[u].active
    {
      ghost var was := Now();
      var uid := calls[me].uid;
      if uid in rows {
        rows := rows[uid := rows[uid].(active := false)];
      }
      Mark(me, BackingOut);
      Record(was, me, GiveUp(me));
    }

    /** And give it its name back. */
    method PutNameBack(me: CallId)
      requires Valid() && me in calls && calls[me].pc == BackingOut && calls[me].Restore?
      modifies this
      ensures Valid() && Took(Undo(me)) && Grew(old(past), past, me, [Undo(me)])
      ensures me in calls && calls[me] == Stage(old(calls)[me], Ending)
    {
      ghost var was := Now();
      var call := calls[me];
      if call.to != call.found && call.uid in rows && !(rows[call.uid].active && Taken(rows, call.uid, call.found)) {
        rows := rows[call.uid := rows[call.uid].(name := call.found)];
      }
      Mark(me, Ending);
      Record(was, me, Undo(me));
    }

    method BackOut(me: CallId)
      requires Valid() && me in calls && calls[me].pc == BackingOut && calls[me].Restore?
      modifies this
      ensures Valid() && Grew(old(past), past, me, [Undo(me), Release(me)]) && me !in calls
    {
      hide Apply, Enabled, Own, Run, Took, Valid, Grew;
      ghost var p0 := past;
      Yield(me);
      ghost var p1 := past;
      PutNameBack(me);
      GrewTo(p0, p1, past, me, [], [Undo(me)], [Undo(me)]);
      ghost var p2 := past;
      Yield(me);
      GrewTo(p0, p2, past, me, [Undo(me)], [], [Undo(me)]);
      ghost var p3 := past;
      ReleaseName(me);
      GrewTo(p0, p3, past, me, [Undo(me)], [Release(me)], [Undo(me), Release(me)]);
    }

    /** From the renamed row on: activate it, open it, and register it or put everything back. */
    method FinishRestore(me: CallId, openErr: bool) returns (r: Outcome, ghost seen: State)
      requires Valid() && me in calls && calls[me].pc == Renamed && calls[me].Restore?
      modifies this
      ensures Valid() && r in {NotActivated, BackedOut, StillLanding, Done} && FlagsFit(r, false, false, openErr)
      ensures Grew(old(past), past, me, ActivateScript(me, r))
      ensures if r == StillLanding then me in calls && calls[me] == Stage(old(calls)[me], Written) && lock.Some? else me !in calls
      ensures Told(old(past), past, seen, old(calls)[me], r)
    {
      hide Apply, Enabled, Own, Run, Took, Valid, Grew, Through, RowRefuses, RowElsewhere, Landed, Registered, Because, Told;
      ghost var p0 := past;
      seen := Now();
      GrewNone(p0, me);
      SeenNow(p0, me, []);
      var ok := SetActive(me);
      StillThrough(p0, p0, past, me, [Activate(me)], seen);
      ghost var p1 := past;
      if !ok {
        BackOut(me);
        GrewTo(p0, p1, past, me, [Activate(me)], [Undo(me), Release(me)], [Activate(me), Undo(me), Release(me)]);
        StillThrough(p0, p1, past, me, [Undo(me), Release(me)], seen);
        TellBecause(p0, past, seen, old(calls)[me], NotActivated);
        return NotActivated, seen;
      }
      var free := Await(me);
      GrewTo(p0, p1, past, me, [Activate(me)], [], [Activate(me)]);
      ghost var p2 := past;
      if openErr {
        PutBack(me);
        GrewTo(p0, p2, past, me, [Activate(me)], [GiveUp(me)], [Activate(me), GiveUp(me)]);
        ghost var p3 := past;
        BackOut(me);
        GrewTo(p0, p3, past, me, [Activate(me), GiveUp(me)], [Undo(me), Release(me)], [Activate(me), GiveUp(me), Undo(me), Release(me)]);
        TellFailed(p0, past, seen, old(calls)[me], BackedOut);
        return BackedOut, seen;
      }
      seen := Now();
      SeenNow(p0, me, [Activate(me)]);
      if !free {
        TellWaiting(p0, past, seen, old(calls)[me], StillLanding);
        return StillLanding, seen;
      }
      seen := RegisterAndRelease(me);
      GrewTo(p0, p2, past, me, [Activate(me)], [Land(me), Release(me)], [Activate(me), Land(me), Release(me)]);
      ThroughSince(p0, p2, past, me, [Activate(me)], seen);
      RegisteredAlike(seen, old(calls)[me], Written);
      TellRegistered(p0, past, seen, old(calls)[me]);
      r := Done;
    }

    method RestoreFound(me: CallId, lensErr: bool, rowErr: bool, openErr: bool) returns (r: Outcome, ghost seen: State)
      requires Valid() && me in calls && calls[me].Restore? && calls[me].pc == Got
      modifies this
      ensures Valid() && FlagsFit(r, lensErr, rowErr, openErr)
      ensures r in {InFlight, NameTaken, LensHolds, Erred, Waiting, Failed, Refused, NotActivated, BackedOut, Done, StillLanding}
      ensures Grew(old(past), past, me, FoundScript(me, r))
      ensures if r in {Waiting, StillLanding} then me in calls && lock.Some? else me !in calls
      ensures Told(old(past), past, seen, old(calls)[me], r)
    {
      hide Apply, Enabled, Own, Run, Took, Valid, Grew, ClaimScript, ActivateScript, Through, RowRefuses, RowElsewhere, Registered, Because, Told;
      ghost var p0 := past;
      r, seen := Claim(me, lensErr);
      if r != Done { return; }
      ghost var p1 := past;
      if rowErr {
        StopAndRelease(me);
        GrewThen(p0, p1, past, me, ClaimScript(me, Done), [GiveUp(me), Release(me)]);
        TellFailed(p0, past, seen, old(calls)[me], Failed);
        return Failed, seen;
      }
      r, seen := CommitRestore(me, openErr);
      GrewTo(p0, p1, past, me, ClaimScript(me, Done), RestoredScript(me, r), FoundScript(me, r));
      ToldSince(p0, p1, past, me, ClaimScript(me, Done), seen, old(calls)[me], Cleared, r);
    }

    /** From the claimed name on: the archived row takes it, and the rest. */
    method CommitRestore(me: CallId, openErr: bool) returns (r: Outcome, ghost seen: State)
      requires Valid() && me in calls && calls[me].Restore? && calls[me].pc == Cleared
      modifies this
      ensures Valid() && r in {Refused, NotActivated, BackedOut, Done, StillLanding} && FlagsFit(r, false, false, openErr)
      ensures Grew(old(past), past, me, RestoredScript(me, r))
      ensures if r == StillLanding then me in calls && lock.Some? else me !in calls
      ensures Told(old(past), past, seen, old(calls)[me], r)
    {
      hide Apply, Enabled, Own, Run, Took, Valid, Grew, ActivateScript, Through, RowRefuses, RowElsewhere, Registered, Because, Told;
      ghost var p1 := past;
      seen := Now();
      GrewNone(p1, me);
      SeenNow(p1, me, []);
      var ok := RenameArchived(me);
      StillThrough(p1, p1, past, me, [Write(me)], seen);
      ghost var p2 := past;
      if !ok {
        ReleaseName(me);
        GrewThen(p1, p2, past, me, [Write(me)], [Release(me)]);
        StillThrough(p1, p2, past, me, [Release(me)], seen);
        TellRefused(p1, past, seen, old(calls)[me]);
        return Refused, seen;
      }
      Yield(me);
      GrewTo(p1, p2, past, me, [Write(me)], [], [Write(me)]);
      ghost var p3 := past;
      r, seen := FinishRestore(me, openErr);
      GrewThen(p1, p3, past, me, [Write(me)], ActivateScript(me, r));
      ToldSince(p1, p3, past, me, [Write(me)], seen, old(calls)[me], Renamed, r);
    }

    method RestoreArchived(me: CallId, uid: Uid, newName: Option<Name>, lensErr: bool, rowErr: bool, openErr: bool)
        returns (r: Outcome, ghost seen: State, ghost call: Call)
      requires Valid() && me !in calls && uid in rows && !rows[uid].active
      modifies this
      ensures Valid() && FlagsFit(r, lensErr, rowErr, openErr)
      ensures r in {InFlight, NameTaken, LensHolds, Erred, Waiting, Failed, Refused, NotActivated, BackedOut, Done, StillLanding} && r !in Early()
      ensures Grew(old(past), past, me, RestoreScript(me, uid, newName, r))
      ensures if r in {Waiting, StillLanding} then me in calls && lock.Some? else me !in calls
      ensures var was := old(rows)[uid].name; call == Restore(uid, was, if newName.Some? then newName.value else was, Got)
      ensures Told(old(past), past, seen, call, r)
    {
      hide Apply, Enabled, Own, Run, Took, Valid, Grew, FoundScript, Told, Through, Because;
      ghost var p0 := past;
      StartRestoring(me, uid, newName);
      ghost var p2 := past;
      call := calls[me];
      r, seen := RestoreFound(me, lensErr, rowErr, openErr);
      GrewThen(p0, p2, past, me, [StartRestore(me, uid, newName)], FoundScript(me, r));
      ToldSince(p0, p2, past, me, [StartRestore(me, uid, newName)], seen, call, Got, r);
    }

    /**
     Brings an archived repo back, under its own name or another. With nobody in between it is done
     exactly if the name is free everywhere, and otherwise nothing has changed.
    */
    method RestoreRepo(me: CallId, uid: Uid, newName: Option<Name>, lensErr: bool, rowErr: bool, openErr: bool)
        returns (r: Outcome, ghost found: State, ghost seen: State)
      requires Valid() && me !in calls
      modifies this
      ensures Valid() && FlagsFit(r, lensErr, rowErr, openErr) && (r in Early() ==> r == NotFound)
      ensures Grew(old(past), past, me, RestoreScript(me, uid, newName, r))
      ensures r !in {Waiting, StillLanding} ==> me !in calls
      ensures RestoreTold(old(past), past, found, seen, uid, newName, r)
      ensures old(schedule) == [] ==>
        r == RestoreOutcome(old(Now()), uid, newName, lensErr, rowErr, openErr) && RestoreLeaves(old(Now()), Now(), me, uid, newName, r)
    {
      hide Apply, Enabled, Own, Run, Took, Valid, Grew, FoundScript, Told, Through, RestoreOutcome, RestoreLeaves, Because, RestoreTold, FlagsFit, Early, RestoreScript;
      GrewNone(past, me);
      ghost var p0, s0, alone := past, Now(), schedule == [];
      ValidMeans();
      Yield(me);
      found, seen := Now(), Now();
      SeenNow(p0, me, []);
      if uid !in rows || rows[uid].active {
        r := NotFound;
        RestoreStops(Now(), me, uid, newName, lensErr, rowErr, openErr);
        EarlyRestore(p0, past, found, seen, uid, newName);
        return;
      }
      ghost var p1 := past;
      ghost var call;
      r, seen, call := RestoreArchived(me, uid, newName, lensErr, rowErr, openErr);
      GrewTo(p0, p1, past, me, [], RestoreScript(me, uid, newName, r), RestoreScript(me, uid, newName, r));
      StillThrough(p0, p1, past, me, RestoreScript(me, uid, newName, r), found);
      ToldSince(p0, p1, past, me, [], seen, call, Got, r);
      BegunRestore(p0, past, found, seen, uid, newName, r);
      if alone {
        PlayedAlone(p0, s0, me, RestoreScript(me, uid, newName, r));
        RestoreAlone(s0, Now(), me, uid, newName, lensErr, rowErr, openErr, r);
      }
    }

    // ---- lenses ----

    method StartLensPut(me: CallId, prior: Option<Name>, to: Name)
      requires Valid() && me !in calls
      modifies this
      ensures Valid() && Took(StartLens(me, prior, to)) && Grew(old(past), past, me, [StartLens(me, prior, to)])
      ensures me in calls && calls[me] == LensPut(prior, to, Got)
      ensures repos == old(repos) && lenses == old(lenses) && schedule == old(schedule)
    {
      ghost var was := Now();
      calls := calls[me := LensPut(prior, to, Got)];
      Record(was, me, StartLens(me, prior, to));
    }

    method LockForLens(me: CallId)
      requires Valid() && me in calls && calls[me].pc == Reserved && calls[me].LensPut? && lock.None?
      modifies this
      ensures Valid() && Took(LensLock(me)) && Grew(old(past), past, me, [LensLock(me)])
      ensures me in calls && calls[me] == Stage(old(calls)[me], Locked)
      ensures repos == old(repos) && lenses == old(lenses) && schedule == old(schedule)
    {
      ghost var was := Now();
      lock := Some(me);
      Mark(me, Locked);
      Record(was, me, LensLock(me));
    }

    method LeaveLens(me: CallId)
      requires Valid() && me in calls && calls[me].pc == Locked && calls[me].LensPut?
      modifies this
      ensures Valid() && Took(GiveUp(me)) && Grew(old(past), past, me, [GiveUp(me)])
      ensures me in calls && calls[me] == Stage(old(calls)[me], Ending)
    {
      ghost var was := Now();
      lock := None;
      Mark(me, Ending);
      Record(was, me, GiveUp(me));
    }

    method NoRepo(me: CallId) returns (free: bool)
      requires Valid() && me in calls && calls[me].pc == Locked && calls[me].LensPut?
      modifies this
      ensures Valid() && Took(LensCheck(me)) && Grew(old(past), past, me, [LensCheck(me)])
      ensures me in calls && calls[me] == Stage(old(calls)[me], if free then Checked else Ending)
      ensures free <==> old(calls)[me].to !in old(repos)
      ensures repos == old(repos) && lenses == old(lenses) && schedule == old(schedule)
    {
      ghost var was := Now();
      free := calls[me].to !in repos;
      if !free {
        lock := None;
      }
      Mark(me, if free then Checked else Ending);
      Record(was, me, LensCheck(me));
    }

    method WriteLens(me: CallId) returns (ok: bool)
      requires Valid() && me in calls && calls[me].pc == Checked && calls[me].LensPut?
      modifies this
      ensures Valid() && Took(LensWrite(me)) && Grew(old(past), past, me, [LensWrite(me)])
      ensures me in calls && calls[me] == Stage(old(calls)[me], Ending)
      ensures var c := old(calls)[me]; ok <==> c.to !in old(lenses) && (c.prior.Some? ==> c.prior.value in old(lenses))
      ensures var c := old(calls)[me];
        ok ==> lenses == (if c.prior.Some? then old(lenses) - {c.prior.value} else old(lenses)) + {c.to}
    {
      ghost var was := Now();
      var call := calls[me];
      ok := call.to !in lenses && (call.prior.None? || call.prior.value in lenses);
      if ok {
        lenses := (if call.prior.Some? then lenses - {call.prior.value} else lenses) + {call.to};
      }
      lock := None;
      Mark(me, Ending);
      Record(was, me, LensWrite(me));
    }

    /**
     Names a lens: a new one, or an old one anew. It holds the lock from its look to its write. With
     nobody in between it is named exactly if the name is free everywhere and the old one is there.
    */
    method PutLens(me: CallId, prior: Option<Name>, to: Name, invalid: bool) returns (r: Outcome, ghost seen: State)
      requires Valid() && me !in calls
      modifies this
      ensures Valid() && r in {InFlight, Waiting, NotFound, NoChange, Failed, NameTaken, Refused, Done}
      ensures Grew(old(past), past, me, LensPutScript(me, prior, to, r))
      ensures if r == Waiting then me in calls && calls[me] == LensPut(prior, to, Reserved) else me !in calls
      ensures Through(old(past), past, seen) && LensBecause(seen, prior, to, invalid, r)
      ensures old(schedule) == [] ==>
        r == LensOutcome(old(Now()), prior, to, invalid) && LensLeaves(old(Now()), Now(), me, prior, to, r)
    {
      hide Apply, Enabled, Own, Run, Took, Valid, Grew, LockedScript, Through, LensOutcome, LensLeaves, LensBecause, Because, Told;
      ghost var p0, s0, alone := past, Now(), schedule == [];
      ValidMeans();
      StartLensPut(me, prior, to);
      ghost var p1 := past;
      r, seen := PutStarted(me, invalid);
      ThroughSince(p0, p1, past, me, [StartLens(me, prior, to)], seen);
      GrewTo(p0, p1, past, me, [StartLens(me, prior, to)], PutScript(me, r), LensPutScript(me, prior, to, r));
      if alone {
        PlayedAlone(p0, s0, me, LensPutScript(me, prior, to, r));
        LensAlone(s0, Now(), me, prior, to, invalid, r);
      }
    }

    method PutStarted(me: CallId, invalid: bool) returns (r: Outcome, ghost seen: State)
      requires Valid() && me in calls && calls[me].LensPut? && calls[me].pc == Got
      modifies this
      ensures Valid() && r in {InFlight, Waiting, NotFound, NoChange, Failed, NameTaken, Refused, Done}
      ensures Grew(old(past), past, me, PutScript(me, r))
      ensures if r == Waiting then me in calls && calls[me] == Stage(old(calls)[me], Reserved) && lock.Some? else me !in calls
      ensures Through(old(past), past, seen) && LensBecause(seen, old(calls)[me].prior, old(calls)[me].to, invalid, r)
      ensures old(schedule) == [] && r !in {InFlight, Waiting} ==>
        r == LockedOutcome(old(lenses), old(repos).Keys, old(calls)[me].prior, old(calls)[me].to, invalid)
    {
      hide Apply, Enabled, Own, Run, Took, Valid, Grew, LockedScript, Through, LockedOutcome, LensNamed, Because, Told;
      ghost var p0 := past;
      Yield(me);
      ghost var p2 := past;
      seen := Now();
      SeenNow(p0, me, []);
      var ok := ReserveName(me);
      GrewTo(p0, p2, past, me, [], [Reserve(me)], [Reserve(me)]);
      StillThrough(p0, p2, past, me, [Reserve(me)], seen);
      if !ok { return InFlight, seen; }
      ghost var p3 := past;
      var free := Await(me);
      GrewTo(p0, p3, past, me, [Reserve(me)], [], [Reserve(me)]);
      seen := Now();
      SeenNow(p0, me, [Reserve(me)]);
      if !free { return Waiting, seen; }
      hide LensBecause;
      ghost var p4 := past;
      r, seen := PutLocked(me, invalid);
      GrewThen(p0, p4, past, me, [Reserve(me)], LockedScript(me, r));
      ThroughSince(p0, p4, past, me, [Reserve(me)], seen);
    }

    method PutLocked(me: CallId, invalid: bool) returns (r: Outcome, ghost seen: State)
      requires Valid() && me in calls && calls[me].LensPut? && calls[me].pc == Reserved && lock.None?
      modifies this
      ensures Valid() && me !in calls && r in {NotFound, NoChange, Failed, NameTaken, Refused, Done}
      ensures Grew(old(past), past, me, LockedScript(me, r))
      ensures Through(old(past), past, seen) && LensBecause(seen, old(calls)[me].prior, old(calls)[me].to, invalid, r)
      ensures old(schedule) == [] ==> r == LockedOutcome(old(lenses), old(repos).Keys, old(calls)[me].prior, old(calls)[me].to, invalid)
    {
      hide Apply, Enabled, Own, Run, Took, Valid, Grew, Through, LensNamed, Because, Told;
      ghost var p0 := past;
      LockForLens(me);
      var call := calls[me];
      ghost var p1 := past;
      if (call.prior.Some? && (call.prior.value !in lenses || call.prior.value == call.to)) || (call.prior.None? && invalid) {
        r := if call.prior.None? then Failed else if call.prior.value !in lenses then NotFound else NoChange;
        seen := Now();
        SeenNow(p0, me, [LensLock(me)]);
        LeaveAndRelease(me);
        GrewTo(p0, p1, past, me, [LensLock(me)], [GiveUp(me), Release(me)], [LensLock(me), GiveUp(me), Release(me)]);
        StillThrough(p0, p1, past, me, [GiveUp(me), Release(me)], seen);
        return;
      }
      r, seen := PutChecked(me);
      GrewTo(p0, p1, past, me, [LensLock(me)], CheckedScript(me, r), LockedScript(me, r));
      ThroughSince(p0, p1, past, me, [LensLock(me)], seen);
    }

    method LeaveAndRelease(me: CallId)
      requires Valid() && me in calls && calls[me].LensPut? && calls[me].pc == Locked
      modifies this
      ensures Valid() && me !in calls && Grew(old(past), past, me, [GiveUp(me), Release(me)])
    {
      hide Apply, Enabled, Own, Run, Took, Valid, Grew;
      ghost var p1 := past;
      LeaveLens(me);
      ghost var p2 := past;
      ReleaseName(me);
      GrewTo(p1, p2, past, me, [GiveUp(me)], [Release(me)], [GiveUp(me), Release(me)]);
    }

    /** Still under the lock: the look for a repo of the name, and the write. */
    method PutChecked(me: CallId) returns (r: Outcome, ghost seen: State)
      requires Valid() && me in calls && calls[me].LensPut? && calls[me].pc == Locked
      modifies this
      ensures Valid() && me !in calls && r in {NameTaken, Refused, Done}
      ensures Grew(old(past), past, me, CheckedScript(me, r))
      ensures Through(old(past), past, seen) && LensBecause(seen, old(calls)[me].prior, old(calls)[me].to, false, r)
      ensures old(schedule) == [] ==> var c := old(calls)[me];
        r == if c.to in old(repos) then NameTaken
             else if c.to in old(lenses) || (c.prior.Some? && c.prior.value !in old(lenses)) then Refused else Done
    {
      hide Apply, Enabled, Own, Run, Took, Valid, Grew, Through, LensNamed, Because, Told;
      ghost var p3 := past;
      seen := Now();
      GrewNone(p3, me);
      SeenNow(p3, me, []);
      var ok := NoRepo(me);
      StillThrough(p3, p3, past, me, [LensCheck(me)], seen);
      ghost var p4 := past;
      Yield(me);
      GrewTo(p3, p4, past, me, [LensCheck(me)], [], [LensCheck(me)]);
      StillThrough(p3, p4, past, me, [], seen);
      ghost var p5 := past;
      if !ok {
        ReleaseName(me);
        GrewTo(p3, p5, past, me, [LensCheck(me)], [Release(me)], [LensCheck(me), Release(me)]);
        StillThrough(p3, p5, past, me, [Release(me)], seen);
        return NameTaken, seen;
      }
      ok, seen := PutWritten(me);
      GrewTo(p3, p5, past, me, [LensCheck(me)], [LensWrite(me), Release(me)], [LensCheck(me), LensWrite(me), Release(me)]);
      ThroughSince(p3, p5, past, me, [LensCheck(me)], seen);
      r := if ok then Done else Refused;
    }

    method PutWritten(me: CallId) returns (ok: bool, ghost seen: State)
      requires Valid() && me in calls && calls[me].pc == Checked && calls[me].LensPut?
      modifies this
      ensures Valid() && Grew(old(past), past, me, [LensWrite(me), Release(me)]) && me !in calls
      ensures Through(old(past), past, seen)
      ensures var c := old(calls)[me]; ok <==> c.to !in old(lenses) && (c.prior.Some? ==> c.prior.value in old(lenses))
      ensures LensBecause(seen, old(calls)[me].prior, old(calls)[me].to, false, if ok then Done else Refused)
    {
      hide Apply, Enabled, Own, Run, Took, Valid, Grew, Through, Because, Told;
      ghost var p0 := past;
      seen := Now();
      GrewNone(p0, me);
      SeenNow(p0, me, []);
      ok := WriteLens(me);
      StillThrough(p0, p0, past, me, [LensWrite(me)], seen);
      if ok {
        seen := Now();
        SeenNow(p0, me, [LensWrite(me)]);
      }
      ghost var p1 := past;
      Yield(me);
      GrewTo(p0, p1, past, me, [LensWrite(me)], [], [LensWrite(me)]);
      StillThrough(p0, p1, past, me, [], seen);
      ghost var p2 := past;
      ReleaseName(me);
      StillThrough(p0, p2, past, me, [Release(me)], seen);
      GrewTo(p0, p2, past, me, [LensWrite(me)], [Release(me)], [LensWrite(me), Release(me)]);
    }

    lemma SeenNow(a: Past, me: CallId, steps: seq<Step>)
      requires Valid() && Grew(a, past, me, steps)
      ensures Through(a, past, Now())
    {
      assert past.states[|past.log|] == Now();
    }
  }

  lemma ArchiveSince(a: Past, b: Past, c: Past, me: CallId, steps: seq<Step>, flipped: State, dropped: State)
    requires Grew(a, b, me, steps)
    ensures Through(b, c, flipped) ==> Through(a, c, flipped)
    ensures Through(b, c, dropped) ==> Through(a, c, dropped)
  {
    hide Through, Grew;
    if Through(b, c, flipped) { ThroughSince(a, b, c, me, steps, flipped); }
    if Through(b, c, dropped) { ThroughSince(a, b, c, me, steps, dropped); }
  }

  // ---- what every execution inherits ----

  /** Whatever the manager has been through, no live repo ever shared a name with a lens. */
  lemma ManagerNamesApart(m: Manager)
    requires m.Valid() && Idle(m.past.states[0]) && Disjoint(m.past.states[0])
    ensures forall s :: s in m.past.states ==> Disjoint(s)
    ensures Disjoint(m.Now())
  {
    NoSharedNames(m.past.states, m.past.log);
    assert m.past.states[|m.past.log|] in m.past.states;
  }

  /** And when no call is under way, the map, the instances and the registry agree, given orderly calls. */
  lemma ManagerNamesAgree(m: Manager)
    requires m.Valid() && OrderlyRun(m.past.states, m.past.log)
    requires Idle(m.past.states[0]) && AllNamesAgree(m.past.states[0]) && OldIds(m.past.states[0])
    ensures MapAgrees(m.Now()) && (m.calls == map[] ==> AllNamesAgree(m.Now()))
  {
    NamesAgree(m.past.states, m.past.log);
    assert m.past.states[|m.past.log|] in m.past.states;
  }
}
