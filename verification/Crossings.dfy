/**
 What agreement of names needs: a run for each clause of the Orderly condition that breaks it and
 ends with no call under way and the registry and the live map apart (internal/repos/lifecycle.go).
 They start from any quiet state in which the names they use are free.
*/
module Crossings {
  import opened Wrappers
  import opened Lifecycle
  import opened Agreement

  /** Taking the steps one after another leads from s to s'. */
  ghost predicate Plays(s: State, steps: seq<Step>, s': State)
    decreases |steps|
  {
    if steps == [] then s' == s
    else Enabled(s, steps[0]) && Plays(Apply(s, steps[0]), steps[1..], s')
  }

  lemma {:induction false} PlaysThen(s: State, first: seq<Step>, m: State, next: seq<Step>, s': State)
    requires Plays(s, first, m) && Plays(m, next, s')
    ensures Plays(s, first + next, s')
    decreases |first|
  {
    if first == [] {
      assert first + next == next;
    } else {
      assert (first + next)[0] == first[0] && (first + next)[1..] == first[1..] + next;
      PlaysThen(Apply(s, first[0]), first[1..], m, next, s');
    }
  }

  lemma {:induction false} PlaysIsRun(s: State, steps: seq<Step>, s': State) returns (states: seq<State>)
    requires Plays(s, steps, s')
    ensures Run(states, steps) && states[0] == s && states[|steps|] == s'
    decreases |steps|
  {
    if steps == [] {
      states := [s];
    } else {
      hide Enabled, Apply;
      var rest := PlaysIsRun(Apply(s, steps[0]), steps[1..], s');
      states := [s] + rest;
      forall i | 0 <= i < |steps|
        ensures StepTo(states[i], steps[i], states[i + 1])
      {
        if i > 0 { assert StepTo(rest[i - 1], steps[1..][i - 1], rest[i]); }
      }
    }
  }

  lemma {:induction false} ChainPlays(states: seq<State>, steps: seq<Step>)
    requires Run(states, steps)
    ensures Plays(states[0], steps, states[|steps|])
    decreases |steps|
  {
    if steps != [] {
      assert StepTo(states[0], steps[0], states[1]);
      hide Enabled, Apply;
      forall i | 0 <= i < |steps| - 1
        ensures StepTo(states[1..][i], steps[1..][i], states[1..][i + 1])
      {
        assert StepTo(states[i + 1], steps[i + 1], states[i + 2]);
      }
      ChainPlays(states[1..], steps[1..]);
    }
  }

  function WriteSteps(c: CallId, from: Name, to: Name): seq<Step> {
    [StartRename(c, from, to)] + [Reserve(c), CheckFree(c), CheckLens(c), Write(c)]
  }

  function RenameSteps(c: CallId, from: Name, to: Name): seq<Step> {
    WriteSteps(c, from, to) + [Land(c), Release(c)]
  }

  /** A rename's call at a stage, in a state. */
  function With(s: State, c: CallId, inst: Inst, from: Name, to: Name, pc: Pc): State {
    s.(calls := s.calls[c := Rename(inst, from, to, pc)], reserved := if pc == Got then s.reserved else s.reserved + {to})
  }

  predicate RowMovable(s: State, c: CallId, inst: Inst, from: Name, to: Name) {
    && c !in s.calls && s.lock.None? && inst.uid in s.rows && s.rows[inst.uid] == Row(from, true)
    && to !in s.repos && to !in s.lenses && to !in s.reserved && !Taken(s.rows, inst.uid, to)
  }

  lemma StalledChecks(s: State, c: CallId, inst: Inst, from: Name, to: Name)
    requires RowMovable(s, c, inst, from, to)
    ensures StepTo(With(s, c, inst, from, to, Got), Reserve(c), With(s, c, inst, from, to, Reserved))
    ensures StepTo(With(s, c, inst, from, to, Reserved), CheckFree(c), With(s, c, inst, from, to, Checked))
  {
    hide Taken;
  }

  lemma StalledLensCheck(s: State, c: CallId, inst: Inst, from: Name, to: Name)
    requires RowMovable(s, c, inst, from, to)
    ensures StepTo(With(s, c, inst, from, to, Checked), CheckLens(c), With(s, c, inst, from, to, Cleared))
  {
    hide Taken;
  }

  lemma StalledWrite(s: State, c: CallId, inst: Inst, from: Name, to: Name)
    requires RowMovable(s, c, inst, from, to)
    ensures StepTo(With(s, c, inst, from, to, Cleared), Write(c),
                   With(s.(rows := s.rows[inst.uid := Row(to, true)]), c, inst, from, to, Written))
  {
    hide Taken;
    assert CasName(s.rows, inst.uid, from, to) == (s.rows[inst.uid := Row(to, true)], true);
  }

  // A rename that stalled before it reserved its name writes the row whenever the row's name is
  // the one it started from, wherever the live map has the repo by then.
  lemma StalledWrites(s: State, c: CallId, inst: Inst, from: Name, to: Name)
    requires RowMovable(s, c, inst, from, to)
    ensures Plays(With(s, c, inst, from, to, Got), [Reserve(c), CheckFree(c), CheckLens(c), Write(c)],
                  With(s.(rows := s.rows[inst.uid := Row(to, true)]), c, inst, from, to, Written))
  {
    StalledChecks(s, c, inst, from, to);
    StalledLensCheck(s, c, inst, from, to);
    StalledWrite(s, c, inst, from, to);
    hide StepTo;
    ChainPlays([With(s, c, inst, from, to, Got), With(s, c, inst, from, to, Reserved),
                With(s, c, inst, from, to, Checked), With(s, c, inst, from, to, Cleared),
                With(s.(rows := s.rows[inst.uid := Row(to, true)]), c, inst, from, to, Written)],
               [Reserve(c), CheckFree(c), CheckLens(c), Write(c)]);
  }

  predicate Uncontended(s: State, c: CallId, inst: Inst, from: Name, to: Name) {
    RowMovable(s, c, inst, from, to) && from != to && from in s.repos && s.repos[from] == inst
  }

  function AfterRename(s: State, inst: Inst, from: Name, to: Name): State {
    s.(rows := s.rows[inst.uid := Row(to, true)], repos := Without(s.repos, from)[to := inst], shown := s.shown[inst := to])
  }

  lemma StartsUncontended(s: State, c: CallId, inst: Inst, from: Name, to: Name)
    requires Uncontended(s, c, inst, from, to)
    ensures Plays(s, [StartRename(c, from, to)], With(s, c, inst, from, to, Got))
  {
    hide Taken;
    assert StepTo(s, StartRename(c, from, to), With(s, c, inst, from, to, Got));
    ChainPlays([s, With(s, c, inst, from, to, Got)], [StartRename(c, from, to)]);
  }

  lemma ReleasingAlone(s: State, c: CallId, inst: Inst, from: Name, to: Name)
    requires c !in s.calls && to !in s.reserved
    ensures StepTo(With(s, c, inst, from, to, Ending), Release(c), s)
  {
    assert Without(With(s, c, inst, from, to, Ending).calls, c) == s.calls;
    assert s.reserved + {to} - {to} == s.reserved;
  }

  // A rename that has written lands in the live map whatever the row has become since.
  lemma LandsLate(s: State, c: CallId, inst: Inst, from: Name, to: Name)
    requires c !in s.calls && s.lock.None? && to !in s.reserved
    requires from in s.repos && s.repos[from] == inst && to !in s.repos
    ensures Plays(With(s, c, inst, from, to, Written), [Land(c), Release(c)],
                  s.(repos := Without(s.repos, from)[to := inst], shown := s.shown[inst := to]))
  {
    var landed := s.(repos := Without(s.repos, from)[to := inst], shown := s.shown[inst := to]);
    assert StepTo(With(s, c, inst, from, to, Written), Land(c), With(landed, c, inst, from, to, Ending));
    ReleasingAlone(landed, c, inst, from, to);
    hide StepTo;
    ChainPlays([With(s, c, inst, from, to, Written), With(landed, c, inst, from, to, Ending), landed], [Land(c), Release(c)]);
  }

  lemma WrittenAlone(s: State, c: CallId, inst: Inst, from: Name, to: Name)
    requires Uncontended(s, c, inst, from, to)
    ensures Plays(s, WriteSteps(c, from, to),
                  With(s.(rows := s.rows[inst.uid := Row(to, true)]), c, inst, from, to, Written))
  {
    StartsUncontended(s, c, inst, from, to);
    StalledWrites(s, c, inst, from, to);
    hide Plays;
    PlaysThen(s, [StartRename(c, from, to)], With(s, c, inst, from, to, Got), [Reserve(c), CheckFree(c), CheckLens(c), Write(c)],
      With(s.(rows := s.rows[inst.uid := Row(to, true)]), c, inst, from, to, Written));
  }

  // A rename nobody contends moves row, map entry and shown name together and leaves nothing held.
  lemma RenameAlone(s: State, c: CallId, inst: Inst, from: Name, to: Name)
    requires Uncontended(s, c, inst, from, to)
    ensures Plays(s, RenameSteps(c, from, to), AfterRename(s, inst, from, to))
  {
    var wrote := s.(rows := s.rows[inst.uid := Row(to, true)]);
    WrittenAlone(s, c, inst, from, to);
    LandsLate(wrote, c, inst, from, to);
    hide Plays;
    PlaysThen(s, WriteSteps(c, from, to),
      With(wrote, c, inst, from, to, Written), [Land(c), Release(c)], AfterRename(s, inst, from, to));
  }

  // ---------- archives and late renames, uncontended ----------

  lemma ArchiveAlone(s: State, c: CallId, name: Name)
    requires c !in s.calls && s.lock.None? && name in s.repos && s.repos[name].uid in s.rows
    ensures var uid := s.repos[name].uid;
            Plays(s, [StartArchive(c, name), Flip(c), Drop(c)],
                  s.(rows := s.rows[uid := s.rows[uid].(active := false)], repos := Without(s.repos, name)))
  {
    var inst := s.repos[name];
    var s1 := s.(calls := s.calls[c := Archive(inst, name, Locked)], lock := Some(c));
    var s2 := s.(calls := s.calls[c := Archive(inst, name, Written)], lock := Some(c),
                 rows := s.rows[inst.uid := s.rows[inst.uid].(active := false)]);
    var s3 := s.(rows := s2.rows, repos := Without(s.repos, name));
    assert StepTo(s, StartArchive(c, name), s1);
    assert StepTo(s1, Flip(c), s2) by { hide Taken; }
    assert StepTo(s2, Drop(c), s3) by { assert Without(s2.calls, c) == s.calls; }
    hide StepTo;
    ChainPlays([s, s1, s2, s3], [StartArchive(c, name), Flip(c), Drop(c)]);
  }

  // A rename whose entry is gone puts the row's name back, if it is still its own, and lets go.
  lemma UndoneAlone(s: State, c: CallId, inst: Inst, from: Name, to: Name)
    requires c !in s.calls && s.lock.None? && to !in s.reserved && from !in s.repos
    ensures Plays(With(s, c, inst, from, to, Written), [Land(c), Undo(c), Release(c)],
                  s.(rows := CasName(s.rows, inst.uid, to, from).0))
  {
    var back := s.(rows := CasName(s.rows, inst.uid, to, from).0);
    assert StepTo(With(s, c, inst, from, to, Written), Land(c), With(s, c, inst, from, to, Reverting));
    assert StepTo(With(s, c, inst, from, to, Reverting), Undo(c), With(back, c, inst, from, to, Ending)) by { hide CasName; }
    ReleasingAlone(back, c, inst, from, to);
    hide StepTo;
    ChainPlays([With(s, c, inst, from, to, Written), With(s, c, inst, from, to, Reverting),
                With(back, c, inst, from, to, Ending), back], [Land(c), Undo(c), Release(c)]);
  }

  // ---------- a restore that crosses a rename ----------

  /** A restore under the name it read, at a stage. */
  function Bring(s: State, c: CallId, uid: Uid, found: Name, pc: Pc): State {
    s.(calls := s.calls[c := Restore(uid, found, found, pc)], reserved := if pc == Got then s.reserved else s.reserved + {found})
  }

  function AfterRestore(s: State, uid: Uid, found: Name): State
    requires uid in s.rows
  {
    s.(rows := s.rows[uid := s.rows[uid].(active := true)], repos := s.repos[found := Inst(s.nextId, uid)],
       shown := s.shown[Inst(s.nextId, uid) := found], nextId := s.nextId + 1)
  }

  predicate Restorable(s: State, c: CallId, uid: Uid, found: Name) {
    && c !in s.calls && s.lock.None? && uid in s.rows && !s.rows[uid].active && !Taken(s.rows, uid, s.rows[uid].name)
    && found !in s.repos && found !in s.lenses && found !in s.reserved
  }

  lemma RestoreReserves(s: State, c: CallId, uid: Uid, found: Name)
    requires Restorable(s, c, uid, found)
    ensures StepTo(Bring(s, c, uid, found, Got), Reserve(c), Bring(s, c, uid, found, Reserved))
    ensures StepTo(Bring(s, c, uid, found, Reserved), CheckFree(c), Bring(s, c, uid, found, Checked))
  {
    hide Taken;
  }

  lemma RestoreChecks(s: State, c: CallId, uid: Uid, found: Name)
    requires Restorable(s, c, uid, found)
    ensures StepTo(Bring(s, c, uid, found, Checked), CheckLens(c), Bring(s, c, uid, found, Cleared))
    ensures StepTo(Bring(s, c, uid, found, Cleared), Write(c), Bring(s, c, uid, found, Lifecycle.Renamed))
  {
    hide Taken;
  }

  lemma RestoreActivates(s: State, c: CallId, uid: Uid, found: Name)
    requires Restorable(s, c, uid, found)
    ensures StepTo(Bring(s, c, uid, found, Lifecycle.Renamed), Activate(c),
                   Bring(s.(rows := s.rows[uid := s.rows[uid].(active := true)]), c, uid, found, Written))
  {
    hide Taken;
  }

  lemma RestoreLands(s: State, c: CallId, uid: Uid, found: Name)
    requires Restorable(s, c, uid, found)
    ensures StepTo(Bring(s.(rows := s.rows[uid := s.rows[uid].(active := true)]), c, uid, found, Written), Land(c),
                   Bring(AfterRestore(s, uid, found), c, uid, found, Ending))
  {
    hide Taken;
  }

  lemma RestoreReleases(s: State, c: CallId, uid: Uid, found: Name)
    requires c !in s.calls && found !in s.reserved
    ensures StepTo(Bring(s, c, uid, found, Ending), Release(c), s)
  {
    assert Without(Bring(s, c, uid, found, Ending).calls, c) == s.calls;
    assert s.reserved + {found} - {found} == s.reserved;
  }

  // A restore that read the name `found` activates the row under the name the row has by then,
  // and enters the repo under the one it read.
  lemma RestoreAlone(s: State, c: CallId, uid: Uid, found: Name)
    requires Restorable(s, c, uid, found)
    ensures Plays(Bring(s, c, uid, found, Got),
                  [Reserve(c), CheckFree(c), CheckLens(c), Write(c), Activate(c), Land(c), Release(c)],
                  AfterRestore(s, uid, found))
  {
    var on := s.(rows := s.rows[uid := s.rows[uid].(active := true)]);
    var done := AfterRestore(s, uid, found);
    RestoreReserves(s, c, uid, found);
    RestoreChecks(s, c, uid, found);
    RestoreActivates(s, c, uid, found);
    RestoreLands(s, c, uid, found);
    RestoreReleases(done, c, uid, found);
    hide StepTo, AfterRestore, Restorable, Bring;
    ChainPlays([Bring(s, c, uid, found, Got), Bring(s, c, uid, found, Reserved), Bring(s, c, uid, found, Checked),
                Bring(s, c, uid, found, Cleared), Bring(s, c, uid, found, Lifecycle.Renamed), Bring(on, c, uid, found, Written),
                Bring(done, c, uid, found, Ending), done],
               [Reserve(c), CheckFree(c), CheckLens(c), Write(c), Activate(c), Land(c), Release(c)]);
  }

  function LateSteps(uid: Uid): seq<Step> {
    [StartRestore(2, uid, None)] + ([Land(1), Undo(1), Release(1)]
    + [Reserve(2), CheckFree(2), CheckLens(2), Write(2), Activate(2), Land(2), Release(2)])
  }

  function RestoreCrossing(a: Name, b: Name, uid: Uid): seq<Step> {
    WriteSteps(1, a, b) + [StartArchive(2, a), Flip(2), Drop(2)] + LateSteps(uid)
  }

  lemma StartsAlone(gone: State, inst: Inst, a: Name, b: Name)
    requires 2 !in gone.calls && inst.uid in gone.rows && gone.rows[inst.uid] == Row(b, false)
    ensures Plays(With(gone, 1, inst, a, b, Written), [StartRestore(2, inst.uid, None)],
                  With(gone.(calls := gone.calls[2 := Restore(inst.uid, b, b, Got)]), 1, inst, a, b, Written))
  {
    var s := With(gone, 1, inst, a, b, Written);
    var s' := With(gone.(calls := gone.calls[2 := Restore(inst.uid, b, b, Got)]), 1, inst, a, b, Written);
    assert s.calls[2 := Restore(inst.uid, b, b, Got)] == s'.calls;
    assert StepTo(s, StartRestore(2, inst.uid, None), s');
    ChainPlays([s, s'], [StartRestore(2, inst.uid, None)]);
  }

  // From any quiet state with a live repo under a and a free name b: rename a -> b, archived
  // before it lands; a restore reads b, the rename puts the row back to a; the repo ends live
  // under b with its active row named a, and no call is left to put that right.
  lemma RestoreCrossesRename(s: State, inst: Inst, a: Name, b: Name)
    requires Idle(s) && AllNamesAgree(s) && Uncontended(s, 1, inst, a, b)
    ensures exists s' ::
              && Plays(s, RestoreCrossing(a, b, inst.uid), s') && Idle(s')
              && b in s'.repos && s'.repos[b].uid == inst.uid && inst.uid in s'.rows && s'.rows[inst.uid] == Row(a, true)
              && !AllNamesAgree(s')
  {
    var back := s.(rows := s.rows[inst.uid := Row(a, false)], repos := Without(s.repos, a));
    var s' := AfterRestore(back, inst.uid, b);
    assert !Taken(s.rows, inst.uid, a);
    RestoreCrossingPlays(s, inst, a, b);
    assert s'.repos[b] == Inst(s.nextId, inst.uid) && s'.rows[inst.uid] == Row(a, true);
    hide Plays;
    assert !AllNamesAgree(s') by { assert s'.rows[s'.repos[b].uid] != Row(b, true); }
  }

  lemma RestoreCrossingPlays(s: State, inst: Inst, a: Name, b: Name)
    requires Idle(s) && Uncontended(s, 1, inst, a, b) && !Taken(s.rows, inst.uid, a)
    ensures Plays(s, RestoreCrossing(a, b, inst.uid),
                  AfterRestore(s.(rows := s.rows[inst.uid := Row(a, false)], repos := Without(s.repos, a)), inst.uid, b))
  {
    var gone := s.(rows := s.rows[inst.uid := Row(b, false)], repos := Without(s.repos, a));
    var back := s.(rows := s.rows[inst.uid := Row(a, false)], repos := Without(s.repos, a));
    ArchivedMidRename(s, inst, a, b);
    assert !Taken(back.rows, inst.uid, a);
    RestoredMidRename(gone, inst, a, b);
    hide Plays, With;
    PlaysThen(s, WriteSteps(1, a, b) + [StartArchive(2, a), Flip(2), Drop(2)], With(gone, 1, inst, a, b, Written),
      LateSteps(inst.uid), AfterRestore(gone.(rows := gone.rows[inst.uid := Row(a, false)]), inst.uid, b));
    assert gone.(rows := gone.rows[inst.uid := Row(a, false)]) == back;
  }

  lemma ArchivedMidRename(s: State, inst: Inst, a: Name, b: Name)
    requires Idle(s) && Uncontended(s, 1, inst, a, b)
    ensures Plays(s, WriteSteps(1, a, b) + [StartArchive(2, a), Flip(2), Drop(2)],
                  With(s.(rows := s.rows[inst.uid := Row(b, false)], repos := Without(s.repos, a)), 1, inst, a, b, Written))
  {
    var wrote := s.(rows := s.rows[inst.uid := Row(b, true)]);
    var gone := s.(rows := s.rows[inst.uid := Row(b, false)], repos := Without(s.repos, a));
    WrittenAlone(s, 1, inst, a, b);
    ArchiveAlone(With(wrote, 1, inst, a, b, Written), 2, a);
    assert wrote.rows[inst.uid := wrote.rows[inst.uid].(active := false)] == gone.rows;
    hide Plays;
    PlaysThen(s, WriteSteps(1, a, b), With(wrote, 1, inst, a, b, Written),
      [StartArchive(2, a), Flip(2), Drop(2)], With(gone, 1, inst, a, b, Written));
  }

  lemma RestoredMidRename(gone: State, inst: Inst, a: Name, b: Name)
    requires Idle(gone) && inst.uid in gone.rows && gone.rows[inst.uid] == Row(b, false) && a !in gone.repos
    requires Restorable(gone.(rows := gone.rows[inst.uid := Row(a, false)]), 2, inst.uid, b)
    ensures Plays(With(gone, 1, inst, a, b, Written), LateSteps(inst.uid),
                  AfterRestore(gone.(rows := gone.rows[inst.uid := Row(a, false)]), inst.uid, b))
  {
    var found := gone.(calls := gone.calls[2 := Restore(inst.uid, b, b, Got)]);
    var back := gone.(rows := gone.rows[inst.uid := Row(a, false)]);
    StartsAlone(gone, inst, a, b);
    UndoneAlone(found, 1, inst, a, b);
    assert found.(rows := found.rows[inst.uid := Row(a, false)]) == Bring(back, 2, inst.uid, b, Got);
    RestoreAlone(back, 2, inst.uid, b);
    hide Plays, AfterRestore, With, Bring, Restorable;
    PlaysThen(With(found, 1, inst, a, b, Written), [Land(1), Undo(1), Release(1)], Bring(back, 2, inst.uid, b, Got),
      [Reserve(2), CheckFree(2), CheckLens(2), Write(2), Activate(2), Land(2), Release(2)], AfterRestore(back, inst.uid, b));
    PlaysThen(With(gone, 1, inst, a, b, Written), [StartRestore(2, inst.uid, None)], With(found, 1, inst, a, b, Written),
      [Land(1), Undo(1), Release(1)] + [Reserve(2), CheckFree(2), CheckLens(2), Write(2), Activate(2), Land(2), Release(2)],
      AfterRestore(back, inst.uid, b));
  }

  // ---------- renames that chase each other ----------

  lemma WithCommutes(s: State, c: CallId, d: CallId, inst: Inst, from: Name, to: Name, pc: Pc, from2: Name, to2: Name, pc2: Pc)
    requires c != d
    ensures With(With(s, c, inst, from, to, pc), d, inst, from2, to2, pc2)
         == With(With(s, d, inst, from2, to2, pc2), c, inst, from, to, pc)
  {
    assert s.calls[c := Rename(inst, from, to, pc)][d := Rename(inst, from2, to2, pc2)]
        == s.calls[d := Rename(inst, from2, to2, pc2)][c := Rename(inst, from, to, pc)];
    assert s.reserved + {to} + {to2} == s.reserved + {to2} + {to};
  }

  /** A quiet state with the repo live under a, and three more names free. */
  predicate Quiet(s: State, inst: Inst, a: Name, names: set<Name>) {
    && s.calls == map[] && s.lock.None? && s.reserved == {}
    && a in s.repos && s.repos[a] == inst && inst.uid in s.rows && s.rows[inst.uid] == Row(a, true)
    && !Taken(s.rows, inst.uid, a)
    && forall n :: n in names ==> n != a && n !in s.repos && n !in s.lenses && !Taken(s.rows, inst.uid, n)
  }

  lemma TakenElsewhere(rows: map<Uid, Row>, uid: Uid, row: Row, n: Name)
    ensures Taken(rows[uid := row], uid, n) == Taken(rows, uid, n)
  {
    assert forall u :: u != uid ==> (u in rows[uid := row] <==> u in rows);
  }

  // Two renames stall: one from a, one from b, where the repo was in turn; it is now under z.
  lemma TwoStalled(s: State, inst: Inst, a: Name, b: Name, d: Name, z: Name)
    requires Quiet(s, inst, a, {b, d, z}) && a !in s.lenses && b != d && b != z && d != z
    ensures var now := AfterRename(AfterRename(s, inst, a, b), inst, b, z);
            Plays(s, [StartRename(1, a, b)] + (RenameSteps(9, a, b) + ([StartRename(2, b, d)] + RenameSteps(9, b, z))),
                  With(With(now, 1, inst, a, b, Got), 2, inst, b, d, Got))
  {
    var s1 := AfterRename(s, inst, a, b);
    var s2 := AfterRename(s1, inst, b, z);
    TakenElsewhere(s.rows, inst.uid, Row(b, true), d);
    TakenElsewhere(s.rows, inst.uid, Row(b, true), z);
    StartsUncontended(s, 1, inst, a, b);
    RenameAlone(With(s, 1, inst, a, b, Got), 9, inst, a, b);
    StartsUncontended(With(s1, 1, inst, a, b, Got), 2, inst, b, d);
    RenameAlone(With(With(s1, 1, inst, a, b, Got), 2, inst, b, d, Got), 9, inst, b, z);
    var got1 := With(s, 1, inst, a, b, Got);
    var got1' := With(s1, 1, inst, a, b, Got);
    var got2 := With(got1', 2, inst, b, d, Got);
    var end := With(With(s2, 1, inst, a, b, Got), 2, inst, b, d, Got);
    assert AfterRename(got1, inst, a, b) == got1';
    assert AfterRename(got2, inst, b, z) == end;
    hide Plays, With, AfterRename, Uncontended, RenameSteps, Taken;
    PlaysThen(got1', [StartRename(2, b, d)], got2, RenameSteps(9, b, z), end);
    PlaysThen(got1, RenameSteps(9, a, b), got1', [StartRename(2, b, d)] + RenameSteps(9, b, z), end);
    PlaysThen(s, [StartRename(1, a, b)], got1, RenameSteps(9, a, b) + ([StartRename(2, b, d)] + RenameSteps(9, b, z)), end);
  }

  function Rowed(s: State, inst: Inst, n: Name): State {
    s.(rows := s.rows[inst.uid := Row(n, true)])
  }

  function StalledSteps(c: CallId): seq<Step> {
    [Reserve(c), CheckFree(c), CheckLens(c), Write(c)]
  }

  lemma ThirdWrites(y: State, inst: Inst, a: Name, b: Name, d: Name, z: Name)
    requires Quiet(y, inst, z, {a, b, d}) && a != b && b != d && a != d
    ensures Plays(With(With(y, 1, inst, a, b, Got), 2, inst, b, d, Got), WriteSteps(3, z, a),
                  With(With(With(Rowed(y, inst, a), 2, inst, b, d, Got), 3, inst, z, a, Written), 1, inst, a, b, Got))
  {
    var ya := Rowed(y, inst, a);
    WrittenAlone(With(With(y, 1, inst, a, b, Got), 2, inst, b, d, Got), 3, inst, z, a);
    WithCommutes(ya, 1, 2, inst, a, b, Got, b, d, Got);
    WithCommutes(With(ya, 2, inst, b, d, Got), 1, 3, inst, a, b, Got, z, a, Written);
  }

  lemma FirstWrites(y: State, inst: Inst, a: Name, b: Name, d: Name, z: Name)
    requires Quiet(y, inst, z, {a, b, d}) && a != b && b != d && a != d
    ensures Plays(With(With(With(Rowed(y, inst, a), 2, inst, b, d, Got), 3, inst, z, a, Written), 1, inst, a, b, Got), StalledSteps(1),
                  With(With(With(Rowed(y, inst, b), 3, inst, z, a, Written), 1, inst, a, b, Written), 2, inst, b, d, Got))
  {
    var yb := Rowed(y, inst, b);
    var x := With(With(Rowed(y, inst, a), 2, inst, b, d, Got), 3, inst, z, a, Written);
    TakenElsewhere(y.rows, inst.uid, Row(a, true), b);
    StalledWrites(x, 1, inst, a, b);
    assert Rowed(x, inst, b) == With(With(yb, 2, inst, b, d, Got), 3, inst, z, a, Written);
    WithCommutes(yb, 2, 3, inst, b, d, Got, z, a, Written);
    WithCommutes(With(yb, 3, inst, z, a, Written), 2, 1, inst, b, d, Got, a, b, Written);
  }

  lemma SecondWrites(y: State, inst: Inst, a: Name, b: Name, d: Name, z: Name)
    requires Quiet(y, inst, z, {a, b, d}) && a != b && b != d && a != d
    ensures Plays(With(With(With(Rowed(y, inst, b), 3, inst, z, a, Written), 1, inst, a, b, Written), 2, inst, b, d, Got), StalledSteps(2),
                  With(With(With(Rowed(y, inst, d), 3, inst, z, a, Written), 1, inst, a, b, Written), 2, inst, b, d, Written))
  {
    var x := With(With(Rowed(y, inst, b), 3, inst, z, a, Written), 1, inst, a, b, Written);
    TakenElsewhere(y.rows, inst.uid, Row(b, true), d);
    StalledWrites(x, 2, inst, b, d);
    assert Rowed(x, inst, d) == With(With(Rowed(y, inst, d), 3, inst, z, a, Written), 1, inst, a, b, Written);
  }

  // A third rename heads for a, where the first stalled one starts: now all three write in turn.
  lemma AllWrite(y: State, inst: Inst, a: Name, b: Name, d: Name, z: Name)
    requires Quiet(y, inst, z, {a, b, d}) && a != b && b != d && a != d
    ensures Plays(With(With(y, 1, inst, a, b, Got), 2, inst, b, d, Got),
                  WriteSteps(3, z, a) + (StalledSteps(1) + StalledSteps(2)),
                  With(With(With(Rowed(y, inst, d), 3, inst, z, a, Written), 1, inst, a, b, Written), 2, inst, b, d, Written))
  {
    hide Plays, With, Rowed, StalledSteps, WriteSteps, Quiet;
    ThirdWrites(y, inst, a, b, d, z);
    FirstWrites(y, inst, a, b, d, z);
    SecondWrites(y, inst, a, b, d, z);
    var x1 := With(With(With(Rowed(y, inst, a), 2, inst, b, d, Got), 3, inst, z, a, Written), 1, inst, a, b, Got);
    var x2 := With(With(With(Rowed(y, inst, b), 3, inst, z, a, Written), 1, inst, a, b, Written), 2, inst, b, d, Got);
    var end := With(With(With(Rowed(y, inst, d), 3, inst, z, a, Written), 1, inst, a, b, Written), 2, inst, b, d, Written);
    PlaysThen(x1, StalledSteps(1), x2, StalledSteps(2), end);
    PlaysThen(With(With(y, 1, inst, a, b, Got), 2, inst, b, d, Got), WriteSteps(3, z, a), x1, StalledSteps(1) + StalledSteps(2), end);
  }

  // The first cannot undo its write, which the second has overwritten; the third lands at a; the
  // second undoes its write, back to b.
  lemma Unwound(y: State, inst: Inst, a: Name, b: Name, d: Name, z: Name)
    requires Quiet(y, inst, z, {a, b, d}) && a != b && b != d && a != d && z != b
    ensures Plays(With(With(With(Rowed(y, inst, d), 3, inst, z, a, Written), 1, inst, a, b, Written), 2, inst, b, d, Written),
                  [Land(1), Undo(1), Release(1)] + ([Land(3), Release(3)] + [Land(2), Undo(2), Release(2)]),
                  Rowed(y, inst, b).(repos := Without(y.repos, z)[a := inst], shown := y.shown[inst := a]))
  {
    var yd := Rowed(y, inst, d);
    var start := With(With(With(yd, 3, inst, z, a, Written), 1, inst, a, b, Written), 2, inst, b, d, Written);
    var both := With(With(yd, 2, inst, b, d, Written), 3, inst, z, a, Written);
    var landed := yd.(repos := Without(y.repos, z)[a := inst], shown := y.shown[inst := a]);
    var end := Rowed(y, inst, b).(repos := landed.repos, shown := landed.shown);
    assert Plays(start, [Land(1), Undo(1), Release(1)], both) by {
      WithCommutes(With(yd, 3, inst, z, a, Written), 1, 2, inst, a, b, Written, b, d, Written);
      UndoneAlone(With(With(yd, 3, inst, z, a, Written), 2, inst, b, d, Written), 1, inst, a, b);
      WithCommutes(yd, 3, 2, inst, z, a, Written, b, d, Written);
    }
    assert Plays(both, [Land(3), Release(3)], With(landed, 2, inst, b, d, Written)) by {
      LandsLate(With(yd, 2, inst, b, d, Written), 3, inst, z, a);
    }
    assert Plays(With(landed, 2, inst, b, d, Written), [Land(2), Undo(2), Release(2)], end) by {
      TakenElsewhere(y.rows, inst.uid, Row(d, true), b);
      UndoneAlone(landed, 2, inst, b, d);
      assert landed.(rows := CasName(landed.rows, inst.uid, d, b).0) == end;
    }
    hide Plays, With, Rowed, Quiet, CasName;
    PlaysThen(both, [Land(3), Release(3)], With(landed, 2, inst, b, d, Written), [Land(2), Undo(2), Release(2)], end);
    PlaysThen(start, [Land(1), Undo(1), Release(1)], both, [Land(3), Release(3)] + [Land(2), Undo(2), Release(2)], end);
  }

  function ChasingRenames(a: Name, b: Name, d: Name, z: Name): seq<Step> {
    [StartRename(1, a, b)] + (RenameSteps(9, a, b) + ([StartRename(2, b, d)] + RenameSteps(9, b, z)))
    + (WriteSteps(3, z, a) + (StalledSteps(1) + StalledSteps(2))
    + Unwinding())
  }

  function Unwinding(): seq<Step> {
    [Land(1), Undo(1), Release(1)] + ([Land(3), Release(3)] + [Land(2), Undo(2), Release(2)])
  }

  function Chased(s: State, inst: Inst, a: Name, b: Name, z: Name): State {
    var y := AfterRename(AfterRename(s, inst, a, b), inst, b, z);
    Rowed(y, inst, b).(repos := Without(y.repos, z)[a := inst], shown := y.shown[inst := a])
  }

  lemma QuietAgain(s: State, inst: Inst, a: Name, b: Name, d: Name, z: Name)
    requires Quiet(s, inst, a, {b, d, z}) && a !in s.lenses && b != d && b != z && d != z
    ensures Quiet(AfterRename(AfterRename(s, inst, a, b), inst, b, z), inst, z, {a, b, d})
  {
    forall n
      ensures Taken(s.rows[inst.uid := Row(b, true)][inst.uid := Row(z, true)], inst.uid, n) == Taken(s.rows, inst.uid, n)
    {
      TakenElsewhere(s.rows, inst.uid, Row(b, true), n);
      TakenElsewhere(s.rows[inst.uid := Row(b, true)], inst.uid, Row(z, true), n);
    }
    hide Taken;
  }

  lemma ChasePlays(s: State, inst: Inst, a: Name, b: Name, d: Name, z: Name)
    requires Quiet(s, inst, a, {b, d, z}) && a !in s.lenses && b != a && z != a && d != a && b != d && b != z && d != z
    ensures Plays(s, ChasingRenames(a, b, d, z), Chased(s, inst, a, b, z))
  {
    hide Plays, With, Rowed, Quiet, Taken, AfterRename, RenameSteps, WriteSteps, StalledSteps;
    var y := AfterRename(AfterRename(s, inst, a, b), inst, b, z);
    QuietAgain(s, inst, a, b, d, z);
    TwoStalled(s, inst, a, b, d, z);
    AllWrite(y, inst, a, b, d, z);
    Unwound(y, inst, a, b, d, z);
    var s' := Chased(s, inst, a, b, z);
    var g := With(With(y, 1, inst, a, b, Got), 2, inst, b, d, Got);
    var w := With(With(With(Rowed(y, inst, d), 3, inst, z, a, Written), 1, inst, a, b, Written), 2, inst, b, d, Written);
    var writes := WriteSteps(3, z, a) + (StalledSteps(1) + StalledSteps(2));
    PlaysThen(g, writes, w, Unwinding(), s');
    PlaysThen(s, [StartRename(1, a, b)] + (RenameSteps(9, a, b) + ([StartRename(2, b, d)] + RenameSteps(9, b, z))), g,
      writes + Unwinding(), s');
  }

  // From any quiet agreeing state with a live repo under a and three free names: renames of it
  // alone end with the repo live under a and its active row named b.
  lemma RenamesChase(s: State, inst: Inst, a: Name, b: Name, d: Name, z: Name)
    requires AllNamesAgree(s) && Quiet(s, inst, a, {b, d, z}) && a !in s.lenses && b != d && b != z && d != z
    ensures exists s' ::
              && Plays(s, ChasingRenames(a, b, d, z), s') && Idle(s')
              && a in s'.repos && s'.repos[a] == inst && inst.uid in s'.rows && s'.rows[inst.uid] == Row(b, true)
              && !AllNamesAgree(s')
  {
    var s' := Chased(s, inst, a, b, z);
    assert b in {b, d, z} && d in {b, d, z} && z in {b, d, z};
    ChasePlays(s, inst, a, b, d, z);
    assert s'.rows[inst.uid] == Row(b, true) && s'.repos[a] == inst && Idle(s');
    hide Plays, Chased, Quiet, Taken;
    assert !AllNamesAgree(s') by { assert s'.rows[s'.repos[a].uid] != Row(a, true); }
  }

  // ---------- two restores of one repo ----------

  /** A restore to another name than the one it read, at a stage. */
  function Fetch(s: State, c: CallId, uid: Uid, found: Name, to: Name, pc: Pc): State {
    s.(calls := s.calls[c := Restore(uid, found, to, pc)], reserved := if pc == Got then s.reserved else s.reserved + {to})
  }

  function Named(s: State, uid: Uid, n: Name): State
    requires uid in s.rows
  {
    s.(rows := s.rows[uid := s.rows[uid].(name := n)])
  }

  predicate Fetchable(s: State, c: CallId, uid: Uid, found: Name, to: Name) {
    && c !in s.calls && s.lock.None? && uid in s.rows && !s.rows[uid].active && to != found
    && to !in s.repos && to !in s.lenses && to !in s.reserved
  }

  lemma FetchReserves(s: State, c: CallId, uid: Uid, found: Name, to: Name)
    requires Fetchable(s, c, uid, found, to)
    ensures StepTo(Fetch(s, c, uid, found, to, Got), Reserve(c), Fetch(s, c, uid, found, to, Reserved))
  {
    hide Taken;
  }

  lemma FetchChecks(s: State, c: CallId, uid: Uid, found: Name, to: Name)
    requires Fetchable(s, c, uid, found, to)
    ensures StepTo(Fetch(s, c, uid, found, to, Reserved), CheckFree(c), Fetch(s, c, uid, found, to, Checked))
    ensures StepTo(Fetch(s, c, uid, found, to, Checked), CheckLens(c), Fetch(s, c, uid, found, to, Cleared))
  {
    hide Taken;
  }

  lemma FetchRenames(s: State, c: CallId, uid: Uid, found: Name, to: Name)
    requires Fetchable(s, c, uid, found, to)
    ensures StepTo(Fetch(s, c, uid, found, to, Cleared), Write(c), Fetch(Named(s, uid, to), c, uid, found, to, Lifecycle.Renamed))
  {
    hide Taken;
  }

  lemma FetchWrites(s: State, c: CallId, uid: Uid, found: Name, to: Name)
    requires Fetchable(s, c, uid, found, to) && uid in s.rows
    ensures Plays(Fetch(s, c, uid, found, to, Got), StalledSteps(c), Fetch(Named(s, uid, to), c, uid, found, to, Lifecycle.Renamed))
  {
    hide StepTo, Fetch, Taken, Fetchable;
    FetchReserves(s, c, uid, found, to);
    FetchChecks(s, c, uid, found, to);
    FetchRenames(s, c, uid, found, to);
    var end := Fetch(Named(s, uid, to), c, uid, found, to, Lifecycle.Renamed);
    ChainPlays([Fetch(s, c, uid, found, to, Got), Fetch(s, c, uid, found, to, Reserved), Fetch(s, c, uid, found, to, Checked),
                Fetch(s, c, uid, found, to, Cleared), end], StalledSteps(c));
  }

  /** The repo brought in under `to`, whatever its row is named. */
  function Fetched(s: State, uid: Uid, to: Name): State
    requires uid in s.rows
  {
    var inst := Inst(s.nextId, uid);
    s.(rows := s.rows[uid := s.rows[uid].(active := true)], repos := s.repos[to := inst], shown := s.shown[inst := to],
       nextId := s.nextId + 1)
  }

  function FetchedSteps(c: CallId): seq<Step> {
    [Activate(c), Land(c), Release(c)]
  }

  lemma FetchActivates(s: State, c: CallId, uid: Uid, found: Name, to: Name)
    requires uid in s.rows && !Taken(s.rows, uid, s.rows[uid].name)
    ensures StepTo(Fetch(s, c, uid, found, to, Lifecycle.Renamed), Activate(c),
                   Fetch(s.(rows := s.rows[uid := s.rows[uid].(active := true)]), c, uid, found, to, Written))
  {
    hide Taken;
  }

  lemma FetchEnters(s: State, c: CallId, uid: Uid, found: Name, to: Name)
    requires c !in s.calls && s.lock.None? && uid in s.rows && to !in s.reserved
    ensures StepTo(Fetch(s.(rows := s.rows[uid := s.rows[uid].(active := true)]), c, uid, found, to, Written), Land(c),
                   Fetch(Fetched(s, uid, to), c, uid, found, to, Ending))
    ensures StepTo(Fetch(Fetched(s, uid, to), c, uid, found, to, Ending), Release(c), Fetched(s, uid, to))
  {
    assert Without(Fetch(Fetched(s, uid, to), c, uid, found, to, Ending).calls, c) == s.calls;
    assert s.reserved + {to} - {to} == s.reserved;
  }

  lemma FetchLands(s: State, c: CallId, uid: Uid, found: Name, to: Name)
    requires c !in s.calls && s.lock.None? && uid in s.rows && !Taken(s.rows, uid, s.rows[uid].name) && to !in s.reserved
    ensures Plays(Fetch(s, c, uid, found, to, Lifecycle.Renamed), FetchedSteps(c), Fetched(s, uid, to))
  {
    var on := s.(rows := s.rows[uid := s.rows[uid].(active := true)]);
    var done := Fetched(s, uid, to);
    FetchActivates(s, c, uid, found, to);
    FetchEnters(s, c, uid, found, to);
    hide StepTo, Fetch, Fetched;
    ChainPlays([Fetch(s, c, uid, found, to, Lifecycle.Renamed), Fetch(on, c, uid, found, to, Written),
                Fetch(done, c, uid, found, to, Ending), done], FetchedSteps(c));
  }

  lemma FetchCommutes(s: State, uid: Uid, found: Name, a: Name, pc: Pc, b: Name, pc2: Pc)
    ensures Fetch(Fetch(s, 1, uid, found, a, pc), 2, uid, found, b, pc2) == Fetch(Fetch(s, 2, uid, found, b, pc2), 1, uid, found, a, pc)
  {
    var x, y := Restore(uid, found, a, pc), Restore(uid, found, b, pc2);
    assert s.calls[1 := x][2 := y] == s.calls[2 := y][1 := x];
    assert s.reserved + {a} + {b} == s.reserved + {b} + {a};
  }

  function OverlappingRestores(uid: Uid, a: Name, b: Name): seq<Step> {
    [StartRestore(1, uid, Some(a)), StartRestore(2, uid, Some(b))]
    + (StalledSteps(1) + (StalledSteps(2) + (FetchedSteps(1) + FetchedSteps(2))))
  }

  /** A quiet state with an archived repo, and two names other than its own free. */
  predicate QuietArchived(s: State, uid: Uid, a: Name, b: Name) {
    s.calls == map[] && s.lock.None? && uid in s.rows && !s.rows[uid].active && a != b && FreeFor(s, uid, a) && FreeFor(s, uid, b)
  }

  predicate FreeFor(s: State, uid: Uid, n: Name)
    requires uid in s.rows
  {
    n != s.rows[uid].name && n !in s.repos && n !in s.lenses && n !in s.reserved && !Taken(s.rows, uid, n)
  }

  lemma BothStart(s: State, uid: Uid, a: Name, b: Name)
    requires QuietArchived(s, uid, a, b)
    ensures var f := s.rows[uid].name;
      Plays(s, [StartRestore(1, uid, Some(a)), StartRestore(2, uid, Some(b))], Fetch(Fetch(s, 1, uid, f, a, Got), 2, uid, f, b, Got))
  {
    var f := s.rows[uid].name;
    var s1 := Fetch(s, 1, uid, f, a, Got);
    var s2 := Fetch(s1, 2, uid, f, b, Got);
    assert StepTo(s, StartRestore(1, uid, Some(a)), s1) && StepTo(s1, StartRestore(2, uid, Some(b)), s2) by { hide Taken; }
    hide StepTo, Fetch;
    ChainPlays([s, s1, s2], [StartRestore(1, uid, Some(a)), StartRestore(2, uid, Some(b))]);
  }

  lemma FirstFetchWrites(s: State, uid: Uid, a: Name, b: Name)
    requires QuietArchived(s, uid, a, b)
    ensures var f := s.rows[uid].name;
      Plays(Fetch(Fetch(s, 1, uid, f, a, Got), 2, uid, f, b, Got), StalledSteps(1),
            Fetch(Fetch(Named(s, uid, a), 1, uid, f, a, Lifecycle.Renamed), 2, uid, f, b, Got))
  {
    hide Plays, Taken, StalledSteps;
    var f := s.rows[uid].name;
    var x := Fetch(s, 2, uid, f, b, Got);
    FetchCommutes(s, uid, f, a, Got, b, Got);
    assert Fetchable(x, 1, uid, f, a) by { hide Taken; }
    FetchWrites(x, 1, uid, f, a);
    assert Named(x, uid, a) == Fetch(Named(s, uid, a), 2, uid, f, b, Got);
    FetchCommutes(Named(s, uid, a), uid, f, a, Lifecycle.Renamed, b, Got);
  }

  lemma SecondFetchWrites(s: State, uid: Uid, a: Name, b: Name)
    requires QuietArchived(s, uid, a, b)
    ensures var f := s.rows[uid].name;
      Plays(Fetch(Fetch(Named(s, uid, a), 1, uid, f, a, Lifecycle.Renamed), 2, uid, f, b, Got), StalledSteps(2),
            Fetch(Fetch(Named(s, uid, b), 1, uid, f, a, Lifecycle.Renamed), 2, uid, f, b, Lifecycle.Renamed))
  {
    hide Plays, Taken, StalledSteps;
    var f := s.rows[uid].name;
    var y := Fetch(Named(s, uid, a), 1, uid, f, a, Lifecycle.Renamed);
    assert Fetchable(y, 2, uid, f, b) by { hide Taken; }
    FetchWrites(y, 2, uid, f, b);
    assert Named(y, uid, b) == Fetch(Named(s, uid, b), 1, uid, f, a, Lifecycle.Renamed);
  }

  lemma BothWrite(s: State, uid: Uid, a: Name, b: Name)
    requires QuietArchived(s, uid, a, b)
    ensures var f := s.rows[uid].name;
      Plays(Fetch(Fetch(s, 1, uid, f, a, Got), 2, uid, f, b, Got), StalledSteps(1) + StalledSteps(2),
            Fetch(Fetch(Named(s, uid, b), 1, uid, f, a, Lifecycle.Renamed), 2, uid, f, b, Lifecycle.Renamed))
  {
    var f := s.rows[uid].name;
    hide Plays, Fetch, Named, StalledSteps, Taken;
    FirstFetchWrites(s, uid, a, b);
    SecondFetchWrites(s, uid, a, b);
    PlaysThen(Fetch(Fetch(s, 1, uid, f, a, Got), 2, uid, f, b, Got), StalledSteps(1),
      Fetch(Fetch(Named(s, uid, a), 1, uid, f, a, Lifecycle.Renamed), 2, uid, f, b, Got), StalledSteps(2),
      Fetch(Fetch(Named(s, uid, b), 1, uid, f, a, Lifecycle.Renamed), 2, uid, f, b, Lifecycle.Renamed));
  }

  lemma BothLand(s: State, uid: Uid, a: Name, b: Name)
    requires QuietArchived(s, uid, a, b)
    ensures var f := s.rows[uid].name;
      Plays(Fetch(Fetch(Named(s, uid, b), 1, uid, f, a, Lifecycle.Renamed), 2, uid, f, b, Lifecycle.Renamed), FetchedSteps(1) + FetchedSteps(2),
            Fetched(Fetched(Named(s, uid, b), uid, a), uid, b))
  {
    var f := s.rows[uid].name;
    var sb := Named(s, uid, b);
    TakenElsewhere(s.rows, uid, Row(b, false), b);
    TakenElsewhere(s.rows, uid, Row(b, true), b);
    var x := Fetch(sb, 2, uid, f, b, Lifecycle.Renamed);
    FetchCommutes(sb, uid, f, a, Lifecycle.Renamed, b, Lifecycle.Renamed);
    FetchLands(x, 1, uid, f, a);
    var y := Fetched(sb, uid, a);
    assert Fetched(x, uid, a) == Fetch(y, 2, uid, f, b, Lifecycle.Renamed);
    assert y.rows == s.rows[uid := Row(b, true)];
    FetchLands(y, 2, uid, f, b);
    hide Plays, Fetch, Named, Fetched, FetchedSteps, Taken;
    PlaysThen(Fetch(x, 1, uid, f, a, Lifecycle.Renamed), FetchedSteps(1), Fetch(y, 2, uid, f, b, Lifecycle.Renamed), FetchedSteps(2),
      Fetched(y, uid, b));
  }

  // From any quiet state with an archived repo: two restores of it, under two free names, both
  // succeed; it ends live under both, with one row.
  lemma RestoresOverlap(s: State, uid: Uid, a: Name, b: Name)
    requires AllNamesAgree(s) && QuietArchived(s, uid, a, b)
    ensures exists s' ::
              && Plays(s, OverlappingRestores(uid, a, b), s') && Idle(s')
              && a in s'.repos && s'.repos[a].uid == uid && b in s'.repos && s'.repos[b].uid == uid
              && uid in s'.rows && s'.rows[uid] == Row(b, true) && !AllNamesAgree(s')
  {
    var f := s.rows[uid].name;
    var s' := Fetched(Fetched(Named(s, uid, b), uid, a), uid, b);
    BothStart(s, uid, a, b);
    BothWrite(s, uid, a, b);
    BothLand(s, uid, a, b);
    assert s'.repos[a].uid == uid == s'.repos[b].uid && s'.rows[uid] == Row(b, true) && Idle(s');
    hide Plays, Fetch, Named, Fetched, FetchedSteps, StalledSteps, QuietArchived;
    var got := Fetch(Fetch(s, 1, uid, f, a, Got), 2, uid, f, b, Got);
    var wrote := Fetch(Fetch(Named(s, uid, b), 1, uid, f, a, Lifecycle.Renamed), 2, uid, f, b, Lifecycle.Renamed);
    var writes, lands := StalledSteps(1) + StalledSteps(2), FetchedSteps(1) + FetchedSteps(2);
    PlaysThen(got, writes, wrote, lands, s');
    PlaysThen(s, [StartRestore(1, uid, Some(a)), StartRestore(2, uid, Some(b))], got, writes + lands, s');
    assert writes + lands == StalledSteps(1) + (StalledSteps(2) + (FetchedSteps(1) + FetchedSteps(2)));
    assert !AllNamesAgree(s') by { assert s'.rows[s'.repos[a].uid] != Row(a, true); }
  }
}
