/**
 The registry, the live map and the live instances agree about every repo's name, whatever
 renames, archives, creates and restores interleave (internal/repos/lifecycle.go).
*/
module Agreement {
  import opened Wrappers
  import opened Lifecycle

  /** A rename that may still act. */
  predicate Renaming(call: Call, uid: Uid) {
    call.Rename? && call.pc != Ending && call.inst.uid == uid
  }

  /** A create or restore that may still act. */
  predicate Bringing(call: Call, uid: Uid) {
    (call.Create? || call.Restore?) && call.pc != Ending && call.uid == uid
  }

  ghost predicate LiveUid(repos: map<Name, Inst>, uid: Uid) {
    exists n :: n in repos && repos[n].uid == uid
  }

  /** The instance whose row an archive, holding the lock, has already flipped. */
  function Archiving(s: State): Option<Inst> {
    if s.lock.Some? && s.lock.value in s.calls && s.calls[s.lock.value].Archive? && s.calls[s.lock.value].pc == Written
    then Some(s.calls[s.lock.value].inst) else None
  }

  /** An unresolved rename of the instance under key n has already written `name`. */
  ghost predicate RenameWritten(s: State, n: Name, inst: Inst, name: Name) {
    exists c :: c in s.calls && WroteName(s.calls[c], n, inst, name)
  }

  predicate WroteName(call: Call, n: Name, inst: Inst, name: Name) {
    call.Rename? && call.pc == Written && call.inst == inst && call.from == n && call.to == name
  }

  /** Every live entry's row is active and named by its key or by the target of an unresolved
      rename of it; only an archive holding the lock makes an exception. */
  ghost predicate EntryAgrees(s: State, n: Name)
    requires n in s.repos
  {
    var inst := s.repos[n];
    && inst.uid in s.rows
    && (s.rows[inst.uid].active || Archiving(s) == Some(inst))
    && (s.rows[inst.uid].name == n || RenameWritten(s, n, inst, s.rows[inst.uid].name))
    && inst in s.shown && s.shown[inst] == n
  }

  ghost predicate MapAgrees(s: State) {
    forall n :: n in s.repos ==> EntryAgrees(s, n)
  }

  /** At a quiet moment live map keys, the names instances answer to, and the names of active
      rows are the same, repo by repo. */
  ghost predicate AllNamesAgree(s: State) {
    && (forall n :: n in s.repos ==>
          && s.repos[n].uid in s.rows && s.rows[s.repos[n].uid] == Row(n, true)
          && s.repos[n] in s.shown && s.shown[s.repos[n]] == n)
    && (forall u :: u in s.rows && s.rows[u].active ==>
          s.rows[u].name in s.repos && s.repos[s.rows[u].name].uid == u)
  }

  // ---------- the invariant ----------

  ghost predicate OneEntryPerUid(repos: map<Name, Inst>) {
    forall m, n :: m in repos && n in repos && repos[m].uid == repos[n].uid ==> m == n
  }

  ghost predicate OldIds(s: State) {
    && (forall n :: n in s.repos ==> s.repos[n].id < s.nextId)
    && (forall c :: c in s.calls && s.calls[c].Rename? ==> s.calls[c].inst.id < s.nextId)
  }

  ghost predicate ActiveNamesDistinct(rows: map<Uid, Row>) {
    forall u, v :: u in rows && v in rows && rows[u].active && rows[v].active && rows[u].name == rows[v].name ==> u == v
  }

  /** Every active row is live, or a create or restore is about to bring it in. */
  ghost predicate ActiveAccounted(s: State) {
    forall u :: u in s.rows && s.rows[u].active ==> LiveUid(s.repos, u) || BroughtIn(s, u)
  }

  ghost predicate BroughtIn(s: State, u: Uid) {
    exists c :: c in s.calls && s.calls[c].pc == Written && Bringing(s.calls[c], u)
  }

  ghost predicate RenameFits(call: Call, rows: map<Uid, Row>, repos: map<Name, Inst>)
    requires call.Rename?
  {
    && call.from != call.to
    && (call.pc != Ending ==> call.inst.uid in rows && forall n :: n in repos && repos[n].uid == call.inst.uid ==> repos[n] == call.inst)
    && (call.pc == Written ==> forall n :: n in repos && repos[n] == call.inst ==>
          n == call.from && call.inst.uid in rows && rows[call.inst.uid].name == call.to)
    && (call.pc == Reverting ==> !LiveUid(repos, call.inst.uid))
    && (call.pc in {Checked, Cleared, Written, Reverting} ==> call.to !in repos)
  }

  ghost predicate CreateFits(call: Call, rows: map<Uid, Row>, repos: map<Name, Inst>)
    requires call.Create?
  {
    && call.pc in {Got, Reserved, Checked, Cleared, Written, Ending}
    && (call.pc in {Got, Reserved, Checked, Cleared} ==> call.uid !in rows)
    && (call.pc == Written ==> call.uid in rows && rows[call.uid] == Row(call.to, true))
    && (call.pc != Ending ==> !LiveUid(repos, call.uid))
    && (call.pc in {Checked, Cleared, Written} ==> call.to !in repos)
  }

  ghost predicate RestoreFits(call: Call, rows: map<Uid, Row>, repos: map<Name, Inst>, archiving: Option<Inst>)
    requires call.Restore?
  {
    && (call.pc != Ending ==> call.uid in rows && (rows[call.uid].active <==> call.pc == Written))
    && (call.pc in {Got, Reserved} ==> forall n :: n in repos && repos[n].uid == call.uid ==> archiving == Some(repos[n]))
    && (call.pc in {Got, Reserved, Checked, Cleared} ==> call.uid in rows && rows[call.uid].name == call.found)
    && (call.pc in {Renamed, Written} ==> call.uid in rows && rows[call.uid].name == call.to)
    && (call.pc in {Checked, Cleared, Renamed, Written, BackingOut} ==> !LiveUid(repos, call.uid))
    && (call.pc in {Checked, Cleared, Renamed, Written} ==> call.to !in repos)
    && call.pc in {Got, Reserved, Checked, Cleared, Renamed, Written, BackingOut, Ending}
  }

  ghost predicate ArchiveFits(call: Call, rows: map<Uid, Row>, repos: map<Name, Inst>)
    requires call.Archive?
  {
    && call.name in repos && repos[call.name] == call.inst
    && (call.pc == Written ==> call.inst.uid in rows && !rows[call.inst.uid].active)
  }

  ghost predicate Fits(call: Call, rows: map<Uid, Row>, repos: map<Name, Inst>, archiving: Option<Inst>) {
    match call
    case Rename(_, _, _, _) => RenameFits(call, rows, repos)
    case Create(_, _, _) => CreateFits(call, rows, repos)
    case Restore(_, _, _, _) => RestoreFits(call, rows, repos, archiving)
    case Archive(_, _, _) => ArchiveFits(call, rows, repos)
    case LensPut(_, _, _) => true
  }

  ghost predicate CallsFit(s: State) {
    forall c :: c in s.calls ==> Fits(s.calls[c], s.rows, s.repos, Archiving(s))
  }

  /** While a repo is brought in, no rename and no other create or restore of it is under way. */
  ghost predicate Exclusive(calls: map<CallId, Call>) {
    forall c, d, u :: c in calls && d in calls && c != d && Bringing(calls[c], u) ==>
      !Renaming(calls[d], u) && !Bringing(calls[d], u)
  }

  /** No rename of a repo, past its check, heads for a name another rename of it starts from. */
  ghost predicate NoChain(calls: map<CallId, Call>) {
    forall c, d :: c in calls && d in calls && HeadedFor(calls[c]) && Renaming(calls[d], calls[c].inst.uid) ==>
      calls[d].from != calls[c].to
  }

  predicate HeadedFor(call: Call) {
    call.Rename? && call.pc in {Checked, Cleared, Written, Reverting}
  }

  ghost predicate AgreeInv(s: State) {
    && Reservations(s) && LockHeld(s)
    && OldIds(s) && OneEntryPerUid(s.repos) && ActiveNamesDistinct(s.rows) && ActiveAccounted(s)
    && MapAgrees(s) && CallsFit(s) && Exclusive(s.calls) && NoChain(s.calls)
  }

  /** The condition agreement needs. A rename does not pass its check toward a name from which
      another rename of the same repo is under way; a repo is not restored while a rename or another
      restore of it is under way. */
  ghost predicate Orderly(s: State, t: Step) {
    match t
    case CheckFree(c) =>
      c in s.calls && s.calls[c].Rename? && s.calls[c].to !in s.repos ==>
        forall d :: d in s.calls && Renaming(s.calls[d], s.calls[c].inst.uid) ==> s.calls[d].from != s.calls[c].to
    case StartRestore(c, uid, _) =>
      forall d :: d in s.calls ==> !Renaming(s.calls[d], uid) && !Bringing(s.calls[d], uid)
    case _ => true
  }

  // ---------- calls: exclusion and chains ----------

  lemma HeadedByCheck(s: State, t: Step)
    requires Enabled(s, t) && !Starts(t) && !t.DeleteLens? && t.c in s.calls && t.c in Apply(s, t).calls
    ensures HeadedFor(Apply(s, t).calls[t.c]) && !HeadedFor(s.calls[t.c]) ==> t.CheckFree?
  {
  }

  lemma CallsMove(s: State, t: Step, d: CallId)
    requires Enabled(s, t) && d in Apply(s, t).calls
    ensures d in s.calls || (Starts(t) && d == t.c)
    ensures d in s.calls ==> Moved(s.calls[d], Apply(s, t).calls[d])
    ensures d in s.calls && s.calls[d].pc == Ending ==> Apply(s, t).calls[d].pc == Ending
    ensures d in s.calls && HeadedFor(Apply(s, t).calls[d]) && !HeadedFor(s.calls[d]) ==> t == CheckFree(d)
  {
    if Actor(t) != Some(d) {
      OthersUntouched(s, t, d);
    } else if !Starts(t) {
      OwnMove(s, t);
      HeadedByCheck(s, t);
      hide Apply;
    }
  }

  // What is live and not being archived is not being brought in.
  lemma LiveNotBrought(s: State, d: CallId, uid: Uid)
    requires AgreeInv(s) && d in s.calls && Archiving(s).None? && LiveUid(s.repos, uid)
    ensures !Bringing(s.calls[d], uid)
  {
    hide MapAgrees, Exclusive, NoChain, ActiveAccounted, ActiveNamesDistinct, OneEntryPerUid, OldIds, Reservations, LockHeld;
    var n :| n in s.repos && s.repos[n].uid == uid;
    assert Fits(s.calls[d], s.rows, s.repos, Archiving(s));
  }

  // A repo whose row exists is not being created, nor is a repo without one renamed or restored.
  lemma FreshNotInCalls(s: State, d: CallId, uid: Uid)
    requires AgreeInv(s) && d in s.calls && uid !in s.rows
    ensures !Renaming(s.calls[d], uid) && (Bringing(s.calls[d], uid) ==> s.calls[d].Create?)
  {
    hide MapAgrees, Exclusive, NoChain, ActiveAccounted, ActiveNamesDistinct, OneEntryPerUid, OldIds, Reservations, LockHeld;
    assert Fits(s.calls[d], s.rows, s.repos, Archiving(s));
  }

  // A newly started call excludes no other.
  lemma StartExcludes(s: State, t: Step, d: CallId, u: Uid)
    requires AgreeInv(s) && Enabled(s, t) && Orderly(s, t) && Starts(t) && d in s.calls
    ensures var call := Apply(s, t).calls[t.c];
            && (Bringing(call, u) ==> !Renaming(s.calls[d], u) && !Bringing(s.calls[d], u))
            && (Renaming(call, u) ==> !Bringing(s.calls[d], u))
  {
    hide AgreeInv;
    match t
    case StartRename(c, from, _) =>
      assert s.repos[from].uid == u ==> LiveUid(s.repos, u);
      if s.repos[from].uid == u { LiveNotBrought(s, d, u); }
    case StartCreate(c, uid, _) => FreshNotInCalls(s, d, uid);
    case _ =>
  }

  lemma ExclusiveNow(s: State)
    requires AgreeInv(s)
    ensures Exclusive(s.calls)
  {
  }

  lemma ExclusivePair(s: State, t: Step, c: CallId, d: CallId, u: Uid)
    requires AgreeInv(s) && Enabled(s, t) && Orderly(s, t) && c != d
    requires c in Apply(s, t).calls && d in Apply(s, t).calls && Bringing(Apply(s, t).calls[c], u)
    ensures !Renaming(Apply(s, t).calls[d], u) && !Bringing(Apply(s, t).calls[d], u)
  {
    hide AgreeInv, Apply, Orderly, Enabled;
    ExclusiveNow(s);
    CallsMove(s, t, c);
    CallsMove(s, t, d);
    if c !in s.calls {
      StartExcludes(s, t, d, u);
      OthersUntouched(s, t, d);
    } else if d !in s.calls {
      OthersUntouched(s, t, c);
      StartExcludes(s, t, c, u);
    } else {
      assert Bringing(s.calls[c], u);
    }
  }

  lemma ExclusiveKept(s: State, t: Step)
    requires AgreeInv(s) && Enabled(s, t) && Orderly(s, t)
    ensures Exclusive(Apply(s, t).calls)
  {
    hide AgreeInv, Apply, Orderly, Enabled;
    var calls := Apply(s, t).calls;
    forall c, d, u | c in calls && d in calls && c != d && Bringing(calls[c], u)
      ensures !Renaming(calls[d], u) && !Bringing(calls[d], u)
    {
      ExclusivePair(s, t, c, d, u);
    }
  }

  lemma NoChainKept(s: State, t: Step)
    requires AgreeInv(s) && Enabled(s, t) && Orderly(s, t)
    ensures NoChain(Apply(s, t).calls)
  {
    var s' := Apply(s, t);
    forall c, d | c in s'.calls && d in s'.calls && HeadedFor(s'.calls[c]) && Renaming(s'.calls[d], s'.calls[c].inst.uid)
      ensures s'.calls[d].from != s'.calls[c].to
    {
      CallsMove(s, t, c);
      CallsMove(s, t, d);
      if d !in s.calls {
        OthersUntouched(s, t, c);
        assert Fits(s.calls[c], s.rows, s.repos, Archiving(s));
      } else {
        hide Apply;
        assert NoChain(s.calls);
      }
    }
  }

  // ---------- what a step leaves alone ----------

  lemma ArchivingAfter(s: State, t: Step)
    requires AgreeInv(s) && Enabled(s, t)
    ensures Archiving(Apply(s, t)) ==
            if t.Flip? && SetState(s.rows, s.calls[t.c].inst.uid, false).1 then Some(s.calls[t.c].inst)
            else if t.Drop? then None else Archiving(s)
  {
    hide CallsFit, MapAgrees, Exclusive, NoChain, ActiveAccounted, ActiveNamesDistinct, OneEntryPerUid, OldIds, Reservations;
    if s.lock.Some? && Actor(t) != Some(s.lock.value) {
      OthersUntouched(s, t, s.lock.value);
    }
  }

  /** The repo a call is about. */
  function Subject(call: Call): Option<Uid> {
    match call
    case Rename(inst, _, _, _) => Some(inst.uid)
    case Create(uid, _, _) => Some(uid)
    case Restore(uid, _, _, _) => Some(uid)
    case Archive(inst, _, _) => Some(inst.uid)
    case LensPut(_, _, _) => None
  }

  lemma OtherRowsUntouched(s: State, t: Step, u: Uid)
    requires Enabled(s, t)
    requires Actor(t).Some? && t.c in s.calls ==> Subject(s.calls[t.c]) != Some(u)
    ensures u in Apply(s, t).rows <==> u in s.rows
    ensures u in s.rows ==> Apply(s, t).rows[u] == s.rows[u]
  {
  }

  lemma EntriesAfter(s: State, t: Step)
    requires Enabled(s, t)
    ensures var s' := Apply(s, t);
            match t {
              case Land(c) =>
                if s.calls[c].Rename? then
                  s'.repos == s.repos ||
                  (s.calls[c].from in s.repos && s.repos[s.calls[c].from] == s.calls[c].inst && s.calls[c].to !in s.repos &&
                  s'.repos == Without(s.repos, s.calls[c].from)[s.calls[c].to := s.calls[c].inst])
                else s'.repos == s.repos[s.calls[c].to := Inst(s.nextId, s.calls[c].uid)]
              case Drop(c) => s'.repos == Without(s.repos, s.calls[c].name)
              case _ => s'.repos == s.repos
            }
  {
  }

  // An entry of the live map after a step was there before, or is the one a landing put there.
  lemma EntryFrom(s: State, t: Step, n: Name)
    requires AgreeInv(s) && Enabled(s, t) && n in Apply(s, t).repos
    ensures || (n in s.repos && s.repos[n] == Apply(s, t).repos[n] && !(t.Land? && n == s.calls[t.c].to))
            || (t.Land? && n == s.calls[t.c].to && n !in s.repos && Subject(s.calls[t.c]) == Some(Apply(s, t).repos[n].uid))
  {
    EntriesAfter(s, t);
    assert t.Land? ==> Fits(s.calls[t.c], s.rows, s.repos, Archiving(s));
    hide Apply;
  }

  // Two calls hold different targets.
  lemma TargetsDiffer(s: State, c: CallId, d: CallId)
    requires Reservations(s) && c in s.calls && d in s.calls && c != d
    requires HasTarget(s.calls[c]) && HasTarget(s.calls[d]) && s.calls[c].pc != Got && s.calls[d].pc != Got
    ensures s.calls[c].to != s.calls[d].to
  {
    assert c in Held(s.calls) && d in Held(s.calls);
  }

  // Another call's step leaves the row of a repo under rename in place; it renames it, while it
  // is live and this call has written, only by ending this call's claim.
  lemma RenamedRowKept(s: State, t: Step, d: CallId)
    requires AgreeInv(s) && Enabled(s, t) && d in s.calls && Actor(t) != Some(d)
    requires s.calls[d].Rename? && s.calls[d].pc != Ending
    ensures s.calls[d].inst.uid in s.rows && s.calls[d].inst.uid in Apply(s, t).rows
    ensures s.calls[d].pc == Written && LiveUid(s.repos, s.calls[d].inst.uid) ==>
              Apply(s, t).rows[s.calls[d].inst.uid].name == s.rows[s.calls[d].inst.uid].name
  {
    var call := s.calls[d];
    assert Fits(call, s.rows, s.repos, Archiving(s));
    if Actor(t).Some? && t.c in s.calls && Subject(s.calls[t.c]) == Some(call.inst.uid) {
      assert Fits(s.calls[t.c], s.rows, s.repos, Archiving(s));
      assert Exclusive(s.calls) && NoChain(s.calls);
      hide AgreeInv;
    } else {
      OtherRowsUntouched(s, t, call.inst.uid);
    }
  }

  lemma RenameStillFits(s: State, t: Step, d: CallId)
    requires AgreeInv(s) && Enabled(s, t) && d in s.calls && Actor(t) != Some(d) && s.calls[d].Rename?
    ensures RenameFits(s.calls[d], Apply(s, t).rows, Apply(s, t).repos)
  {
    var call := s.calls[d];
    var s' := Apply(s, t);
    assert Fits(call, s.rows, s.repos, Archiving(s));
    if call.pc != Ending { RenamedRowKept(s, t, d); }
    assert Actor(t).Some? && t.c in s.calls ==> Fits(s.calls[t.c], s.rows, s.repos, Archiving(s));
    forall n | n in s'.repos
      ensures call.pc != Ending && s'.repos[n].uid == call.inst.uid ==> s'.repos[n] == call.inst
      ensures call.pc in {Checked, Cleared, Written, Reverting} ==> n != call.to
      ensures call.pc == Written && s'.repos[n] == call.inst ==> n == call.from && s'.rows[call.inst.uid].name == call.to
      ensures call.pc == Reverting ==> s'.repos[n].uid != call.inst.uid
    {
      EntryFrom(s, t, n);
      if t.Land? && call.pc in {Checked, Cleared, Written, Reverting} { TargetsDiffer(s, t.c, d); }
      assert n in s.repos && s.repos[n] == call.inst ==> LiveUid(s.repos, call.inst.uid);
      if t.Land? && n !in s.repos && s'.repos[n].uid == call.inst.uid {
        LandedBeside(s, t, d);
      }
      hide Apply, AgreeInv;
    }
  }

  // No landing makes a repo live, or moves it, under a rename that has written or is reverting.
  lemma LandedBeside(s: State, t: Step, d: CallId)
    requires AgreeInv(s) && Enabled(s, t) && t.Land? && d in s.calls && t.c != d && s.calls[d].Rename?
    requires s.calls[t.c].to in Apply(s, t).repos && s.calls[t.c].to !in s.repos
    requires Subject(s.calls[t.c]) == Some(s.calls[d].inst.uid)
    ensures s.calls[d].pc !in {Written, Reverting}
    ensures s.calls[d].pc != Ending ==> Apply(s, t).repos[s.calls[t.c].to] == s.calls[d].inst
  {
    EntriesAfter(s, t);
    assert Exclusive(s.calls);
    assert Fits(s.calls[d], s.rows, s.repos, Archiving(s));
    assert Fits(s.calls[t.c], s.rows, s.repos, Archiving(s));
    if s.calls[d].pc == Written { TargetsDiffer(s, t.c, d); }
    hide Apply, AgreeInv;
    assert s.calls[t.c].Rename? && s.calls[t.c].from in s.repos ==> LiveUid(s.repos, s.repos[s.calls[t.c].from].uid);
  }

  // While a repo is being brought in, nobody else writes its row.
  lemma BroughtRowUntouched(s: State, t: Step, d: CallId, u: Uid)
    requires AgreeInv(s) && Enabled(s, t) && d in s.calls && Actor(t) != Some(d) && Bringing(s.calls[d], u)
    ensures u in Apply(s, t).rows <==> u in s.rows
    ensures u in s.rows ==> Apply(s, t).rows[u] == s.rows[u]
  {
    if Actor(t).Some? && t.c in s.calls && Subject(s.calls[t.c]) == Some(u) {
      assert Exclusive(s.calls);
      assert Fits(s.calls[t.c], s.rows, s.repos, Archiving(s));
      if t.Flip? { LiveNotBrought(s, d, u); }
      hide AgreeInv;
    } else {
      OtherRowsUntouched(s, t, u);
    }
  }

  lemma CreateStillFits(s: State, t: Step, d: CallId)
    requires AgreeInv(s) && Enabled(s, t) && d in s.calls && Actor(t) != Some(d) && s.calls[d].Create?
    ensures CreateFits(s.calls[d], Apply(s, t).rows, Apply(s, t).repos)
  {
    var call := s.calls[d];
    var s' := Apply(s, t);
    assert Fits(call, s.rows, s.repos, Archiving(s));
    if call.pc != Ending {
      BroughtRowUntouched(s, t, d, call.uid);
    }
    forall n | n in s'.repos
      ensures call.pc != Ending ==> s'.repos[n].uid != call.uid
      ensures call.pc in {Checked, Cleared, Written} ==> n != call.to
    {
      EntryBesideBringing(s, t, d, n);
    }
  }

  // Landings put neither the repo nor the name another call is bringing in into the map.
  lemma EntryBesideBringing(s: State, t: Step, d: CallId, n: Name)
    requires AgreeInv(s) && Enabled(s, t) && d in s.calls && Actor(t) != Some(d) && n in Apply(s, t).repos
    requires s.calls[d].Create? || s.calls[d].Restore?
    ensures var call := s.calls[d];
            || (n in s.repos && s.repos[n] == Apply(s, t).repos[n])
            || (t.Land? && (call.pc != Ending ==> Apply(s, t).repos[n].uid != call.uid) && (call.pc != Got ==> n != call.to))
  {
    EntryFrom(s, t, n);
    if t.Land? && s.calls[d].pc != Got { TargetsDiffer(s, t.c, d); }
    assert Exclusive(s.calls);
    hide Apply;
  }

  // A restore that has not checked yet sees its repo live only while an archive of it is under
  // way.
  lemma ArchivedBefore(s: State, t: Step, d: CallId, n: Name)
    requires AgreeInv(s) && Enabled(s, t) && d in s.calls && s.calls[d].Restore? && s.calls[d].pc in {Got, Reserved}
    requires n in s.repos && n in Apply(s, t).repos && s.repos[n].uid == s.calls[d].uid && Apply(s, t).repos[n] == s.repos[n]
    ensures Archiving(Apply(s, t)) == Some(s.repos[n])
  {
    hide Apply, MapAgrees, Exclusive, NoChain, ActiveAccounted, ActiveNamesDistinct, Reservations, OldIds;
    assert Fits(s.calls[d], s.rows, s.repos, Archiving(s));
    forall c | c in s.calls && s.calls[c].Archive? ensures ArchiveFits(s.calls[c], s.rows, s.repos) {
      assert Fits(s.calls[c], s.rows, s.repos, Archiving(s));
    }
    ArchivingAfter(s, t);
    EntriesAfter(s, t);
  }

  lemma RestoreStillFits(s: State, t: Step, d: CallId)
    requires AgreeInv(s) && Enabled(s, t) && d in s.calls && Actor(t) != Some(d) && s.calls[d].Restore?
    ensures RestoreFits(s.calls[d], Apply(s, t).rows, Apply(s, t).repos, Archiving(Apply(s, t)))
  {
    var call := s.calls[d];
    var s' := Apply(s, t);
    assert Fits(call, s.rows, s.repos, Archiving(s));
    hide Apply, AgreeInv, Enabled;
    if call.pc != Ending {
      BroughtRowUntouched(s, t, d, call.uid);
    }
    forall n | n in s'.repos
      ensures call.pc in {Got, Reserved} && s'.repos[n].uid == call.uid ==> Archiving(s') == Some(s'.repos[n])
      ensures call.pc in {Checked, Cleared, Renamed, Written, BackingOut} ==> s'.repos[n].uid != call.uid
      ensures call.pc in {Checked, Cleared, Renamed, Written} ==> n != call.to
    {
      EntryBesideBringing(s, t, d, n);
      if call.pc in {Got, Reserved} && s'.repos[n].uid == call.uid { ArchivedBefore(s, t, d, n); }
    }
  }

  lemma ArchiveStillFits(s: State, t: Step, d: CallId)
    requires AgreeInv(s) && Enabled(s, t) && d in s.calls && Actor(t) != Some(d) && s.calls[d].Archive?
    ensures ArchiveFits(s.calls[d], Apply(s, t).rows, Apply(s, t).repos)
  {
    var call := s.calls[d];
    assert Fits(call, s.rows, s.repos, Archiving(s));
    assert s.lock == Some(d);
    EntriesAfter(s, t);
    assert LiveUid(s.repos, call.inst.uid);
    if Actor(t).Some? && t.c in s.calls && Subject(s.calls[t.c]) == Some(call.inst.uid) {
      assert Fits(s.calls[t.c], s.rows, s.repos, Archiving(s));
    } else {
      OtherRowsUntouched(s, t, call.inst.uid);
    }
  }

  // ---------- the acting call still fits ----------

  lemma StartFits(s: State, t: Step)
    requires AgreeInv(s) && Enabled(s, t) && Starts(t)
    ensures var s' := Apply(s, t); Fits(s'.calls[t.c], s'.rows, s'.repos, Archiving(s'))
  {
    ArchivingAfter(s, t);
    match t
    case StartRename(c, from, _) => assert EntryAgrees(s, from);
    case StartCreate(c, uid, _) => assert forall n :: n in s.repos ==> EntryAgrees(s, n);
    case StartRestore(c, uid, _) => assert forall n :: n in s.repos ==> EntryAgrees(s, n);
    case _ =>
  }

  lemma OwnFits(s: State, t: Step)
    requires AgreeInv(s) && Enabled(s, t) && !Starts(t) && !t.DeleteLens? && t.c in Apply(s, t).calls
    ensures var s' := Apply(s, t); Fits(s'.calls[t.c], s'.rows, s'.repos, Archiving(s'))
  {
    assert Fits(s.calls[t.c], s.rows, s.repos, Archiving(s));
    ArchivingAfter(s, t);
    match s.calls[t.c]
    case Archive(_, _, _) =>
    case LensPut(_, _, _) =>
    case Rename(_, _, _, _) => OwnRenameFits(s, t);
    case Create(_, _, _) => OwnCreateFits(s, t);
    case Restore(_, _, _, _) => OwnRestoreFits(s, t);
  }

  lemma OwnRenameFits(s: State, t: Step)
    requires AgreeInv(s) && Enabled(s, t) && !Starts(t) && !t.DeleteLens?
    requires t.c in s.calls && s.calls[t.c].Rename? && t.c in Apply(s, t).calls
    ensures var s' := Apply(s, t); Fits(s'.calls[t.c], s'.rows, s'.repos, Archiving(s'))
  {
    var call := s.calls[t.c];
    assert Fits(call, s.rows, s.repos, Archiving(s));
    if t.Write? && CasName(s.rows, call.inst.uid, call.from, call.to).1 {
      RenamedEntry(s, t);
    }
  }

  // A rename that moves a live repo's row from `from` finds the repo under `from`.
  lemma RenamedEntry(s: State, t: Step)
    requires AgreeInv(s) && t.Write? && Enabled(s, t) && s.calls[t.c].Rename?
    requires CasName(s.rows, s.calls[t.c].inst.uid, s.calls[t.c].from, s.calls[t.c].to).1
    ensures forall n :: n in s.repos && s.repos[n].uid == s.calls[t.c].inst.uid ==>
              n == s.calls[t.c].from && s.repos[n] == s.calls[t.c].inst
  {
    hide Exclusive, ActiveAccounted, ActiveNamesDistinct, OldIds, Reservations, Apply, Archiving;
    var call := s.calls[t.c];
    assert Fits(call, s.rows, s.repos, Archiving(s));
    forall n | n in s.repos && s.repos[n].uid == call.inst.uid
      ensures n == call.from
    {
      assert EntryAgrees(s, n);
    }
  }

  lemma OwnCreateFits(s: State, t: Step)
    requires AgreeInv(s) && Enabled(s, t) && !Starts(t) && !t.DeleteLens?
    requires t.c in s.calls && s.calls[t.c].Create? && t.c in Apply(s, t).calls
    ensures var s' := Apply(s, t); Fits(s'.calls[t.c], s'.rows, s'.repos, Archiving(s'))
  {
    assert Fits(s.calls[t.c], s.rows, s.repos, Archiving(s));
    EntriesAfter(s, t);
  }

  lemma OwnRestoreFits(s: State, t: Step)
    requires AgreeInv(s) && Enabled(s, t) && !Starts(t) && !t.DeleteLens?
    requires t.c in s.calls && s.calls[t.c].Restore? && t.c in Apply(s, t).calls
    ensures var s' := Apply(s, t); Fits(s'.calls[t.c], s'.rows, s'.repos, Archiving(s'))
  {
    assert Fits(s.calls[t.c], s.rows, s.repos, Archiving(s));
    EntriesAfter(s, t);
    ArchivingAfter(s, t);
  }

  lemma CallsFitKept(s: State, t: Step)
    requires AgreeInv(s) && Enabled(s, t)
    ensures CallsFit(Apply(s, t))
  {
    var s' := Apply(s, t);
    forall d | d in s'.calls
      ensures Fits(s'.calls[d], s'.rows, s'.repos, Archiving(s'))
    {
      if Actor(t) == Some(d) {
        if Starts(t) { StartFits(s, t); } else { OwnFits(s, t); }
      } else {
        OthersUntouched(s, t, d);
        match s.calls[d]
        case Rename(_, _, _, _) => RenameStillFits(s, t, d);
        case Create(_, _, _) => CreateStillFits(s, t, d);
        case Restore(_, _, _, _) => RestoreStillFits(s, t, d);
        case Archive(_, _, _) => ArchiveStillFits(s, t, d);
        case LensPut(_, _, _) =>
      }
    }
  }

  // ---------- the map agrees ----------

  // A rename's witness for a written name lasts until the rename lands.
  lemma WitnessLasts(s: State, t: Step, n: Name)
    requires AgreeInv(s) && Enabled(s, t) && n in s.repos && n in Apply(s, t).repos && s.repos[n] == Apply(s, t).repos[n]
    requires RenameWritten(s, n, s.repos[n], s.rows[s.repos[n].uid].name)
    ensures RenameWritten(Apply(s, t), n, s.repos[n], s.rows[s.repos[n].uid].name)
  {
    var inst, name := s.repos[n], s.rows[s.repos[n].uid].name;
    var d :| d in s.calls && WroteName(s.calls[d], n, inst, name);
    assert Fits(s.calls[d], s.rows, s.repos, Archiving(s));
    if Actor(t) == Some(d) {
      EntriesAfter(s, t);
      assert false;
    } else {
      OthersUntouched(s, t, d);
      assert WroteName(Apply(s, t).calls[d], n, inst, name);
    }
  }

  lemma ShownAfter(s: State, t: Step)
    requires Enabled(s, t)
    ensures var shown := Apply(s, t).shown;
            if t.Land? && Apply(s, t).repos != s.repos then
              if s.calls[t.c].Rename? then shown == s.shown[s.calls[t.c].inst := s.calls[t.c].to]
              else shown == s.shown[Inst(s.nextId, s.calls[t.c].uid) := s.calls[t.c].to]
            else t.Land? || shown == s.shown
  {
    if !t.Land? {
      ShownUntouched(s, t);
    }
  }

  lemma ShownUntouched(s: State, t: Step)
    requires Enabled(s, t) && !t.Land?
    ensures Apply(s, t).shown == s.shown
  {
    hide ApplyLand;
    match t
    case Write(c) => hide CasName, SetName, Insert;
    case GiveUp(c) => hide SetState;
    case Undo(c) => hide CasName, SetName;
    case _ => hide ApplyWrite, ApplyGiveUp, ApplyUndo, SetState;
  }

  lemma LandShown(s: State, t: Step)
    requires Enabled(s, t) && t.Land? && Apply(s, t).repos == s.repos && s.calls[t.c].Rename?
    ensures s.calls[t.c].to !in s.repos ==> Apply(s, t).shown == s.shown
  {
  }

  lemma ShownKept(s: State, t: Step, n: Name)
    requires AgreeInv(s) && Enabled(s, t) && n in s.repos && n in Apply(s, t).repos && s.repos[n] == Apply(s, t).repos[n]
    ensures s.repos[n] in Apply(s, t).shown && Apply(s, t).shown[s.repos[n]] == n
  {
    assert EntryAgrees(s, n);
    EntriesAfter(s, t);
    ShownAfter(s, t);
    if t.Land? {
      assert Fits(s.calls[t.c], s.rows, s.repos, Archiving(s));
      if s.calls[t.c].Rename? && Apply(s, t).repos == s.repos { LandShown(s, t); }
    }
    hide Apply, EntryAgrees, RenameWritten, Exclusive, NoChain, ActiveAccounted, CallsFit, Reservations;
  }

  ghost predicate RowKept(s: State, t: Step, s': State, n: Name)
    requires n in s.repos
  {
    var inst := s.repos[n];
    && inst.uid in s.rows && inst.uid in s'.rows
    && (s'.rows[inst.uid].active == (s.rows[inst.uid].active && !t.Flip?))
    && (t.Flip? ==> s'.rows[inst.uid].active || Archiving(s') == Some(inst))
    && (s'.rows[inst.uid].name != s.rows[inst.uid].name ==> RenameWritten(s', n, inst, s'.rows[inst.uid].name))
  }

  lemma SubjectRowKept(s: State, t: Step, n: Name)
    requires AgreeInv(s) && Enabled(s, t) && n in s.repos && n in Apply(s, t).repos && s.repos[n] == Apply(s, t).repos[n]
    requires Actor(t).Some? && t.c in s.calls && Subject(s.calls[t.c]) == Some(s.repos[n].uid)
    ensures RowKept(s, t, Apply(s, t), n)
  {
    hide AgreeInv, Apply, Enabled, RowKept;
    if s.calls[t.c].Rename? {
      RenamingRowKept(s, t, n);
    } else {
      BringingRowKept(s, t, n);
    }
  }

  lemma RowsSame(s: State, t: Step, s': State, n: Name)
    requires n in s.repos && s.repos[n].uid in s.rows && s'.rows == s.rows && !t.Flip?
    ensures RowKept(s, t, s', n)
  {
  }

  lemma RenamingRowKept(s: State, t: Step, n: Name)
    requires AgreeInv(s) && Enabled(s, t) && n in s.repos && n in Apply(s, t).repos && s.repos[n] == Apply(s, t).repos[n]
    requires Actor(t).Some? && t.c in s.calls && s.calls[t.c].Rename? && s.calls[t.c].inst.uid == s.repos[n].uid
    ensures RowKept(s, t, Apply(s, t), n)
  {
    assert EntryAgrees(s, n) && LiveUid(s.repos, s.repos[n].uid);
    assert Fits(s.calls[t.c], s.rows, s.repos, Archiving(s));
    if t.Write? {
      WrittenRowKept(s, t, n);
    } else {
      hide AgreeInv, Archiving, Taken, EntryAgrees, Apply, RowKept;
      RenameRowsUntouched(s, t);
      RowsSame(s, t, Apply(s, t), n);
    }
  }

  lemma WrittenRowKept(s: State, t: Step, n: Name)
    requires AgreeInv(s) && Enabled(s, t) && n in s.repos && s.repos[n].uid in s.rows
    requires t.Write? && s.calls[t.c].Rename? && s.calls[t.c].inst.uid == s.repos[n].uid
    ensures RowKept(s, t, Apply(s, t), n)
  {
    hide AgreeInv, Archiving, Taken;
    var inst := s.repos[n];
    if CasName(s.rows, inst.uid, s.calls[t.c].from, s.calls[t.c].to).1 {
      RenamedEntry(s, t);
      assert WroteName(Apply(s, t).calls[t.c], n, inst, s.calls[t.c].to);
    }
  }

  lemma RenameRowsUntouched(s: State, t: Step)
    requires Enabled(s, t) && !t.Write? && !t.DeleteLens? && t.c in s.calls && s.calls[t.c].Rename?
    requires s.calls[t.c].pc != Reverting
    ensures Apply(s, t).rows == s.rows && !t.Flip?
  {
  }

  lemma BringingRowKept(s: State, t: Step, n: Name)
    requires AgreeInv(s) && Enabled(s, t) && n in s.repos && n in Apply(s, t).repos && s.repos[n] == Apply(s, t).repos[n]
    requires Actor(t).Some? && t.c in s.calls && !s.calls[t.c].Rename? && Subject(s.calls[t.c]) == Some(s.repos[n].uid)
    ensures RowKept(s, t, Apply(s, t), n)
  {
    assert EntryAgrees(s, n) && LiveUid(s.repos, s.repos[n].uid);
    if s.calls[t.c].Archive? {
      assert Fits(s.calls[t.c], s.rows, s.repos, Archiving(s)) && OneEntryPerUid(s.repos);
      ArchiveRows(s, t);
      ArchivingAfter(s, t);
      hide AgreeInv, Apply, Archiving, Taken, RenameWritten, EntryAgrees;
    } else {
      BroughtRowsUntouched(s, t);
      hide AgreeInv, Apply, Archiving, Taken, RenameWritten, EntryAgrees, RowKept;
      RowsSame(s, t, Apply(s, t), n);
    }
  }

  lemma ArchiveRows(s: State, t: Step)
    requires Enabled(s, t) && Actor(t).Some? && t.c in s.calls && s.calls[t.c].Archive?
    ensures Apply(s, t).rows == if t.Flip? then SetState(s.rows, s.calls[t.c].inst.uid, false).0 else s.rows
  {
  }

  // A create or restore that has not passed its first check writes nothing.
  lemma BroughtRowsUntouched(s: State, t: Step)
    requires AgreeInv(s) && Enabled(s, t) && Actor(t).Some? && t.c in s.calls
    requires s.calls[t.c].Create? || s.calls[t.c].Restore?
    requires LiveUid(s.repos, s.calls[t.c].uid)
    ensures Apply(s, t).rows == s.rows && !t.Flip?
  {
    assert Fits(s.calls[t.c], s.rows, s.repos, Archiving(s));
    hide AgreeInv, Archiving, Taken, LiveUid;
  }

  lemma EntryKept(s: State, t: Step, n: Name)
    requires AgreeInv(s) && Enabled(s, t) && n in s.repos && n in Apply(s, t).repos && s.repos[n] == Apply(s, t).repos[n]
    ensures EntryAgrees(Apply(s, t), n)
  {
    assert EntryAgrees(s, n);
    var inst := s.repos[n];
    if RenameWritten(s, n, inst, s.rows[inst.uid].name) { WitnessLasts(s, t, n); }
    ArchivingAfter(s, t);
    if Actor(t).Some? && t.c in s.calls && Subject(s.calls[t.c]) == Some(inst.uid) {
      SubjectRowKept(s, t, n);
    } else {
      OtherRowsUntouched(s, t, inst.uid);
    }
    ShownKept(s, t, n);
  }

  lemma LandedAgrees(s: State, t: Step)
    requires AgreeInv(s) && Enabled(s, t) && t.Land? && Apply(s, t).repos != s.repos
    ensures s.calls[t.c].to in Apply(s, t).repos && EntryAgrees(Apply(s, t), s.calls[t.c].to)
  {
    var call := s.calls[t.c];
    assert Fits(call, s.rows, s.repos, Archiving(s));
    if call.Rename? {
      assert EntryAgrees(s, call.from);
    }
    hide Fits, EntryAgrees, MapAgrees, Exclusive, NoChain, ActiveAccounted, CallsFit, Reservations, ActiveNamesDistinct;
    assert Apply(s, t).rows == s.rows;
    LandedEntry(s, t);
  }

  lemma LandedEntry(s: State, t: Step)
    requires Enabled(s, t) && t.Land? && Apply(s, t).repos != s.repos
    requires s.calls[t.c].Rename? ==>
               && s.calls[t.c].inst.uid in s.rows && s.rows[s.calls[t.c].inst.uid].name == s.calls[t.c].to
               && s.rows[s.calls[t.c].inst.uid].active
    requires !s.calls[t.c].Rename? ==> s.calls[t.c].uid in s.rows && s.rows[s.calls[t.c].uid] == Row(s.calls[t.c].to, true)
    ensures s.calls[t.c].to in Apply(s, t).repos && EntryAgrees(Apply(s, t), s.calls[t.c].to)
  {
  }

  lemma MapAgreesKept(s: State, t: Step)
    requires AgreeInv(s) && Enabled(s, t)
    ensures MapAgrees(Apply(s, t))
  {
    var s' := Apply(s, t);
    forall n | n in s'.repos
      ensures EntryAgrees(s', n)
    {
      EntryFrom(s, t, n);
      hide Apply, EntryAgrees, AgreeInv;
      if n in s.repos { EntryKept(s, t, n); } else { LandedAgrees(s, t); }
    }
  }

  lemma OneEntryKept(s: State, t: Step)
    requires AgreeInv(s) && Enabled(s, t)
    ensures OneEntryPerUid(Apply(s, t).repos)
  {
    EntriesAfter(s, t);
    assert t.Land? ==> Fits(s.calls[t.c], s.rows, s.repos, Archiving(s));
    hide Apply, MapAgrees, Exclusive, NoChain, ActiveAccounted, ActiveNamesDistinct, OldIds, Reservations, LockHeld;
  }

  lemma OldIdsKept(s: State, t: Step)
    requires AgreeInv(s) && Enabled(s, t)
    ensures OldIds(Apply(s, t))
  {
    var s' := Apply(s, t);
    IdsGrow(s, t);
    forall d | d in s'.calls && s'.calls[d].Rename?
      ensures s'.calls[d].inst.id < s'.nextId
    {
      CallsMove(s, t, d);
    }
    EntriesAfter(s, t);
    hide Apply, MapAgrees, Exclusive, NoChain, ActiveAccounted, ActiveNamesDistinct, Reservations, LockHeld, CallsFit;
  }

  lemma IdsGrow(s: State, t: Step)
    requires Enabled(s, t)
    ensures s.nextId <= Apply(s, t).nextId
    ensures t.Land? && !s.calls[t.c].Rename? ==> s.nextId < Apply(s, t).nextId
  {
  }

  lemma ActiveNamesKept(s: State, t: Step)
    requires AgreeInv(s) && Enabled(s, t)
    ensures ActiveNamesDistinct(Apply(s, t).rows)
  {
    RowNamesKept(s, t);
  }

  // The unique index: no statement makes two active rows share a name.
  lemma RowNamesKept(s: State, t: Step)
    requires ActiveNamesDistinct(s.rows) && Enabled(s, t)
    ensures ActiveNamesDistinct(Apply(s, t).rows)
  {
    match t
    case Write(c) => hide ApplyLand, ApplyGiveUp, ApplyUndo, Add;
    case Land(c) => hide ApplyWrite, ApplyGiveUp, ApplyUndo;
    case GiveUp(c) => hide ApplyWrite, ApplyLand, ApplyUndo, Add;
    case Undo(c) => hide ApplyWrite, ApplyLand, ApplyGiveUp, Add;
    case _ => hide ApplyWrite, ApplyLand, ApplyGiveUp, ApplyUndo, Add;
  }

  // An active row's repo stays live or about to be.
  lemma AccountKept(s: State, t: Step, u: Uid)
    requires AgreeInv(s) && Enabled(s, t) && u in Apply(s, t).rows && Apply(s, t).rows[u].active
    ensures LiveUid(Apply(s, t).repos, u) || BroughtIn(Apply(s, t), u)
  {
    var s' := Apply(s, t);
    if Actor(t).Some? && t.c in s.calls && Subject(s.calls[t.c]) == Some(u) {
      OwnAccountKept(s, t, u);
    } else {
      OtherRowsUntouched(s, t, u);
      EntriesAfter(s, t);
      if LiveUid(s.repos, u) {
        var n :| n in s.repos && s.repos[n].uid == u;
        LiveElsewhere(s, t, n);
      } else {
        var d :| d in s.calls && s.calls[d].pc == Written && Bringing(s.calls[d], u);
        OthersUntouched(s, t, d);
        assert s'.calls[d].pc == Written && Bringing(s'.calls[d], u);
      }
    }
  }

  lemma LiveElsewhere(s: State, t: Step, n: Name)
    requires AgreeInv(s) && Enabled(s, t) && n in s.repos
    requires Actor(t).Some? && t.c in s.calls ==> Subject(s.calls[t.c]) != Some(s.repos[n].uid)
    ensures n in Apply(s, t).repos && Apply(s, t).repos[n] == s.repos[n]
  {
    EntriesAfter(s, t);
    assert (t.Land? || t.Drop?) ==> Fits(s.calls[t.c], s.rows, s.repos, Archiving(s));
    hide Apply;
  }

  lemma OwnAccountKept(s: State, t: Step, u: Uid)
    requires AgreeInv(s) && Enabled(s, t) && u in Apply(s, t).rows && Apply(s, t).rows[u].active
    requires Actor(t).Some? && t.c in s.calls && Subject(s.calls[t.c]) == Some(u)
    ensures LiveUid(Apply(s, t).repos, u) || BroughtIn(Apply(s, t), u)
  {
    var s' := Apply(s, t);
    EntriesAfter(s, t);
    OwnStillActive(s, t, u);
    hide Apply, MapAgrees, Exclusive, NoChain, ActiveNamesDistinct, OneEntryPerUid, OldIds, Reservations, LockHeld, CallsFit;
    assert StillActive(s, t, s', u);
    if t.Land? && s'.repos != s.repos {
      assert s.calls[t.c].to in s'.repos && s'.repos[s.calls[t.c].to].uid == u;
    } else if !(t.c in s'.calls && s'.calls[t.c].pc == Written && Bringing(s'.calls[t.c], u)) && !LiveUid(s.repos, u) {
      var d :| d in s.calls && s.calls[d].pc == Written && Bringing(s.calls[d], u);
      OthersUntouched(s, t, d);
      assert s'.calls[d].pc == Written && Bringing(s'.calls[d], u);
    }
  }

  // A repo whose row its own call leaves active was active already, unless the call is bringing
  // it in; and it stays in the map.
  lemma OwnStillActive(s: State, t: Step, u: Uid)
    requires AgreeInv(s) && Enabled(s, t) && u in Apply(s, t).rows && Apply(s, t).rows[u].active
    requires Actor(t).Some? && t.c in s.calls && Subject(s.calls[t.c]) == Some(u)
    ensures StillActive(s, t, Apply(s, t), u)
  {
    var call := s.calls[t.c];
    assert Fits(call, s.rows, s.repos, Archiving(s));
    hide AgreeInv, Apply, Archiving;
    match call
    case Rename(_, _, _, _) => RenameKeepsActive(s, t, u);
    case Archive(_, _, _) => ArchiveRows(s, t);
    case Create(_, _, _) => CreateKeepsActive(s, t, u);
    case Restore(_, _, _, _) => RestoreKeepsActive(s, t, u);
    case LensPut(_, _, _) =>
  }

  ghost predicate StillActive(s: State, t: Step, s': State, u: Uid)
    requires Actor(t).Some? && t.c in s.calls
  {
    && !t.Drop?
    && ((t.c in s'.calls && s'.calls[t.c].pc == Written && Bringing(s'.calls[t.c], u))
        || (u in s.rows && s.rows[u].active && (s.calls[t.c].pc == Written && Bringing(s.calls[t.c], u) ==> t.Land?)))
  }

  lemma RenameKeepsActive(s: State, t: Step, u: Uid)
    requires Enabled(s, t) && Actor(t).Some? && t.c in s.calls && s.calls[t.c].Rename?
    requires u in Apply(s, t).rows && Apply(s, t).rows[u].active
    ensures StillActive(s, t, Apply(s, t), u)
  {
    hide Taken;
  }

  lemma CreateKeepsActive(s: State, t: Step, u: Uid)
    requires Enabled(s, t) && Actor(t).Some? && t.c in s.calls && s.calls[t.c].Create? && s.calls[t.c].uid == u
    requires CreateFits(s.calls[t.c], s.rows, s.repos)
    requires u in Apply(s, t).rows && Apply(s, t).rows[u].active
    ensures StillActive(s, t, Apply(s, t), u)
  {
    hide Taken;
  }

  lemma RestoreKeepsActive(s: State, t: Step, u: Uid)
    requires Enabled(s, t) && Actor(t).Some? && t.c in s.calls && s.calls[t.c].Restore? && s.calls[t.c].uid == u
    requires exists archiving :: RestoreFits(s.calls[t.c], s.rows, s.repos, archiving)
    requires u in Apply(s, t).rows && Apply(s, t).rows[u].active
    ensures StillActive(s, t, Apply(s, t), u)
  {
    hide Taken;
  }

  lemma AgreeKept(s: State, t: Step)
    requires AgreeInv(s) && Enabled(s, t) && Orderly(s, t)
    ensures AgreeInv(Apply(s, t))
  {
    ReservationsKept(s, t);
    LockKept(s, t);
    OldIdsKept(s, t);
    OneEntryKept(s, t);
    ActiveNamesKept(s, t);
    forall u | u in Apply(s, t).rows && Apply(s, t).rows[u].active
      ensures LiveUid(Apply(s, t).repos, u) || BroughtIn(Apply(s, t), u)
    {
      AccountKept(s, t, u);
    }
    MapAgreesKept(s, t);
    CallsFitKept(s, t);
    ExclusiveKept(s, t);
    NoChainKept(s, t);
  }

  // A disorderly step leaves the invariant at once: its clauses on overlapping calls are the
  // condition, carried along from step to step.
  lemma DisorderLeaves(s: State, t: Step)
    requires AgreeInv(s) && Enabled(s, t)
    ensures AgreeInv(Apply(s, t)) <==> Orderly(s, t)
  {
    if Orderly(s, t) {
      AgreeKept(s, t);
    } else if t.CheckFree? {
      ChainBreaks(s, t);
    } else {
      RestoreBreaks(s, t);
    }
  }

  lemma ChainBreaks(s: State, t: Step)
    requires CallsFit(s) && Enabled(s, t) && t.CheckFree? && !Orderly(s, t)
    ensures !NoChain(Apply(s, t).calls)
  {
    var calls := Apply(s, t).calls;
    var d :| d in s.calls && Renaming(s.calls[d], s.calls[t.c].inst.uid) && s.calls[d].from == s.calls[t.c].to;
    assert Fits(s.calls[t.c], s.rows, s.repos, Archiving(s));
    assert HeadedFor(calls[t.c]) && Renaming(calls[d], calls[t.c].inst.uid) && calls[d].from == calls[t.c].to;
  }

  lemma RestoreBreaks(s: State, t: Step)
    requires Enabled(s, t) && t.StartRestore? && !Orderly(s, t)
    ensures !Exclusive(Apply(s, t).calls)
  {
    var calls := Apply(s, t).calls;
    var d :| d in s.calls && (Renaming(s.calls[d], t.uid) || Bringing(s.calls[d], t.uid));
    assert Bringing(calls[t.c], t.uid) && calls[d] == s.calls[d] && d != t.c;
  }

  // ---------- whole runs ----------

  /** Every step of the run is orderly. */
  ghost predicate OrderlyRun(states: seq<State>, steps: seq<Step>)
    requires |states| == |steps| + 1
  {
    forall i :: 0 <= i < |steps| ==> Orderly(states[i], steps[i])
  }

  lemma IdleAgrees(s: State)
    requires Idle(s) && AllNamesAgree(s) && OldIds(s)
    ensures AgreeInv(s)
  {
    forall u | u in s.rows && s.rows[u].active
      ensures LiveUid(s.repos, u)
    {
      assert s.rows[u].name in s.repos;
    }
  }

  lemma QuietAgrees(s: State)
    requires AgreeInv(s) && s.calls == map[]
    ensures AllNamesAgree(s)
  {
    forall n | n in s.repos
      ensures s.repos[n].uid in s.rows && s.rows[s.repos[n].uid] == Row(n, true)
      ensures s.repos[n] in s.shown && s.shown[s.repos[n]] == n
    {
      assert EntryAgrees(s, n);
    }
    forall u | u in s.rows && s.rows[u].active
      ensures s.rows[u].name in s.repos && s.repos[s.rows[u].name].uid == u
    {
      assert LiveUid(s.repos, u);
      var n :| n in s.repos && s.repos[n].uid == u;
      assert s.rows[u] == Row(n, true);
    }
  }

  lemma {:induction false} AgreeAlong(states: seq<State>, steps: seq<Step>)
    requires Run(states, steps) && OrderlyRun(states, steps)
    requires Idle(states[0]) && AllNamesAgree(states[0]) && OldIds(states[0])
    ensures forall i :: 0 <= i < |states| ==> AgreeInv(states[i])
    decreases |steps|
  {
    hide AgreeInv, Enabled, Apply, Orderly;
    if |steps| == 0 {
      IdleAgrees(states[0]);
    } else {
      var n := |steps| - 1;
      assert forall i :: 0 <= i < n ==> states[..n + 1][i] == states[i] && steps[..n][i] == steps[i];
      AgreeAlong(states[..n + 1], steps[..n]);
      assert states[..n + 1][n] == states[n];
      assert StepTo(states[n], steps[n], states[n + 1]) && Orderly(states[n], steps[n]);
      AgreeKept(states[n], steps[n]);
    }
  }

  // Whatever calls interleave, every live entry's row stays active and named by its key or by an
  // unresolved rename of it; and whenever no call is under way all names agree.
  lemma {:induction false} NamesAgree(states: seq<State>, steps: seq<Step>)
    requires Run(states, steps) && OrderlyRun(states, steps)
    requires Idle(states[0]) && AllNamesAgree(states[0]) && OldIds(states[0])
    ensures forall s :: s in states ==> MapAgrees(s) && OneEntryPerUid(s.repos) && ActiveNamesDistinct(s.rows)
    ensures forall s :: s in states && s.calls == map[] ==> AllNamesAgree(s)
  {
    AgreeAlong(states, steps);
    forall s | s in states && s.calls == map[]
      ensures AllNamesAgree(s)
    {
      QuietAgrees(s);
    }
  }
}
