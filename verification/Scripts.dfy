/**
 How a lifecycle call can end (internal/repos/lifecycle.go): its outcomes, the steps each takes, why it
 came to it, and what it comes to when no other call gets in between.
*/
module Scripts {
  import opened Wrappers
  import opened Lifecycle

  datatype Outcome =
    | Done
    | NoChange      // the name is the one it has
    | NotFound
    | InFlight      // another call holds the name
    | NameTaken     // by a live repo
    | LensHolds     // by a lens
    | Refused       // the statement did not apply
    | Lost          // the row was written, the map had moved on
    | Erred         // the lens registry could not be read
    | Failed        // a statement failed
    | NotActivated  // the row would not become active
    | BackedOut     // a write was taken back
    | SeenRepo      // the name was live before anything was reserved
    | SeenLens      // the name was a lens's before anything was reserved
    | NotMinted     // the identifier is in use, which a new one never is
    | Busy          // not begun when the schedule ended
    | Waiting       // still under way when the schedule ended, its name reserved
    | StillLanding  // still under way when the schedule ended, its row written

  function Stage(call: Call, pc: Pc): Call {
    call.(pc := pc)
  }

  // ---- the steps each outcome takes ----

  function ReserveScript(me: CallId, r: Outcome): seq<Step> {
    match r
    case InFlight => [Reserve(me)]
    case Waiting => [Reserve(me)]
    case NameTaken => [Reserve(me), CheckFree(me), Release(me)]
    case _ => [Reserve(me), CheckFree(me)]
  }

  function LensScript(me: CallId, r: Outcome): seq<Step> {
    match r
    case Erred => [GiveUp(me), Release(me)]
    case LensHolds => [CheckLens(me), Release(me)]
    case _ => [CheckLens(me)]
  }

  function ClaimScript(me: CallId, r: Outcome): seq<Step> {
    if r in {InFlight, Waiting, NameTaken} then ReserveScript(me, r)
    else ReserveScript(me, Done) + LensScript(me, r)
  }

  /** The repo is at its new name in one stroke. */
  ghost predicate Landed(s: State, call: Call)
    requires call.Rename?
  {
    call.to in s.repos && s.repos[call.to] == call.inst && (call.from != call.to ==> call.from !in s.repos) &&
    call.inst in s.shown && s.shown[call.inst] == call.to
  }

  function CommitScript(me: CallId, r: Outcome): seq<Step> {
    match r
    case Refused => [Write(me), Release(me)]
    case Lost => [Write(me), Land(me), Undo(me), Release(me)]
    case Waiting => [Write(me)]
    case _ => [Write(me), Land(me), Release(me)]
  }

  function SwapScript(me: CallId, r: Outcome): seq<Step> {
    if r == Done then [Land(me), Release(me)] else [Land(me), Undo(me), Release(me)]
  }

  /** The new instance is at its name. */
  ghost predicate Registered(s: State, call: Call)
    requires call.Create? || call.Restore?
  {
    call.to in s.repos && s.repos[call.to].uid == call.uid && s.repos[call.to] in s.shown && s.shown[s.repos[call.to]] == call.to
  }

  /** The lens has its new name and not its old. */
  ghost predicate LensNamed(s: State, prior: Option<Name>, to: Name) {
    to in s.lenses && (prior.Some? && prior.value != to ==> prior.value !in s.lenses)
  }

  /** Outcomes of a call that never began. */
  function Early(): set<Outcome> {
    {Busy, NotFound, NoChange, SeenRepo, SeenLens, NotMinted}
  }

  function LandScript(me: CallId, r: Outcome): seq<Step> {
    match r
    case StillLanding => []
    case BackedOut => [GiveUp(me), Release(me)]
    case _ => [Land(me), Release(me)]
  }

  function CreatedScript(me: CallId, r: Outcome): seq<Step> {
    [Write(me)] + if r == Refused then [Release(me)] else LandScript(me, r)
  }

  function NewCreateScript(me: CallId, r: Outcome): seq<Step> {
    match r
    case Failed => ClaimScript(me, Done) + [GiveUp(me), Release(me)]
    case Refused => ClaimScript(me, Done) + CreatedScript(me, r)
    case StillLanding => ClaimScript(me, Done) + CreatedScript(me, r)
    case BackedOut => ClaimScript(me, Done) + CreatedScript(me, r)
    case Done => ClaimScript(me, Done) + CreatedScript(me, r)
    case _ => ClaimScript(me, r)
  }

  function CreateScript(me: CallId, uid: Uid, to: Name, r: Outcome): seq<Step> {
    if r in Early() then [] else [StartCreate(me, uid, to)] + NewCreateScript(me, r)
  }

  function ActivateScript(me: CallId, r: Outcome): seq<Step> {
    match r
    case NotActivated => [Activate(me), Undo(me), Release(me)]
    case BackedOut => [Activate(me), GiveUp(me), Undo(me), Release(me)]
    case StillLanding => [Activate(me)]
    case _ => [Activate(me), Land(me), Release(me)]
  }

  function RestoredScript(me: CallId, r: Outcome): seq<Step> {
    [Write(me)] + if r == Refused then [Release(me)] else ActivateScript(me, r)
  }

  function FoundScript(me: CallId, r: Outcome): seq<Step> {
    match r
    case Failed => ClaimScript(me, Done) + [GiveUp(me), Release(me)]
    case Refused => ClaimScript(me, Done) + RestoredScript(me, r)
    case NotActivated => ClaimScript(me, Done) + RestoredScript(me, r)
    case BackedOut => ClaimScript(me, Done) + RestoredScript(me, r)
    case StillLanding => ClaimScript(me, Done) + RestoredScript(me, r)
    case Done => ClaimScript(me, Done) + RestoredScript(me, r)
    case _ => ClaimScript(me, r)
  }

  function RestoreScript(me: CallId, uid: Uid, newName: Option<Name>, r: Outcome): seq<Step> {
    if r in Early() then [] else [StartRestore(me, uid, newName)] + FoundScript(me, r)
  }

  function LockedScript(me: CallId, r: Outcome): seq<Step> {
    if r in {NameTaken, Refused, Done} then [LensLock(me)] + CheckedScript(me, r) else [LensLock(me), GiveUp(me), Release(me)]
  }

  function CheckedScript(me: CallId, r: Outcome): seq<Step> {
    if r == NameTaken then [LensCheck(me), Release(me)] else [LensCheck(me), LensWrite(me), Release(me)]
  }

  function PutScript(me: CallId, r: Outcome): seq<Step> {
    if r in {InFlight, Waiting} then [Reserve(me)] else [Reserve(me)] + LockedScript(me, r)
  }

  function LensPutScript(me: CallId, prior: Option<Name>, to: Name, r: Outcome): seq<Step> {
    [StartLens(me, prior, to)] + PutScript(me, r)
  }

  /** The row went before the map entry did. */
  ghost predicate Archived(flipped: State, dropped: State, call: Call)
    requires call.Archive?
  {
    call.inst.uid in flipped.rows && !flipped.rows[call.inst.uid].active && call.name !in dropped.repos
  }

  function LockedArchiveScript(me: CallId, r: Outcome): seq<Step> {
    match r
    case LensHolds => [GiveUp(me)]
    case Refused => [Flip(me)]
    case _ => [Flip(me), Drop(me)]
  }

  function ArchiveScript(me: CallId, name: Name, r: Outcome): seq<Step> {
    if r in Early() then [] else [StartArchive(me, name)] + LockedArchiveScript(me, r)
  }

  function RenameScript(me: CallId, from: Name, to: Name, r: Outcome): seq<Step> {
    if r in Early() then []
    else [StartRename(me, from, to)] + ClaimedScript(me, r)
  }

  function ClaimedScript(me: CallId, r: Outcome): seq<Step> {
    match r
    case Failed => ClaimScript(me, Done) + [GiveUp(me), Release(me)]
    case Refused => ClaimScript(me, Done) + CommitScript(me, r)
    case Lost => ClaimScript(me, Done) + CommitScript(me, r)
    case Done => ClaimScript(me, Done) + CommitScript(me, r)
    case StillLanding => ClaimScript(me, Done) + CommitScript(me, Waiting)
    case _ => ClaimScript(me, r)
  }

  // ---- why a call ended as it did ----

  /** Another active row has the name. */
  ghost predicate RowElsewhere(s: State, uid: Uid, name: Name) {
    exists u :: u in s.rows && u != uid && s.rows[u].active && s.rows[u].name == name
  }

  /** What was so in a state the call passed through; failures come from outside. */
  ghost predicate Because(s: State, call: Call, r: Outcome)
    requires NamesRepo(call)
  {
    match r
    case InFlight => call.to in s.reserved
    case NameTaken => call.to in s.repos
    case LensHolds => call.to in s.lenses
    case Waiting => s.lock.Some?
    case StillLanding => s.lock.Some?
    case Refused => RowRefuses(s, call)
    case NotActivated => call.Restore? && (call.uid !in s.rows || RowElsewhere(s, call.uid, s.rows[call.uid].name))
    case Lost => call.Rename? && !(call.from in s.repos && s.repos[call.from] == call.inst && call.to !in s.repos)
    case Done => if call.Rename? then Landed(s, call) else Registered(s, call)
    case _ => true
  }

  /** The row is not as the call found it, or the name is another active row's. */
  ghost predicate RowRefuses(s: State, call: Call)
    requires NamesRepo(call)
  {
    match call
    case Rename(inst, from, to, _) =>
      inst.uid !in s.rows || s.rows[inst.uid].name != from || (s.rows[inst.uid].active && RowElsewhere(s, inst.uid, to))
    case Create(uid, to, _) => uid in s.rows || RowElsewhere(s, uid, to)
    case Restore(uid, _, to, _) => uid !in s.rows || (s.rows[uid].active && RowElsewhere(s, uid, to))
    case _ => true
  }

  ghost predicate LensBecause(s: State, prior: Option<Name>, to: Name, invalid: bool, r: Outcome) {
    match r
    case InFlight => to in s.reserved
    case Waiting => s.lock.Some?
    case NotFound => prior.Some? && prior.value !in s.lenses
    case NoChange => prior == Some(to)
    case Failed => prior.None? && invalid
    case NameTaken => to in s.repos
    case Refused => to in s.lenses || (prior.Some? && prior.value !in s.lenses)
    case Done => LensNamed(s, prior, to)
    case _ => false
  }

  lemma StagesAlike(s: State, call: Call, pc: Pc, r: Outcome)
    requires NamesRepo(call)
    ensures NamesRepo(Stage(call, pc)) && (Because(s, Stage(call, pc), r) <==> Because(s, call, r))
  {
    hide RowElsewhere;
    match call
    case Rename(_, _, _, _) =>
    case Create(_, _, _) =>
    case Restore(_, _, _, _) =>
    case _ =>
  }

  lemma RegisteredAlike(s: State, call: Call, pc: Pc)
    requires call.Create? || call.Restore?
    ensures Registered(s, Stage(call, pc)) <==> Registered(s, call)
  {
  }

  /** A failure is reported if and only if the call came to the statement that failed. */
  predicate FlagsFit(r: Outcome, lensErr: bool, rowErr: bool, openErr: bool) {
    match r
    case Erred => lensErr
    case LensHolds => !lensErr
    case Failed => !lensErr && rowErr
    case Refused => !lensErr && !rowErr
    case NotActivated => !lensErr && !rowErr
    case BackedOut => !lensErr && !rowErr && openErr
    case Lost => !lensErr && !rowErr
    case StillLanding => !lensErr && !rowErr && !openErr
    case Done => !lensErr && !rowErr && !openErr
    case _ => true
  }

  // ---- a call alone ----

  /** From s these steps lead to t, each of them possible. */
  ghost predicate Plays(s: State, steps: seq<Step>, t: State)
    decreases |steps|
  {
    if steps == [] then s == t else Enabled(s, steps[0]) && Plays(Apply(s, steps[0]), steps[1..], t)
  }

  lemma {:induction false} PlaysThen(s: State, first: seq<Step>, next: seq<Step>, t: State) returns (m: State)
    requires Plays(s, first + next, t)
    ensures Plays(s, first, m) && Plays(m, next, t)
    decreases |first|
  {
    hide Enabled, Apply;
    if first == [] {
      assert first + next == next;
      m := s;
    } else {
      assert (first + next)[1..] == first[1..] + next;
      m := PlaysThen(Apply(s, first[0]), first[1..], next, t);
    }
  }

  lemma Play0(s: State, t: State)
    requires Plays(s, [], t)
    ensures s == t
  {
  }

  lemma Play1(s: State, x: Step, t: State)
    requires Plays(s, [x], t)
    ensures Enabled(s, x) && t == Apply(s, x)
  {
    hide Enabled, Apply;
  }

  lemma Play2(s: State, x: Step, y: Step, t: State)
    requires Plays(s, [x, y], t)
    ensures Enabled(s, x) && Enabled(Apply(s, x), y) && t == Apply(Apply(s, x), y)
  {
    hide Enabled, Apply;
    assert [x, y][1..] == [y];
    Play1(Apply(s, x), y, t);
  }

  lemma Play3(s: State, x: Step, y: Step, z: Step, t: State)
    requires Plays(s, [x, y, z], t)
    ensures Enabled(s, x) && Plays(Apply(s, x), [y, z], t)
  {
    hide Enabled, Apply;
    assert [x, y, z][1..] == [y, z];
  }

  // The name is given back and the call is over.
  function Released(s: State, me: CallId): State
    requires me in s.calls && HasTarget(s.calls[me])
  {
    s.(reserved := s.reserved - {s.calls[me].to}, calls := s.calls - {me})
  }

  function Gone(s: State, me: CallId): State {
    s.(calls := s.calls - {me})
  }

  // The name is reserved, and the call has come this far.
  function Holding(s: State, me: CallId, pc: Pc): State
    requires me in s.calls && HasTarget(s.calls[me])
  {
    s.(reserved := s.reserved + {s.calls[me].to}, calls := s.calls[me := Stage(s.calls[me], pc)])
  }

  lemma ReleasedAgain(s: State, me: CallId, pc: Pc)
    requires me in s.calls && HasTarget(s.calls[me]) && s.calls[me].to !in s.reserved
    ensures me in Holding(s, me, pc).calls && Holding(s, me, pc).calls[me] == Stage(s.calls[me], pc)
    ensures HasTarget(Stage(s.calls[me], pc)) && Stage(s.calls[me], pc).to == s.calls[me].to
    ensures Released(Holding(s, me, pc), me) == Gone(s, me)
  {
    var h := Holding(s, me, pc);
    assert h.reserved - {s.calls[me].to} == s.reserved;
    assert h.calls - {me} == s.calls - {me};
  }

  lemma ReserveStep(s: State, me: CallId)
    requires Enabled(s, Reserve(me))
    ensures At(s, me, Got) && HasTarget(s.calls[me])
    ensures Apply(s, Reserve(me)) == if s.calls[me].to in s.reserved then Gone(s, me) else Holding(s, me, Reserved)
  {
  }

  lemma CheckFreeStep(s: State, me: CallId)
    requires Enabled(s, CheckFree(me))
    ensures At(s, me, Reserved) && HasTarget(s.calls[me]) && s.lock.None?
    ensures Apply(s, CheckFree(me)) == Goto(s, me, if s.calls[me].to in s.repos then Ending else Checked)
  {
  }

  lemma CheckLensStep(s: State, me: CallId)
    requires Enabled(s, CheckLens(me))
    ensures At(s, me, Checked) && HasTarget(s.calls[me])
    ensures Apply(s, CheckLens(me)) == Goto(s, me, if s.calls[me].to in s.lenses then Ending else Cleared)
  {
  }

  lemma ReleaseStep(s: State, me: CallId)
    requires Enabled(s, Release(me))
    ensures At(s, me, Ending) && HasTarget(s.calls[me])
    ensures Apply(s, Release(me)) == Released(s, me)
  {
  }

  lemma StopStep(s: State, me: CallId)
    requires Enabled(s, GiveUp(me)) && NamesRepo(s.calls[me]) && s.calls[me].pc in {Checked, Cleared}
    ensures Apply(s, GiveUp(me)) == Goto(s, me, Ending)
  {
  }

  lemma ReservePlays(s: State, me: CallId, r: Outcome, t: State)
    requires At(s, me, Got) && NamesRepo(s.calls[me]) && Plays(s, ReserveScript(me, r), t)
    requires r in {InFlight, Waiting, NameTaken, Done} && (r == InFlight ==> me !in t.calls) && (r == Waiting ==> me in t.calls)
    ensures s.calls[me].to in s.reserved <==> r == InFlight
    ensures r == InFlight ==> t == Gone(s, me)
    ensures r == Waiting ==> t == Holding(s, me, Reserved)
    ensures r == NameTaken ==> s.lock.None? && s.calls[me].to in s.repos && t == Gone(s, me)
    ensures r == Done ==> s.lock.None? && t == Holding(s, me, if s.calls[me].to in s.repos then Ending else Checked)
  {
    hide Enabled, Apply, Plays;
    match r
    case NameTaken =>
      Play3(s, Reserve(me), CheckFree(me), Release(me), t);
      ReserveStep(s, me);
      Play2(Apply(s, Reserve(me)), CheckFree(me), Release(me), t);
      TakenPlays(s, me, t);
    case Done =>
      Play2(s, Reserve(me), CheckFree(me), t);
      LookPlays(s, me);
    case _ =>
      Play1(s, Reserve(me), t);
      ReserveStep(s, me);
  }

  lemma LookPlays(s: State, me: CallId)
    requires Enabled(s, Reserve(me)) && Enabled(Apply(s, Reserve(me)), CheckFree(me))
    ensures s.lock.None? && me in s.calls && HasTarget(s.calls[me]) && s.calls[me].to !in s.reserved
    ensures Apply(Apply(s, Reserve(me)), CheckFree(me)) == Holding(s, me, if s.calls[me].to in s.repos then Ending else Checked)
  {
    hide Enabled, Apply;
    ReserveStep(s, me);
    var h := Apply(s, Reserve(me));
    CheckFreeStep(h, me);
    var pc := if s.calls[me].to in s.repos then Ending else Checked;
    assert h.calls[me := Stage(h.calls[me], pc)] == s.calls[me := Stage(s.calls[me], pc)];
  }

  lemma TakenPlays(s: State, me: CallId, t: State)
    requires Enabled(s, Reserve(me)) && Enabled(Apply(s, Reserve(me)), CheckFree(me))
    requires var l := Apply(Apply(s, Reserve(me)), CheckFree(me)); Enabled(l, Release(me)) && t == Apply(l, Release(me))
    ensures s.lock.None? && me in s.calls && HasTarget(s.calls[me]) && s.calls[me].to !in s.reserved
    ensures s.calls[me].to in s.repos && t == Gone(s, me)
  {
    hide Enabled, Apply;
    LookPlays(s, me);
    ReleaseStep(Apply(Apply(s, Reserve(me)), CheckFree(me)), me);
    ReleasedAgain(s, me, Ending);
  }

  lemma LensPlays(s: State, me: CallId, r: Outcome, t: State)
    requires At(s, me, Checked) && NamesRepo(s.calls[me]) && Plays(s, LensScript(me, r), t) && r in {Erred, LensHolds, Done}
    ensures r == Erred ==> t == Released(s, me)
    ensures r == LensHolds ==> s.calls[me].to in s.lenses && t == Released(s, me)
    ensures r == Done ==> t == Goto(s, me, if s.calls[me].to in s.lenses then Ending else Cleared)
  {
    hide Enabled, Apply, Plays;
    match r
    case Erred =>
      Play2(s, GiveUp(me), Release(me), t);
      StopStep(s, me);
      ReleaseStep(Apply(s, GiveUp(me)), me);
      assert t.calls == s.calls - {me};
    case LensHolds =>
      Play2(s, CheckLens(me), Release(me), t);
      CheckLensStep(s, me);
      ReleaseStep(Apply(s, CheckLens(me)), me);
      assert t.calls == s.calls - {me};
    case _ =>
      Play1(s, CheckLens(me), t);
      CheckLensStep(s, me);
  }

  /** A claim alone: what it comes to, and what it leaves. */
  lemma ClaimPlays(s: State, me: CallId, r: Outcome, t: State)
    requires At(s, me, Got) && NamesRepo(s.calls[me]) && Plays(s, ClaimScript(me, r), t)
    requires r in {InFlight, Waiting, NameTaken, Erred, LensHolds, Done}
    requires (r == InFlight ==> me !in t.calls) && (r == Waiting ==> me in t.calls)
    ensures s.calls[me].to in s.reserved <==> r == InFlight
    ensures r !in {InFlight, Waiting} ==> s.lock.None? && (s.calls[me].to in s.repos <==> r == NameTaken)
    ensures r == LensHolds ==> s.calls[me].to in s.lenses
    ensures r == Waiting ==> t == Holding(s, me, Reserved)
    ensures r == Done ==> t == Holding(s, me, if s.calls[me].to in s.lenses then Ending else Cleared)
    ensures r !in {Waiting, Done} ==> t == Gone(s, me)
  {
    hide Enabled, Apply, Plays, ReserveScript, LensScript;
    if r in {InFlight, Waiting, NameTaken} {
      ReservePlays(s, me, r, t);
    } else {
      var m := PlaysThen(s, ReserveScript(me, Done), LensScript(me, r), t);
      ReservePlays(s, me, Done, m);
      LensStarts(m, me, r, t);
      ReleasedAgain(s, me, Checked);
      LensPlays(m, me, r, t);
      HoldingThen(s, me, Checked, if s.calls[me].to in s.lenses then Ending else Cleared);
    }
  }

  lemma LensStarts(s: State, me: CallId, r: Outcome, t: State)
    requires Plays(s, LensScript(me, r), t) && r in {Erred, LensHolds, Done} && me in s.calls && NamesRepo(s.calls[me])
    ensures s.calls[me].pc != Ending
  {
    hide Apply;
  }

  lemma HoldingThen(s: State, me: CallId, pc: Pc, next: Pc)
    requires me in s.calls && HasTarget(s.calls[me])
    ensures Goto(Holding(s, me, pc), me, next) == Holding(s, me, next)
  {
    assert s.calls[me := Stage(s.calls[me], pc)][me := Stage(s.calls[me], next)] == s.calls[me := Stage(s.calls[me], next)];
  }

  lemma StopPlays(s: State, me: CallId, t: State)
    requires At(s, me, Cleared) && NamesRepo(s.calls[me]) && Plays(s, [GiveUp(me), Release(me)], t)
    ensures t == Released(s, me)
  {
    hide Enabled, Apply, Plays;
    Play2(s, GiveUp(me), Release(me), t);
    StopStep(s, me);
    ReleaseStep(Apply(s, GiveUp(me)), me);
    assert t.calls == s.calls - {me};
  }

  // ---- renaming alone ----

  /** What a rename comes to when no other call gets in between, in the order things are looked at. */
  ghost function RenameOutcome(s: State, from: Name, to: Name, lensErr: bool, rowErr: bool): Outcome {
    if s.lock.Some? then Busy
    else if from !in s.repos then NotFound
    else if from == to then NoChange
    else if to in s.reserved then InFlight
    else if to in s.repos then NameTaken
    else if lensErr then Erred
    else if to in s.lenses then LensHolds
    else if rowErr then Failed
    else
      var uid := s.repos[from].uid;
      if uid !in s.rows || s.rows[uid].name != from
        || (s.rows[uid].active && exists u :: u in s.rows && u != uid && s.rows[u].active && s.rows[u].name == to)
      then Refused else Done
  }

  /** And what is left: everything as it was, unless it is done. */
  ghost predicate RenameLeaves(s: State, t: State, from: Name, to: Name, r: Outcome) {
    if r == Done && from in s.repos then
      var inst := s.repos[from];
      inst.uid in s.rows &&
      t == s.(rows := s.rows[inst.uid := Row(to, s.rows[inst.uid].active)], repos := (s.repos - {from})[to := inst], shown := s.shown[inst := to])
    else t == s
  }

  lemma RenameWriteStep(s: State, me: CallId)
    requires Enabled(s, Write(me)) && s.calls[me].Rename?
    ensures var c := s.calls[me];
      Apply(s, Write(me)) ==
        if RowRefuses(s, c) then Goto(s, me, Ending)
        else Goto(s, me, Written).(rows := s.rows[c.inst.uid := Row(c.to, s.rows[c.inst.uid].active)])
  {
  }

  lemma RenameLandStep(s: State, me: CallId)
    requires Enabled(s, Land(me)) && s.calls[me].Rename?
    ensures var c := s.calls[me];
      Apply(s, Land(me)) ==
        if c.from in s.repos && s.repos[c.from] == c.inst && c.to !in s.repos
        then Goto(s, me, Ending).(repos := (s.repos - {c.from})[c.to := c.inst], shown := s.shown[c.inst := c.to])
        else Goto(s, me, Reverting)
  {
  }

  lemma CommitPlays(s: State, me: CallId, r: Outcome, t: State)
    requires At(s, me, Cleared) && s.calls[me].Rename? && r in {Refused, Lost, Waiting, Done}
    requires Plays(s, CommitScript(me, r), t)
    requires var c := s.calls[me]; c.from in s.repos && s.repos[c.from] == c.inst && c.to !in s.repos
    ensures r != Lost && (r == Waiting ==> t.lock == s.lock)
    ensures r != Waiting ==> (RowRefuses(s, s.calls[me]) <==> r == Refused)
    ensures r == Refused ==> t == Released(s, me)
    ensures r == Done ==>
      var c := s.calls[me];
      !RowRefuses(s, c) &&
      t == Released(s, me).(rows := s.rows[c.inst.uid := Row(c.to, s.rows[c.inst.uid].active)],
                            repos := (s.repos - {c.from})[c.to := c.inst], shown := s.shown[c.inst := c.to])
  {
    hide Enabled, Apply, Plays, RowElsewhere, RowRefuses;
    if r == Waiting {
      Play1(s, Write(me), t);
      RenameWriteStep(s, me);
    } else if r == Refused {
      Play2(s, Write(me), Release(me), t);
      RenameWriteStep(s, me);
      ReleaseStep(Apply(s, Write(me)), me);
      assert t.calls == s.calls - {me};
    } else {
      var rest := SwapScript(me, r);
      assert CommitScript(me, r) == [Write(me)] + rest;
      var m := PlaysThen(s, [Write(me)], rest, t);
      Play1(s, Write(me), m);
      RenameWriteStep(s, me);
      SwapPlays(m, me, r, t);
      assert t.calls == s.calls - {me};
    }
  }

  lemma SwapPlays(s: State, me: CallId, r: Outcome, t: State)
    requires me in s.calls && s.calls[me].Rename? && r in {Lost, Done}
    requires Plays(s, SwapScript(me, r), t)
    requires var c := s.calls[me]; c.from in s.repos && s.repos[c.from] == c.inst && c.to !in s.repos
    ensures r == Done && At(s, me, Written)
    ensures var c := s.calls[me];
      t == Released(s, me).(repos := (s.repos - {c.from})[c.to := c.inst], shown := s.shown[c.inst := c.to])
  {
    hide Enabled, Apply, Plays;
    if r == Done {
      Play2(s, Land(me), Release(me), t);
      LandNeedsWritten(s, me);
      RenameLandStep(s, me);
      ReleaseStep(Apply(s, Land(me)), me);
      assert t.calls == s.calls - {me};
    } else {
      Play3(s, Land(me), Undo(me), Release(me), t);
      RenameLandStep(s, me);
      Play2(Apply(s, Land(me)), Undo(me), Release(me), t);
      UndoNeedsFailure(Apply(s, Land(me)), me);
    }
  }

  lemma LandNeedsWritten(s: State, me: CallId)
    requires Enabled(s, Land(me))
    ensures At(s, me, Written) && s.lock.None?
  {
  }

  lemma UndoNeedsFailure(s: State, me: CallId)
    requires Enabled(s, Undo(me))
    ensures me in s.calls && s.calls[me].pc in {Reverting, BackingOut}
  {
  }

  lemma WriteNeedsCleared(s: State, me: CallId)
    requires Enabled(s, Write(me))
    ensures At(s, me, Cleared)
  {
  }

  lemma NotYetEnding(s: State, me: CallId, rest: seq<Step>, t: State)
    requires Plays(s, rest, t) && rest != [] && rest[0] in {GiveUp(me), Write(me)} && me in s.calls && NamesRepo(s.calls[me])
    ensures s.calls[me].pc != Ending
  {
    hide Apply;
  }

  /** A call is over, its name given back, everything else as it was. */
  lemma BackAgain(s: State, me: CallId, call: Call)
    requires me !in s.calls && HasTarget(call) && call.to !in s.reserved
    ensures var b := s.(calls := s.calls[me := call]);
      Gone(b, me) == s && Released(Holding(b, me, Cleared), me) == s && me in Holding(b, me, Cleared).calls
      && Holding(b, me, Cleared).calls[me] == Stage(call, Cleared)
  {
    var b := s.(calls := s.calls[me := call]);
    assert b.calls - {me} == s.calls;
    ReleasedAgain(b, me, Cleared);
  }

  // After a claim that went well.
  lemma ClaimedPlays(s: State, me: CallId, rest: seq<Step>, t: State) returns (m: State)
    requires At(s, me, Got) && NamesRepo(s.calls[me]) && Plays(s, ClaimScript(me, Done) + rest, t)
    requires rest != [] && rest[0] in {GiveUp(me), Write(me)}
    ensures var to := s.calls[me].to; s.lock.None? && to !in s.reserved && to !in s.repos && to !in s.lenses
    ensures m == Holding(s, me, Cleared) && Plays(m, rest, t)
  {
    hide Enabled, Apply, Plays, ClaimScript;
    m := PlaysThen(s, ClaimScript(me, Done), rest, t);
    ClaimPlays(s, me, Done, m);
    NotYetEnding(m, me, rest, t);
  }

  lemma StartRenameStep(s: State, me: CallId, from: Name, to: Name)
    requires Enabled(s, StartRename(me, from, to))
    ensures me !in s.calls && s.lock.None? && from in s.repos && from != to
    ensures Apply(s, StartRename(me, from, to)) == s.(calls := s.calls[me := Rename(s.repos[from], from, to, Got)])
  {
  }

  /** A rename that began and met no other call. */
  lemma RenameAlone(s: State, t: State, me: CallId, from: Name, to: Name, lensErr: bool, rowErr: bool, r: Outcome)
    requires r !in Early() && Plays(s, RenameScript(me, from, to, r), t) && FlagsFit(r, lensErr, rowErr, false)
    requires r in {InFlight, Waiting, NameTaken, Erred, LensHolds, Failed, Refused, Lost, Done, StillLanding}
    requires r == InFlight ==> me !in t.calls
    requires r in {Waiting, StillLanding} ==> t.lock.Some? && me in t.calls
    ensures r == RenameOutcome(s, from, to, lensErr, rowErr) && RenameLeaves(s, t, from, to, r)
  {
    hide Enabled, Apply, Plays, ClaimScript, CommitScript, RowRefuses;
    var b := PlaysThen(s, [StartRename(me, from, to)], ClaimedScript(me, r), t);
    Play1(s, StartRename(me, from, to), b);
    StartRenameStep(s, me, from, to);
    var call := Rename(s.repos[from], from, to, Got);
    if r in {InFlight, Waiting, NameTaken, Erred, LensHolds} {
      ClaimPlays(b, me, r, t);
      GoneAgain(s, me, call);
    } else {
      RenameClaimed(s, t, me, b, call, r);
      RowRefusesRename(s, call);
    }
  }

  lemma RowRefusesRename(s: State, call: Call)
    requires call.Rename?
    ensures RowRefuses(s, call) <==>
      var uid := call.inst.uid;
      uid !in s.rows || s.rows[uid].name != call.from
      || (s.rows[uid].active && exists u :: u in s.rows && u != uid && s.rows[u].active && s.rows[u].name == call.to)
  {
  }

  lemma RowsAlike(s: State, m: State, call: Call, pc: Pc)
    requires NamesRepo(call) && s.rows == m.rows
    ensures NamesRepo(Stage(call, pc)) && (RowRefuses(s, call) <==> RowRefuses(m, Stage(call, pc)))
  {
    forall uid, to ensures RowElsewhere(s, uid, to) <==> RowElsewhere(m, uid, to) {
    }
    hide RowElsewhere;
    match call
    case Rename(_, _, _, _) =>
    case Create(_, _, _) =>
    case Restore(_, _, _, _) =>
    case _ =>
  }

  lemma GoneAgain(s: State, me: CallId, call: Call)
    requires me !in s.calls
    ensures Gone(s.(calls := s.calls[me := call]), me) == s
  {
    assert s.calls[me := call] - {me} == s.calls;
  }

  lemma RenameClaimed(s: State, t: State, me: CallId, b: State, call: Call, r: Outcome)
    requires me !in s.calls && call.Rename? && call.pc == Got && b == s.(calls := s.calls[me := call])
    requires call.from in s.repos && s.repos[call.from] == call.inst
    requires r in {Failed, Refused, Lost, Done, StillLanding} && Plays(b, ClaimedScript(me, r), t)
    requires r == StillLanding ==> t.lock.Some?
    ensures call.to !in s.reserved && call.to !in s.repos && call.to !in s.lenses && r in {Failed, Refused, Done}
    ensures r == Failed || (RowRefuses(s, call) <==> r == Refused)
    ensures RenameLeaves(s, t, call.from, call.to, r)
  {
    hide Enabled, Apply, Plays, ClaimScript, RowElsewhere, RowRefuses;
    var rest := if r == Failed then [GiveUp(me), Release(me)] else CommitScript(me, if r == StillLanding then Waiting else r);
    var m := ClaimedPlays(b, me, rest, t);
    BackAgain(s, me, call);
    if r == Failed {
      StopPlays(m, me, t);
    } else {
      CommitPlays(m, me, if r == StillLanding then Waiting else r, t);
      RowsAlike(s, m, call, Cleared);
      RowRefusesRename(s, call);
    }
  }

  // ---- creating alone ----

  ghost function CreateOutcome(s: State, uid: Uid, to: Name, lensErr: bool, rowErr: bool, initErr: bool): Outcome {
    if s.lock.Some? then Busy
    else if to in s.repos then SeenRepo
    else if to in s.lenses then SeenLens
    else if uid in s.rows || exists c :: c in s.calls && s.calls[c].Create? && s.calls[c].uid == uid then NotMinted
    else if to in s.reserved then InFlight
    else if lensErr then Erred
    else if rowErr then Failed
    else if exists u :: u in s.rows && u != uid && s.rows[u].active && s.rows[u].name == to then Refused
    else if initErr then BackedOut
    else Done
  }

  ghost predicate CreateLeaves(s: State, t: State, uid: Uid, to: Name, r: Outcome) {
    if r == Done then
      var inst := Inst(s.nextId, uid);
      t == s.(rows := s.rows[uid := Row(to, true)], repos := s.repos[to := inst], shown := s.shown[inst := to], nextId := s.nextId + 1)
    else t == s
  }

  lemma StartCreateStep(s: State, me: CallId, uid: Uid, to: Name)
    requires Enabled(s, StartCreate(me, uid, to))
    ensures me !in s.calls && uid !in s.rows && !(exists c :: c in s.calls && s.calls[c].Create? && s.calls[c].uid == uid)
    ensures Apply(s, StartCreate(me, uid, to)) == s.(calls := s.calls[me := Create(uid, to, Got)])
  {
  }

  lemma CreateWriteStep(s: State, me: CallId)
    requires Enabled(s, Write(me)) && s.calls[me].Create?
    ensures var c := s.calls[me];
      Apply(s, Write(me)) ==
        if RowRefuses(s, c) then Goto(s, me, Ending) else Goto(s, me, Written).(rows := s.rows[c.uid := Row(c.to, true)])
  {
  }

  lemma RegisterStep(s: State, me: CallId)
    requires Enabled(s, Land(me)) && (s.calls[me].Create? || s.calls[me].Restore?)
    ensures At(s, me, Written) && s.lock.None?
    ensures var c := s.calls[me]; var inst := Inst(s.nextId, c.uid);
      Apply(s, Land(me)) == Goto(s, me, Ending).(repos := s.repos[c.to := inst], shown := s.shown[inst := c.to], nextId := s.nextId + 1)
  {
  }

  lemma DeleteStep(s: State, me: CallId)
    requires Enabled(s, GiveUp(me)) && s.calls[me].Create? && s.calls[me].pc == Written
    ensures Apply(s, GiveUp(me)) == Goto(s, me, Ending).(rows := s.rows - {s.calls[me].uid})
  {
  }

  lemma RegisterPlays(s: State, me: CallId, t: State)
    requires me in s.calls && (s.calls[me].Create? || s.calls[me].Restore?) && Plays(s, [Land(me), Release(me)], t)
    ensures At(s, me, Written)
    ensures var c := s.calls[me]; var inst := Inst(s.nextId, c.uid);
      t == Released(s, me).(repos := s.repos[c.to := inst], shown := s.shown[inst := c.to], nextId := s.nextId + 1)
  {
    hide Enabled, Apply, Plays;
    Play2(s, Land(me), Release(me), t);
    RegisterStep(s, me);
    ReleaseStep(Apply(s, Land(me)), me);
    assert t.calls == s.calls - {me};
  }

  lemma CreateAlone(s: State, t: State, me: CallId, uid: Uid, to: Name, lensErr: bool, rowErr: bool, initErr: bool, r: Outcome)
    requires r in {InFlight, Waiting, NameTaken, Erred, LensHolds, Failed, Refused, StillLanding, BackedOut, Done}
    requires Plays(s, CreateScript(me, uid, to, r), t) && FlagsFit(r, lensErr, rowErr, initErr)
    requires s.lock.None? && to !in s.repos && to !in s.lenses
    requires r == InFlight ==> me !in t.calls
    requires r in {Waiting, StillLanding} ==> t.lock.Some? && me in t.calls
    ensures r == CreateOutcome(s, uid, to, lensErr, rowErr, initErr) && CreateLeaves(s, t, uid, to, r)
  {
    hide Enabled, Apply, Plays, ClaimScript, RowRefuses;
    var b := PlaysThen(s, [StartCreate(me, uid, to)], NewCreateScript(me, r), t);
    Play1(s, StartCreate(me, uid, to), b);
    StartCreateStep(s, me, uid, to);
    var call := Create(uid, to, Got);
    if r in {InFlight, Waiting, NameTaken, Erred, LensHolds} {
      ClaimPlays(b, me, r, t);
      GoneAgain(s, me, call);
    } else {
      CreateClaimed(s, t, me, b, call, r);
      RowRefusesCreate(s, call);
    }
  }

  lemma RowRefusesCreate(s: State, call: Call)
    requires call.Create?
    ensures RowRefuses(s, call) <==>
      call.uid in s.rows || exists u :: u in s.rows && u != call.uid && s.rows[u].active && s.rows[u].name == call.to
  {
  }

  lemma CreateClaimed(s: State, t: State, me: CallId, b: State, call: Call, r: Outcome)
    requires me !in s.calls && call.Create? && call.pc == Got && b == s.(calls := s.calls[me := call])
    requires s.lock.None? && call.uid !in s.rows
    requires r in {Failed, Refused, StillLanding, BackedOut, Done} && Plays(b, NewCreateScript(me, r), t)
    requires r == StillLanding ==> t.lock.Some?
    ensures call.to !in s.reserved && call.to !in s.repos && call.to !in s.lenses && r != StillLanding
    ensures r == Failed || (RowRefuses(s, call) <==> r == Refused)
    ensures CreateLeaves(s, t, call.uid, call.to, r)
  {
    hide Enabled, Apply, Plays, ClaimScript, RowElsewhere, RowRefuses;
    var rest := if r == Failed then [GiveUp(me), Release(me)] else [Write(me)] + (if r == Refused then [Release(me)] else LandScript(me, r));
    assert NewCreateScript(me, r) == ClaimScript(me, Done) + rest;
    var m := ClaimedPlays(b, me, rest, t);
    BackAgain(s, me, call);
    if r == Failed {
      StopPlays(m, me, t);
    } else {
      var w := PlaysThen(m, [Write(me)], if r == Refused then [Release(me)] else LandScript(me, r), t);
      Play1(m, Write(me), w);
      CreateWriteStep(m, me);
      RowsAlike(s, m, call, Cleared);
      CreateWritten(m, me, w, r, t);
    }
  }

  lemma CreateWritten(s: State, me: CallId, w: State, r: Outcome, t: State)
    requires me in s.calls && s.calls[me].Create? && s.lock.None? && s.calls[me].uid !in s.rows
    requires var c := s.calls[me];
      w == if RowRefuses(s, c) then Goto(s, me, Ending) else Goto(s, me, Written).(rows := s.rows[c.uid := Row(c.to, true)])
    requires r in {Refused, StillLanding, BackedOut, Done} && Plays(w, if r == Refused then [Release(me)] else LandScript(me, r), t)
    requires r == StillLanding ==> t.lock.Some?
    ensures r != StillLanding && (RowRefuses(s, s.calls[me]) <==> r == Refused)
    ensures r in {Refused, BackedOut} ==> t == Released(s, me)
    ensures var c := s.calls[me]; var inst := Inst(s.nextId, c.uid);
      r == Done ==>
        t == Released(s, me).(rows := s.rows[c.uid := Row(c.to, true)], repos := s.repos[c.to := inst], shown := s.shown[inst := c.to],
                              nextId := s.nextId + 1)
  {
    var c := s.calls[me];
    hide Enabled, Apply, RowRefuses, Plays;
    if r == StillLanding {
      Play0(w, t);
    } else if r == Refused {
      Play1(w, Release(me), t);
      ReleaseStep(w, me);
      assert t.calls == s.calls - {me};
    } else if r == Done {
      RegisterPlays(w, me, t);
      assert t.calls == s.calls - {me};
    } else {
      Play2(w, GiveUp(me), Release(me), t);
      GiveUpNotEnding(w, me);
      DeleteStep(w, me);
      ReleaseStep(Apply(w, GiveUp(me)), me);
      assert t.calls == s.calls - {me};
      assert s.rows[c.uid := Row(c.to, true)] - {c.uid} == s.rows;
    }
  }

  lemma GiveUpNotEnding(s: State, me: CallId)
    requires Enabled(s, GiveUp(me)) && NamesRepo(s.calls[me])
    ensures s.calls[me].pc != Ending
  {
  }

  // ---- archiving alone ----

  ghost function ArchiveOutcome(s: State, name: Name, inUse: bool): Outcome {
    if s.lock.Some? then Busy
    else if name !in s.repos then NotFound
    else if inUse then LensHolds
    else if s.repos[name].uid !in s.rows then Refused
    else Done
  }

  ghost predicate ArchiveLeaves(s: State, t: State, name: Name, r: Outcome) {
    if r == Done && name in s.repos && s.repos[name].uid in s.rows then
      var uid := s.repos[name].uid;
      t == s.(rows := s.rows[uid := Row(s.rows[uid].name, false)], repos := s.repos - {name})
    else t == s
  }

  lemma StartArchiveStep(s: State, me: CallId, name: Name)
    requires Enabled(s, StartArchive(me, name))
    ensures me !in s.calls && s.lock.None? && name in s.repos
    ensures Apply(s, StartArchive(me, name)) == s.(calls := s.calls[me := Archive(s.repos[name], name, Locked)], lock := Some(me))
  {
  }

  lemma FlipStep(s: State, me: CallId)
    requires Enabled(s, Flip(me))
    ensures At(s, me, Locked) && s.calls[me].Archive?
    ensures var uid := s.calls[me].inst.uid;
      Apply(s, Flip(me)) ==
        if uid in s.rows then Goto(s, me, Written).(rows := s.rows[uid := Row(s.rows[uid].name, false)])
        else s.(calls := s.calls - {me}, lock := None)
  {
  }

  lemma DropStep(s: State, me: CallId)
    requires Enabled(s, Drop(me))
    ensures At(s, me, Written) && s.calls[me].Archive?
    ensures Apply(s, Drop(me)) == s.(repos := s.repos - {s.calls[me].name}, lock := None, calls := s.calls - {me})
  {
  }

  lemma UnlockStep(s: State, me: CallId)
    requires Enabled(s, GiveUp(me)) && s.calls[me].Archive?
    ensures Apply(s, GiveUp(me)) == s.(calls := s.calls - {me}, lock := None)
  {
  }

  lemma ArchiveAlone(s: State, t: State, me: CallId, name: Name, inUse: bool, r: Outcome)
    requires r in {LensHolds, Refused, Done} && Plays(s, ArchiveScript(me, name, r), t) && me !in t.calls
    requires r == LensHolds <==> inUse
    ensures r == ArchiveOutcome(s, name, inUse) && ArchiveLeaves(s, t, name, r)
  {
    hide Enabled, Apply, Plays;
    var b := PlaysThen(s, [StartArchive(me, name)], LockedArchiveScript(me, r), t);
    Play1(s, StartArchive(me, name), b);
    StartArchiveStep(s, me, name);
    assert b.calls - {me} == s.calls;
    match r
    case LensHolds =>
      Play1(b, GiveUp(me), t);
      UnlockStep(b, me);
    case Refused =>
      Play1(b, Flip(me), t);
      FlipStep(b, me);
    case Done =>
      Play2(b, Flip(me), Drop(me), t);
      FlipStep(b, me);
      DropStep(Apply(b, Flip(me)), me);
      assert t.calls == s.calls;
    case _ =>
  }

  // ---- restoring alone ----

  ghost function RestoreOutcome(s: State, uid: Uid, newName: Option<Name>, lensErr: bool, rowErr: bool, openErr: bool): Outcome {
    if uid !in s.rows || s.rows[uid].active then NotFound
    else
      var to := if newName.Some? then newName.value else s.rows[uid].name;
      if to in s.reserved then InFlight
      else if s.lock.Some? then Waiting
      else if to in s.repos then NameTaken
      else if lensErr then Erred
      else if to in s.lenses then LensHolds
      else if rowErr then Failed
      else if exists u :: u in s.rows && u != uid && s.rows[u].active && s.rows[u].name == to then NotActivated
      else if openErr then BackedOut
      else Done
  }

  ghost predicate RestoreLeaves(s: State, t: State, me: CallId, uid: Uid, newName: Option<Name>, r: Outcome) {
    if uid !in s.rows then t == s
    else
      var to := if newName.Some? then newName.value else s.rows[uid].name;
      var inst := Inst(s.nextId, uid);
      if r == Done then
        t == s.(rows := s.rows[uid := Row(to, true)], repos := s.repos[to := inst], shown := s.shown[inst := to], nextId := s.nextId + 1)
      else if r == Waiting then
        t == s.(reserved := s.reserved + {to}, calls := s.calls[me := Restore(uid, s.rows[uid].name, to, Reserved)])
      else t == s
  }

  lemma StartRestoreStep(s: State, me: CallId, uid: Uid, newName: Option<Name>)
    requires Enabled(s, StartRestore(me, uid, newName))
    ensures me !in s.calls && uid in s.rows && !s.rows[uid].active
    ensures var found := s.rows[uid].name;
      Apply(s, StartRestore(me, uid, newName)) ==
        s.(calls := s.calls[me := Restore(uid, found, if newName.Some? then newName.value else found, Got)])
  {
  }

  /** The call's row is archived and still has this name. */
  ghost predicate ArchivedAs(s: State, me: CallId, name: Name) {
    me in s.calls && s.calls[me].Restore? && s.calls[me].uid in s.rows && s.rows[s.calls[me].uid] == Row(name, false)
  }

  lemma RestoreWriteStep(s: State, me: CallId)
    requires Enabled(s, Write(me)) && me in s.calls && s.calls[me].Restore? && ArchivedAs(s, me, s.calls[me].found)
    ensures var c := s.calls[me]; Apply(s, Write(me)) == Goto(s, me, Renamed).(rows := s.rows[c.uid := Row(c.to, false)])
  {
    var c := s.calls[me];
    if c.to == c.found {
      assert s.rows[c.uid := Row(c.to, false)] == s.rows;
    }
  }

  lemma ActivateStep(s: State, me: CallId)
    requires Enabled(s, Activate(me)) && me in s.calls && s.calls[me].Restore? && ArchivedAs(s, me, s.calls[me].to)
    ensures var c := s.calls[me];
      Apply(s, Activate(me)) ==
        if RowElsewhere(s, c.uid, c.to) then Goto(s, me, BackingOut) else Goto(s, me, Written).(rows := s.rows[c.uid := Row(c.to, true)])
  {
    assert Taken(s.rows, s.calls[me].uid, s.calls[me].to) <==> RowElsewhere(s, s.calls[me].uid, s.calls[me].to);
  }

  lemma PutBackStep(s: State, me: CallId)
    requires Enabled(s, GiveUp(me)) && me in s.calls && s.calls[me].Restore? && s.calls[me].pc == Written && s.calls[me].uid in s.rows
    ensures var uid := s.calls[me].uid;
      Apply(s, GiveUp(me)) == Goto(s, me, BackingOut).(rows := s.rows[uid := Row(s.rows[uid].name, false)])
  {
  }

  lemma PutNameBackStep(s: State, me: CallId)
    requires Enabled(s, Undo(me)) && me in s.calls && s.calls[me].Restore? && ArchivedAs(s, me, s.calls[me].to)
    ensures var c := s.calls[me]; At(s, me, BackingOut) && Apply(s, Undo(me)) == Goto(s, me, Ending).(rows := s.rows[c.uid := Row(c.found, false)])
  {
    var c := s.calls[me];
    if c.to == c.found {
      assert s.rows[c.uid := Row(c.found, false)] == s.rows;
    }
  }

  lemma BackOutPlays(s: State, me: CallId, t: State)
    requires me in s.calls && s.calls[me].Restore? && ArchivedAs(s, me, s.calls[me].to) && Plays(s, [Undo(me), Release(me)], t)
    ensures At(s, me, BackingOut)
    ensures var c := s.calls[me]; t == Released(s, me).(rows := s.rows[c.uid := Row(c.found, false)])
  {
    hide Enabled, Apply, Plays;
    Play2(s, Undo(me), Release(me), t);
    PutNameBackStep(s, me);
    ReleaseStep(Apply(s, Undo(me)), me);
    assert t.calls == s.calls - {me};
  }

  lemma ActivatePlays(s: State, me: CallId, r: Outcome, t: State)
    requires me in s.calls && s.calls[me].Restore? && ArchivedAs(s, me, s.calls[me].to)
    requires r in {NotActivated, BackedOut, StillLanding, Done} && Plays(s, ActivateScript(me, r), t)
    ensures var c := s.calls[me];
      && (r == StillLanding ==> t.lock == s.lock)
      && (r != StillLanding ==> (RowElsewhere(s, c.uid, c.to) <==> r == NotActivated))
      && (r in {NotActivated, BackedOut} ==> t == Released(s, me).(rows := s.rows[c.uid := Row(c.found, false)]))
      && var inst := Inst(s.nextId, c.uid);
         r == Done ==>
           t == Released(s, me).(rows := s.rows[c.uid := Row(c.to, true)], repos := s.repos[c.to := inst], shown := s.shown[inst := c.to],
                                 nextId := s.nextId + 1)
  {
    var c := s.calls[me];
    hide Enabled, Apply, Plays, RowElsewhere;
    var rest := match r
      case NotActivated => [Undo(me), Release(me)]
      case BackedOut => [GiveUp(me), Undo(me), Release(me)]
      case Done => [Land(me), Release(me)]
      case _ => [];
    assert ActivateScript(me, r) == [Activate(me)] + rest;
    var w := PlaysThen(s, [Activate(me)], rest, t);
    Play1(s, Activate(me), w);
    ActivateStep(s, me);
    ActivatedPlays(s, me, w, r, rest, t);
  }

  lemma ActivatedPlays(s: State, me: CallId, w: State, r: Outcome, rest: seq<Step>, t: State)
    requires me in s.calls && s.calls[me].Restore? && ArchivedAs(s, me, s.calls[me].to)
    requires var c := s.calls[me];
      w == if RowElsewhere(s, c.uid, c.to) then Goto(s, me, BackingOut) else Goto(s, me, Written).(rows := s.rows[c.uid := Row(c.to, true)])
    requires r in {NotActivated, BackedOut, StillLanding, Done} && Plays(w, rest, t)
    requires rest == match r
      case NotActivated => [Undo(me), Release(me)]
      case BackedOut => [GiveUp(me), Undo(me), Release(me)]
      case Done => [Land(me), Release(me)]
      case _ => []
    ensures var c := s.calls[me];
      && (r == StillLanding ==> t.lock == s.lock)
      && (r != StillLanding ==> (RowElsewhere(s, c.uid, c.to) <==> r == NotActivated))
      && (r in {NotActivated, BackedOut} ==> t == Released(s, me).(rows := s.rows[c.uid := Row(c.found, false)]))
      && var inst := Inst(s.nextId, c.uid);
         r == Done ==>
           t == Released(s, me).(rows := s.rows[c.uid := Row(c.to, true)], repos := s.repos[c.to := inst], shown := s.shown[inst := c.to],
                                 nextId := s.nextId + 1)
  {
    var c := s.calls[me];
    hide Enabled, Apply, Plays, RowElsewhere;
    match r
    case StillLanding => Play0(w, t);
    case Done =>
      RegisterPlays(w, me, t);
      assert t.calls == s.calls - {me};
    case BackedOut =>
      Play3(w, GiveUp(me), Undo(me), Release(me), t);
      PutBackNeedsWritten(w, me);
      PutBackStep(w, me);
      BackOutPlays(Apply(w, GiveUp(me)), me, t);
      assert t.calls == s.calls - {me};
      assert t.rows == s.rows[c.uid := Row(c.found, false)];
    case NotActivated =>
      UndoNeedsBackingOut(w, me, [Release(me)], t);
      BackOutPlays(w, me, t);
      assert t.calls == s.calls - {me};
    case _ =>
  }

  lemma UndoNeedsBackingOut(s: State, me: CallId, rest: seq<Step>, t: State)
    requires Plays(s, [Undo(me)] + rest, t)
    ensures me in s.calls && s.calls[me].pc in {Reverting, BackingOut}
  {
    hide Apply;
  }

  lemma PutBackNeedsWritten(s: State, me: CallId)
    requires Enabled(s, GiveUp(me)) && s.calls[me].Restore?
    ensures s.calls[me].pc != BackingOut
  {
  }

  lemma RestoreAlone(s: State, t: State, me: CallId, uid: Uid, newName: Option<Name>, lensErr: bool, rowErr: bool, openErr: bool, r: Outcome)
    requires r in {InFlight, Waiting, NameTaken, Erred, LensHolds, Failed, Refused, NotActivated, StillLanding, BackedOut, Done}
    requires Plays(s, RestoreScript(me, uid, newName, r), t) && FlagsFit(r, lensErr, rowErr, openErr)
    requires r == InFlight ==> me !in t.calls
    requires r in {Waiting, StillLanding} ==> t.lock.Some? && me in t.calls
    ensures r == RestoreOutcome(s, uid, newName, lensErr, rowErr, openErr) && RestoreLeaves(s, t, me, uid, newName, r)
  {
    hide Enabled, Apply, Plays, ClaimScript;
    var b := PlaysThen(s, [StartRestore(me, uid, newName)], FoundScript(me, r), t);
    Play1(s, StartRestore(me, uid, newName), b);
    StartRestoreStep(s, me, uid, newName);
    var found := s.rows[uid].name;
    var call := Restore(uid, found, if newName.Some? then newName.value else found, Got);
    if r in {InFlight, Waiting, NameTaken, Erred, LensHolds} {
      ClaimPlays(b, me, r, t);
      GoneAgain(s, me, call);
      assert s.calls[me := call][me := Stage(call, Reserved)] == s.calls[me := Stage(call, Reserved)];
    } else {
      RestoreClaimed(s, t, me, b, call, r);
    }
  }

  lemma RestoreClaimed(s: State, t: State, me: CallId, b: State, call: Call, r: Outcome)
    requires me !in s.calls && call.Restore? && call.pc == Got && b == s.(calls := s.calls[me := call])
    requires call.uid in s.rows && s.rows[call.uid] == Row(call.found, false)
    requires r in {Failed, Refused, NotActivated, StillLanding, BackedOut, Done} && Plays(b, FoundScript(me, r), t)
    requires r == StillLanding ==> t.lock.Some?
    ensures s.lock.None? && call.to !in s.reserved && call.to !in s.repos && call.to !in s.lenses && r !in {Refused, StillLanding}
    ensures r == Failed || (RowElsewhere(s, call.uid, call.to) <==> r == NotActivated)
    ensures r != Done ==> t == s
    ensures var inst := Inst(s.nextId, call.uid);
      r == Done ==>
        t == s.(rows := s.rows[call.uid := Row(call.to, true)], repos := s.repos[call.to := inst], shown := s.shown[inst := call.to],
                nextId := s.nextId + 1)
  {
    hide Enabled, Apply, Plays, ClaimScript, RowElsewhere, ActivateScript;
    var rest := if r == Failed then [GiveUp(me), Release(me)] else [Write(me)] + (if r == Refused then [Release(me)] else ActivateScript(me, r));
    assert FoundScript(me, r) == ClaimScript(me, Done) + rest;
    var m := ClaimedPlays(b, me, rest, t);
    BackAgain(s, me, call);
    if r == Failed {
      StopPlays(m, me, t);
    } else {
      var w := PlaysThen(m, [Write(me)], if r == Refused then [Release(me)] else ActivateScript(me, r), t);
      Play1(m, Write(me), w);
      RestoreWriteStep(m, me);
      if r == Refused {
        Play1(w, Release(me), t);
        ReleaseStep(w, me);
      } else {
        ActivatePlays(w, me, r, t);
        RowElsewhereAlike(s, w, call.uid, call.to);
        assert Released(w, me).calls == s.calls && Released(w, me).reserved == s.reserved;
        RowsBack(s.rows, call);
      }
    }
  }

  lemma RowElsewhereAlike(s: State, w: State, uid: Uid, to: Name)
    requires uid in s.rows && w.rows == s.rows[uid := Row(to, false)]
    ensures RowElsewhere(s, uid, to) <==> RowElsewhere(w, uid, to)
  {
    forall u | u != uid ensures u in s.rows <==> u in w.rows {
    }
  }

  lemma RowsBack(rows: map<Uid, Row>, call: Call)
    requires call.Restore? && call.uid in rows && rows[call.uid] == Row(call.found, false)
    ensures rows[call.uid := Row(call.to, false)][call.uid := Row(call.found, false)] == rows
    ensures rows[call.uid := Row(call.to, false)][call.uid := Row(call.to, true)] == rows[call.uid := Row(call.to, true)]
  {
  }

  // ---- naming a lens alone ----

  /** What naming a lens comes to once the lock is held. */
  ghost function LockedOutcome(lenses: set<Name>, live: set<Name>, prior: Option<Name>, to: Name, invalid: bool): Outcome {
    if prior.Some? && prior.value !in lenses then NotFound
    else if prior == Some(to) then NoChange
    else if prior.None? && invalid then Failed
    else if to in live then NameTaken
    else if to in lenses then Refused
    else Done
  }

  ghost function LensOutcome(s: State, prior: Option<Name>, to: Name, invalid: bool): Outcome {
    if to in s.reserved then InFlight else if s.lock.Some? then Waiting else LockedOutcome(s.lenses, s.repos.Keys, prior, to, invalid)
  }

  ghost predicate LensLeaves(s: State, t: State, me: CallId, prior: Option<Name>, to: Name, r: Outcome) {
    if r == Done then t == s.(lenses := (if prior.Some? then s.lenses - {prior.value} else s.lenses) + {to})
    else if r == Waiting then t == s.(reserved := s.reserved + {to}, calls := s.calls[me := LensPut(prior, to, Reserved)])
    else t == s
  }

  lemma StartLensStep(s: State, me: CallId, prior: Option<Name>, to: Name)
    requires Enabled(s, StartLens(me, prior, to))
    ensures me !in s.calls && Apply(s, StartLens(me, prior, to)) == s.(calls := s.calls[me := LensPut(prior, to, Got)])
  {
  }

  lemma LensLockStep(s: State, me: CallId)
    requires Enabled(s, LensLock(me))
    ensures At(s, me, Reserved) && s.calls[me].LensPut? && s.lock.None? && Apply(s, LensLock(me)) == Goto(s, me, Locked).(lock := Some(me))
  {
  }

  lemma LensLeaveStep(s: State, me: CallId)
    requires Enabled(s, GiveUp(me)) && At(s, me, Locked) && s.calls[me].LensPut?
    ensures Apply(s, GiveUp(me)) == Goto(s, me, Ending).(lock := None)
  {
  }

  lemma LensCheckStep(s: State, me: CallId)
    requires Enabled(s, LensCheck(me))
    ensures At(s, me, Locked) && s.calls[me].LensPut?
    ensures Apply(s, LensCheck(me)) == if s.calls[me].to in s.repos then Goto(s, me, Ending).(lock := None) else Goto(s, me, Checked)
  {
  }

  lemma LensWriteStep(s: State, me: CallId)
    requires Enabled(s, LensWrite(me))
    ensures At(s, me, Checked) && s.calls[me].LensPut?
    ensures var c := s.calls[me];
      Apply(s, LensWrite(me)) ==
        if c.to in s.lenses || (c.prior.Some? && c.prior.value !in s.lenses) then Goto(s, me, Ending).(lock := None)
        else Goto(s, me, Ending).(lock := None, lenses := (if c.prior.Some? then s.lenses - {c.prior.value} else s.lenses) + {c.to})
  {
  }

  lemma LensAlone(s: State, t: State, me: CallId, prior: Option<Name>, to: Name, invalid: bool, r: Outcome)
    requires r in {InFlight, Waiting, NotFound, NoChange, Failed, NameTaken, Refused, Done}
    requires Plays(s, LensPutScript(me, prior, to, r), t)
    requires r == InFlight ==> me !in t.calls
    requires r == Waiting ==> t.lock.Some? && me in t.calls
    requires r !in {InFlight, Waiting} ==> r == LockedOutcome(s.lenses, s.repos.Keys, prior, to, invalid)
    ensures r == LensOutcome(s, prior, to, invalid) && LensLeaves(s, t, me, prior, to, r)
  {
    hide Enabled, Apply, Plays, LockedScript;
    var call := LensPut(prior, to, Got);
    var rest := if r in {InFlight, Waiting} then [] else LockedScript(me, r);
    assert PutScript(me, r) == [Reserve(me)] + rest;
    var b := PlaysThen(s, [StartLens(me, prior, to)], [Reserve(me)] + rest, t);
    Play1(s, StartLens(me, prior, to), b);
    StartLensStep(s, me, prior, to);
    var m := PlaysThen(b, [Reserve(me)], rest, t);
    Play1(b, Reserve(me), m);
    ReserveStep(b, me);
    GoneAgain(s, me, call);
    assert s.calls[me := call][me := Stage(call, Reserved)] == s.calls[me := Stage(call, Reserved)];
    if r in {InFlight, Waiting} {
      Play0(m, t);
    } else {
      LockedPlays(m, me, r, t);
      if m != s {
        BackAgain(s, me, call);
        HoldingThen(b, me, Reserved, Cleared);
        assert Released(m, me).calls == s.calls && Released(m, me).reserved == s.reserved;
      }
    }
  }

  lemma LockedPlays(s: State, me: CallId, r: Outcome, t: State)
    requires r in {NotFound, NoChange, Failed, NameTaken, Refused, Done} && Plays(s, LockedScript(me, r), t)
    requires me in s.calls && s.calls[me].LensPut? ==> var c := s.calls[me];
      (r == Refused ==> c.to in s.lenses) && (r == Done ==> c.to !in s.lenses && (c.prior.Some? ==> c.prior.value in s.lenses))
    ensures s.lock.None? && At(s, me, Reserved) && s.calls[me].LensPut?
    ensures r != Done ==> t == Released(s, me)
    ensures r == Done ==>
      var c := s.calls[me]; t == Released(s, me).(lenses := (if c.prior.Some? then s.lenses - {c.prior.value} else s.lenses) + {c.to})
  {
    hide Enabled, Apply, Plays;
    if r in {NotFound, NoChange, Failed} {
      LockedLeaves(s, me, t);
    } else if r == NameTaken {
      assert LockedScript(me, r) == [LensLock(me), LensCheck(me), Release(me)];
      LockedTaken(s, me, t);
    } else {
      assert LockedScript(me, r) == [LensLock(me), LensCheck(me)] + [LensWrite(me), Release(me)];
      LockedWrites(s, me, t);
    }
  }

  lemma LockedLeaves(s: State, me: CallId, t: State)
    requires Plays(s, [LensLock(me), GiveUp(me), Release(me)], t)
    ensures s.lock.None? && At(s, me, Reserved) && s.calls[me].LensPut? && t == Released(s, me)
  {
    hide Enabled, Apply, Plays;
    Play3(s, LensLock(me), GiveUp(me), Release(me), t);
    LensLockStep(s, me);
    var l := Apply(s, LensLock(me));
    Play2(l, GiveUp(me), Release(me), t);
    LensLeaveStep(l, me);
    ReleaseStep(Apply(l, GiveUp(me)), me);
    assert t.calls == s.calls - {me};
  }

  lemma LockedTaken(s: State, me: CallId, t: State)
    requires Plays(s, [LensLock(me), LensCheck(me), Release(me)], t)
    ensures s.lock.None? && At(s, me, Reserved) && s.calls[me].LensPut? && t == Released(s, me)
  {
    hide Enabled, Apply, Plays;
    Play3(s, LensLock(me), LensCheck(me), Release(me), t);
    LensLockStep(s, me);
    var l := Apply(s, LensLock(me));
    Play2(l, LensCheck(me), Release(me), t);
    LensCheckStep(l, me);
    ReleaseStep(Apply(l, LensCheck(me)), me);
    assert t.calls == s.calls - {me};
  }

  lemma LockedWrites(s: State, me: CallId, t: State)
    requires Plays(s, [LensLock(me), LensCheck(me)] + [LensWrite(me), Release(me)], t)
    ensures s.lock.None? && At(s, me, Reserved) && s.calls[me].LensPut?
    ensures var c := s.calls[me];
      t == if c.to in s.lenses || (c.prior.Some? && c.prior.value !in s.lenses) then Released(s, me)
           else Released(s, me).(lenses := (if c.prior.Some? then s.lenses - {c.prior.value} else s.lenses) + {c.to})
  {
    hide Enabled, Apply, Plays;
    var k := PlaysThen(s, [LensLock(me), LensCheck(me)], [LensWrite(me), Release(me)], t);
    Play2(s, LensLock(me), LensCheck(me), k);
    LensLockStep(s, me);
    LensCheckStep(Apply(s, LensLock(me)), me);
    Play2(k, LensWrite(me), Release(me), t);
    LensWriteStep(k, me);
    ReleaseStep(Apply(k, LensWrite(me)), me);
    assert t.calls == s.calls - {me};
  }

  // ---- calls that never began ----

  lemma RenameStops(s: State, me: CallId, from: Name, to: Name, lensErr: bool, rowErr: bool, r: Outcome)
    requires s.lock.Some? || from !in s.repos || from == to
    requires r == if s.lock.Some? then Busy else if from !in s.repos then NotFound else NoChange
    ensures RenameScript(me, from, to, r) == [] && r in Early() && FlagsFit(r, lensErr, rowErr, false)
    ensures r == RenameOutcome(s, from, to, lensErr, rowErr) && RenameLeaves(s, s, from, to, r)
  {
  }

  lemma ArchiveStops(s: State, me: CallId, name: Name, inUse: bool, r: Outcome)
    requires s.lock.Some? || name !in s.repos
    requires r == if s.lock.Some? then Busy else NotFound
    ensures ArchiveScript(me, name, r) == [] && r == ArchiveOutcome(s, name, inUse) && ArchiveLeaves(s, s, name, r)
  {
  }

  lemma CreateStops(s: State, me: CallId, uid: Uid, to: Name, lensErr: bool, rowErr: bool, initErr: bool, r: Outcome)
    requires s.lock.Some? || to in s.repos || to in s.lenses || uid in s.rows || !NewUid(s, uid)
    requires r == if s.lock.Some? then Busy else if to in s.repos then SeenRepo else if to in s.lenses then SeenLens else NotMinted
    ensures CreateScript(me, uid, to, r) == [] && r in Early() && FlagsFit(r, lensErr, rowErr, initErr)
    ensures r == CreateOutcome(s, uid, to, lensErr, rowErr, initErr) && CreateLeaves(s, s, uid, to, r)
  {
  }

  lemma CreateEnds(me: CallId, uid: Uid, to: Name, lensErr: bool, rowErr: bool, initErr: bool, r: Outcome)
    requires r in {Busy, SeenRepo, SeenLens, NotMinted}
    ensures CreateScript(me, uid, to, r) == [] && r in Early() && FlagsFit(r, lensErr, rowErr, initErr)
  {
  }

  lemma RestoreStops(s: State, me: CallId, uid: Uid, newName: Option<Name>, lensErr: bool, rowErr: bool, openErr: bool)
    requires uid !in s.rows || s.rows[uid].active
    ensures RestoreScript(me, uid, newName, NotFound) == [] && NotFound in Early() && FlagsFit(NotFound, lensErr, rowErr, openErr)
    ensures NotFound == RestoreOutcome(s, uid, newName, lensErr, rowErr, openErr) && RestoreLeaves(s, s, me, uid, newName, NotFound)
  {
  }
}
