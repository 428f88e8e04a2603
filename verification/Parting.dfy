/**
 Where names part, exactly (internal/repos/lifecycle.go). Whatever calls overlap, each step of a run
 keeps the registry, the live map and the live instances in agreement if and only if it meets a guard
 on the state it is taken in; so they agree all along a run if and only if every step of it did.
*/
module Parting {
  import opened Wrappers
  import opened Lifecycle
  import opened Agreement

  /** Live entries and rows agree, but for renames that have written their row and not yet landed, and
      repos that are being brought in or archived. With no call under way that is all names agreeing. */
  ghost predicate Agrees(s: State) {
    MapAgrees(s) && OneEntryPerUid(s.repos) && ActiveAccounted(s)
  }

  /** What runs keep whether or not names agree. */
  ghost predicate Base(s: State) {
    OldIds(s) && LockHeld(s) && ArchivesHold(s)
  }

  /** An archive under way still finds its repo where it looked it up, and once it has flipped the row
      only a create or restore that is bringing the repo in makes it active. */
  ghost predicate ArchivesHold(s: State) {
    forall c :: c in s.calls && s.calls[c].Archive? ==>
      && s.calls[c].name in s.repos && s.repos[s.calls[c].name] == s.calls[c].inst
      && (s.calls[c].pc == Written && s.calls[c].inst.uid in s.rows && s.rows[s.calls[c].inst.uid].active ==>
            s.calls[c].inst.uid in Bringers(s.calls))
  }

  // ---------- what calls in flight account for ----------

  /** A rename that has written its row: where it started, its instance, its target. */
  type Claim = (Name, Inst, Name)

  function ClaimOf(call: Call): set<Claim> {
    if call.Rename? && call.pc == Written then {(call.from, call.inst, call.to)} else {}
  }

  function BroughtBy(call: Call): set<Uid> {
    if (call.Create? || call.Restore?) && call.pc == Written then {call.uid} else {}
  }

  ghost function Claims(calls: map<CallId, Call>): set<Claim> {
    set c, x | c in calls && x in ClaimOf(calls[c]) :: x
  }

  ghost function Bringers(calls: map<CallId, Call>): set<Uid> {
    set c, u | c in calls && u in BroughtBy(calls[c]) :: u
  }

  lemma SplitOff(calls: map<CallId, Call>, c: CallId)
    ensures Claims(calls) == Claims(Without(calls, c)) + if c in calls then ClaimOf(calls[c]) else {}
    ensures Bringers(calls) == Bringers(Without(calls, c)) + if c in calls then BroughtBy(calls[c]) else {}
  {
    var rest := Without(calls, c);
    forall x ensures x in Claims(calls) <==> x in Claims(rest) || (c in calls && x in ClaimOf(calls[c])) {
      if d :| d in calls && x in ClaimOf(calls[d]) {
        assert d == c || (d in rest && rest[d] == calls[d]);
      }
      if d :| d in rest && x in ClaimOf(rest[d]) {
        assert d in calls && calls[d] == rest[d];
      }
    }
    forall u ensures u in Bringers(calls) <==> u in Bringers(rest) || (c in calls && u in BroughtBy(calls[c])) {
      if d :| d in calls && u in BroughtBy(calls[d]) {
        assert d == c || (d in rest && rest[d] == calls[d]);
      }
      if d :| d in rest && u in BroughtBy(rest[d]) {
        assert d in calls && calls[d] == rest[d];
      }
    }
  }

  // Only the actor's own claim changes.
  lemma RestUntouched(s: State, t: Step, c: CallId)
    requires Enabled(s, t) && Actor(t) == Some(c)
    ensures Without(Apply(s, t).calls, c) == Without(s.calls, c)
  {
    hide Apply, Enabled;
    forall d | d != c
      ensures d in Apply(s, t).calls <==> d in s.calls
      ensures d in s.calls ==> Apply(s, t).calls[d] == s.calls[d]
    {
      OthersUntouched(s, t, d);
    }
  }

  // ---------- agreement as values ----------

  ghost predicate EntryFine(rows: map<Uid, Row>, shown: map<Inst, Name>, arch: Option<Inst>, claims: set<Claim>, n: Name, inst: Inst) {
    && inst.uid in rows && (rows[inst.uid].active || arch == Some(inst))
    && (rows[inst.uid].name == n || (n, inst, rows[inst.uid].name) in claims)
    && inst in shown && shown[inst] == n
  }

  ghost predicate Fine(rows: map<Uid, Row>, repos: map<Name, Inst>, shown: map<Inst, Name>, arch: Option<Inst>,
                       claims: set<Claim>, brought: set<Uid>) {
    && (forall n :: n in repos ==> EntryFine(rows, shown, arch, claims, n, repos[n]))
    && OneEntryPerUid(repos)
    && (forall u :: u in rows && rows[u].active ==> LiveUid(repos, u) || u in brought)
  }

  lemma AgreesIsFine(s: State)
    ensures Agrees(s) <==> Fine(s.rows, s.repos, s.shown, Archiving(s), Claims(s.calls), Bringers(s.calls))
  {
    forall n, inst, name ensures RenameWritten(s, n, inst, name) <==> (n, inst, name) in Claims(s.calls) {
      if c :| c in s.calls && WroteName(s.calls[c], n, inst, name) {
        assert (n, inst, name) in ClaimOf(s.calls[c]);
      }
      if c :| c in s.calls && (n, inst, name) in ClaimOf(s.calls[c]) {
        assert WroteName(s.calls[c], n, inst, name);
      }
    }
    forall u ensures BroughtIn(s, u) <==> u in Bringers(s.calls) {
      if c :| c in s.calls && s.calls[c].pc == Written && Bringing(s.calls[c], u) {
        assert u in BroughtBy(s.calls[c]);
      }
      if c :| c in s.calls && u in BroughtBy(s.calls[c]) {
        assert Bringing(s.calls[c], u);
      }
    }
    hide RenameWritten, BroughtIn, Claims, Bringers, Archiving, LiveUid;
    forall n | n in s.repos
      ensures EntryAgrees(s, n) <==> EntryFine(s.rows, s.shown, Archiving(s), Claims(s.calls), n, s.repos[n])
    {
    }
  }

  // At a quiet moment it is all names agreeing.
  lemma QuietAgreement(s: State)
    requires Idle(s)
    ensures Agrees(s) <==> AllNamesAgree(s)
  {
    if Agrees(s) {
      forall n | n in s.repos
        ensures s.repos[n].uid in s.rows && s.rows[s.repos[n].uid] == Row(n, true) && s.repos[n] in s.shown && s.shown[s.repos[n]] == n
      {
        assert EntryAgrees(s, n);
      }
      forall u | u in s.rows && s.rows[u].active
        ensures s.rows[u].name in s.repos && s.repos[s.rows[u].name].uid == u
      {
        assert LiveUid(s.repos, u);
        var n :| n in s.repos && s.repos[n].uid == u;
        assert s.rows[u] == Row(n, true);
      }
    }
    if AllNamesAgree(s) {
      forall u | u in s.rows && s.rows[u].active ensures LiveUid(s.repos, u) {
        assert s.rows[u].name in s.repos;
      }
    }
  }

  // ---------- what each change does to it ----------

  /** The row of uid may be called `name`: the repo is live under that name only, or under the start
      of a rename to it that has written its row. */
  ghost predicate NameFits(repos: map<Name, Inst>, claims: set<Claim>, uid: Uid, name: Name) {
    forall n :: n in repos && repos[n].uid == uid ==> n == name || (n, repos[n], name) in claims
  }

  lemma Renaming(rows: map<Uid, Row>, repos: map<Name, Inst>, shown: map<Inst, Name>, arch: Option<Inst>,
                 claims: set<Claim>, claims': set<Claim>, brought: set<Uid>, uid: Uid, name: Name)
    requires Fine(rows, repos, shown, arch, claims, brought) && uid in rows && claims <= claims'
    ensures Fine(rows[uid := rows[uid].(name := name)], repos, shown, arch, claims', brought) <==> NameFits(repos, claims', uid, name)
  {
    var rows' := rows[uid := rows[uid].(name := name)];
    forall n | n in repos
      ensures EntryFine(rows', shown, arch, claims', n, repos[n]) <==>
                (repos[n].uid == uid ==> n == name || (n, repos[n], name) in claims')
    {
      assert EntryFine(rows, shown, arch, claims, n, repos[n]);
    }
    hide EntryFine;
  }

  lemma Inserting(rows: map<Uid, Row>, repos: map<Name, Inst>, shown: map<Inst, Name>, arch: Option<Inst>,
                  claims: set<Claim>, brought: set<Uid>, uid: Uid, name: Name)
    requires Fine(rows, repos, shown, arch, claims, brought) && uid !in rows
    ensures Fine(rows[uid := Row(name, true)], repos, shown, arch, claims, brought + {uid})
  {
    forall n | n in repos ensures EntryFine(rows[uid := Row(name, true)], shown, arch, claims, n, repos[n]) {
      assert EntryFine(rows, shown, arch, claims, n, repos[n]);
    }
    hide EntryFine;
  }

  lemma Activating(rows: map<Uid, Row>, repos: map<Name, Inst>, shown: map<Inst, Name>, arch: Option<Inst>,
                   claims: set<Claim>, brought: set<Uid>, uid: Uid)
    requires Fine(rows, repos, shown, arch, claims, brought) && uid in rows
    ensures Fine(rows[uid := rows[uid].(active := true)], repos, shown, arch, claims, brought + {uid})
  {
    forall n | n in repos ensures EntryFine(rows[uid := rows[uid].(active := true)], shown, arch, claims, n, repos[n]) {
      assert EntryFine(rows, shown, arch, claims, n, repos[n]);
    }
    hide EntryFine;
  }

  lemma Deactivating(rows: map<Uid, Row>, repos: map<Name, Inst>, shown: map<Inst, Name>, arch: Option<Inst>,
                     claims: set<Claim>, brought: set<Uid>, brought': set<Uid>, uid: Uid)
    requires Fine(rows, repos, shown, arch, claims, brought) && uid in rows && brought <= brought' + {uid}
    ensures Fine(rows[uid := rows[uid].(active := false)], repos, shown, arch, claims, brought') <==>
            forall n :: n in repos && repos[n].uid == uid ==> arch == Some(repos[n])
  {
    var rows' := rows[uid := rows[uid].(active := false)];
    forall n | n in repos
      ensures EntryFine(rows', shown, arch, claims, n, repos[n]) <==> (repos[n].uid == uid ==> arch == Some(repos[n]))
    {
      assert EntryFine(rows, shown, arch, claims, n, repos[n]);
    }
    hide EntryFine;
  }

  lemma Deleting(rows: map<Uid, Row>, repos: map<Name, Inst>, shown: map<Inst, Name>, arch: Option<Inst>,
                 claims: set<Claim>, brought: set<Uid>, brought': set<Uid>, uid: Uid)
    requires Fine(rows, repos, shown, arch, claims, brought) && brought <= brought' + {uid}
    ensures Fine(Without(rows, uid), repos, shown, arch, claims, brought') <==> !LiveUid(repos, uid)
  {
    forall n | n in repos
      ensures EntryFine(Without(rows, uid), shown, arch, claims, n, repos[n]) <==> repos[n].uid != uid
    {
      assert EntryFine(rows, shown, arch, claims, n, repos[n]);
    }
    hide EntryFine;
  }

  lemma Flipping(rows: map<Uid, Row>, repos: map<Name, Inst>, shown: map<Inst, Name>,
                 claims: set<Claim>, brought: set<Uid>, name: Name, inst: Inst)
    requires Fine(rows, repos, shown, None, claims, brought) && inst.uid in rows && name in repos && repos[name] == inst
    ensures Fine(rows[inst.uid := rows[inst.uid].(active := false)], repos, shown, Some(inst), claims, brought)
  {
    var rows' := rows[inst.uid := rows[inst.uid].(active := false)];
    forall n | n in repos ensures EntryFine(rows', shown, Some(inst), claims, n, repos[n]) {
      assert EntryFine(rows, shown, None, claims, n, repos[n]);
    }
    hide EntryFine;
  }

  lemma Dropping(rows: map<Uid, Row>, repos: map<Name, Inst>, shown: map<Inst, Name>,
                 claims: set<Claim>, brought: set<Uid>, name: Name, inst: Inst)
    requires Fine(rows, repos, shown, Some(inst), claims, brought) && name in repos && repos[name] == inst
    requires inst.uid in rows && rows[inst.uid].active ==> inst.uid in brought
    ensures Fine(rows, Without(repos, name), shown, None, claims, brought)
  {
    var repos' := Without(repos, name);
    forall n | n in repos' ensures EntryFine(rows, shown, None, claims, n, repos'[n]) {
      assert EntryFine(rows, shown, Some(inst), claims, n, repos[n]);
    }
    forall u | u in rows && rows[u].active ensures LiveUid(repos', u) || u in brought {
      if u !in brought {
        var n :| n in repos && repos[n].uid == u;
        assert n in repos' && repos'[n].uid == u;
      }
    }
    hide EntryFine;
  }

  /** A new instance of uid at `to` is in agreement: its row says so, the repo is live nowhere else, and
      what it displaces is being brought in again. */
  ghost predicate EntersRight(rows: map<Uid, Row>, repos: map<Name, Inst>, brought: set<Uid>, uid: Uid, to: Name) {
    && uid in rows && rows[uid] == Row(to, true)
    && (forall n :: n in repos && n != to ==> repos[n].uid != uid)
    && (to in repos && repos[to].uid != uid ==> repos[to].uid in brought)
  }

  lemma Entering(rows: map<Uid, Row>, repos: map<Name, Inst>, shown: map<Inst, Name>,
                 claims: set<Claim>, brought: set<Uid>, brought': set<Uid>, to: Name, inst: Inst)
    requires Fine(rows, repos, shown, None, claims, brought)
    requires (forall n :: n in repos ==> repos[n] != inst) && (forall x :: x in claims ==> x.1 != inst)
    requires brought' <= brought <= brought' + {inst.uid}
    ensures Fine(rows, repos[to := inst], shown[inst := to], None, claims, brought') <==> EntersRight(rows, repos, brought, inst.uid, to)
  {
    var repos', shown' := repos[to := inst], shown[inst := to];
    forall n | n in repos && n != to ensures EntryFine(rows, shown', None, claims, n, repos'[n]) {
      assert EntryFine(rows, shown, None, claims, n, repos[n]);
    }
    assert EntryFine(rows, shown', None, claims, to, inst) <==> inst.uid in rows && rows[inst.uid] == Row(to, true);
    if EntersRight(rows, repos, brought, inst.uid, to) {
      EnteredAlive(rows, repos, shown, claims, brought, brought', to, inst);
    } else if Fine(rows, repos', shown', None, claims, brought') {
      DisplacedBrought(rows, repos, shown, claims, brought, brought', to, inst);
    }
  }

  lemma EnteredAlive(rows: map<Uid, Row>, repos: map<Name, Inst>, shown: map<Inst, Name>,
                     claims: set<Claim>, brought: set<Uid>, brought': set<Uid>, to: Name, inst: Inst)
    requires Fine(rows, repos, shown, None, claims, brought) && EntersRight(rows, repos, brought, inst.uid, to)
    requires brought <= brought' + {inst.uid}
    ensures OneEntryPerUid(repos[to := inst])
    ensures forall u :: u in rows && rows[u].active ==> LiveUid(repos[to := inst], u) || u in brought'
  {
    var repos' := repos[to := inst];
    assert repos'[to] == inst;
    forall u | u in rows && rows[u].active ensures LiveUid(repos', u) || u in brought' {
      if u != inst.uid && u !in brought {
        var n :| n in repos && repos[n].uid == u;
        assert n != to ==> repos'[n] == repos[n];
      }
    }
    hide EntryFine;
  }

  lemma DisplacedBrought(rows: map<Uid, Row>, repos: map<Name, Inst>, shown: map<Inst, Name>,
                         claims: set<Claim>, brought: set<Uid>, brought': set<Uid>, to: Name, inst: Inst)
    requires Fine(rows, repos, shown, None, claims, brought) && Fine(rows, repos[to := inst], shown[inst := to], None, claims, brought')
    requires brought' <= brought && forall x :: x in claims ==> x.1 != inst
    ensures EntersRight(rows, repos, brought, inst.uid, to)
  {
    var repos' := repos[to := inst];
    assert repos'[to] == inst;
    assert EntryFine(rows, shown[inst := to], None, claims, to, repos'[to]);
    forall n | n in repos && n != to ensures repos[n].uid != inst.uid {
      assert repos'[n] == repos[n];
    }
    if to in repos && repos[to].uid != inst.uid {
      var v := repos[to].uid;
      assert EntryFine(rows, shown, None, claims, to, repos[to]);
      assert LiveUid(repos', v) || v in brought';
      forall n | n in repos' ensures repos'[n].uid != v {
        assert n != to ==> repos'[n] == repos[n];
      }
    }
  }

  lemma Moving(rows: map<Uid, Row>, repos: map<Name, Inst>, shown: map<Inst, Name>,
               claims: set<Claim>, claims': set<Claim>, brought: set<Uid>, from: Name, to: Name, inst: Inst)
    requires Fine(rows, repos, shown, None, claims, brought) && claims' <= claims <= claims' + {(from, inst, to)}
    requires from in repos && repos[from] == inst && to !in repos
    ensures inst.uid in rows
    ensures Fine(rows, Without(repos, from)[to := inst], shown[inst := to], None, claims', brought) <==>
            rows[inst.uid].name == to || (to, inst, rows[inst.uid].name) in claims'
  {
    var repos', shown' := Without(repos, from)[to := inst], shown[inst := to];
    assert EntryFine(rows, shown, None, claims, from, inst);
    forall n | n in repos' && n != to ensures EntryFine(rows, shown', None, claims', n, repos'[n]) {
      assert EntryFine(rows, shown, None, claims, n, repos[n]);
    }
    assert EntryFine(rows, shown', None, claims', to, inst) <==> rows[inst.uid].name == to || (to, inst, rows[inst.uid].name) in claims';
    hide EntryFine;
    forall u | u in rows && rows[u].active ensures LiveUid(repos', u) || u in brought {
      if u !in brought {
        var n :| n in repos && repos[n].uid == u;
        assert if n == from then repos'[to].uid == u else repos'[n] == repos[n];
      }
    }
    forall m, n | m in repos' && n in repos' && repos'[m].uid == repos'[n].uid ensures m == n {
      var a, b := if m == to then from else m, if n == to then from else n;
      assert repos[a] == repos'[m] && repos[b] == repos'[n];
    }
    assert to in repos' && repos'[to] == inst;
  }

  lemma LosingClaim(rows: map<Uid, Row>, repos: map<Name, Inst>, shown: map<Inst, Name>, arch: Option<Inst>,
                    claims: set<Claim>, claims': set<Claim>, brought: set<Uid>, from: Name, to: Name, inst: Inst)
    requires Fine(rows, repos, shown, arch, claims, brought) && claims' <= claims <= claims' + {(from, inst, to)}
    ensures from in repos && repos[from] == inst ==> inst.uid in rows
    ensures Fine(rows, repos, shown, arch, claims', brought) <==>
            (from in repos && repos[from] == inst ==> rows[inst.uid].name == from || (from, inst, rows[inst.uid].name) in claims')
  {
    forall n | n in repos
      ensures repos[n].uid in rows
      ensures EntryFine(rows, shown, arch, claims', n, repos[n]) <==>
                (n == from && repos[n] == inst ==> rows[inst.uid].name == from || (from, inst, rows[inst.uid].name) in claims')
    {
      assert EntryFine(rows, shown, arch, claims, n, repos[n]);
    }
    hide EntryFine;
  }

  // ---------- the guards ----------

  ghost predicate WriteGuard(s: State, call: Call) {
    match call
    case Rename(inst, from, to, _) =>
      CasName(s.rows, inst.uid, from, to).1 ==> NameFits(s.repos, Claims(s.calls) + {(from, inst, to)}, inst.uid, to)
    case Restore(uid, found, to, _) =>
      to != found && SetName(s.rows, uid, to).1 ==> NameFits(s.repos, Claims(s.calls), uid, to)
    case _ => true
  }

  /** A rename that lands leaves its claim behind, whether it moves the repo or finds it gone. */
  ghost predicate LandGuard(s: State, c: CallId)
    requires c in s.calls
  {
    match s.calls[c]
    case Rename(inst, from, to, _) =>
      from in s.repos && s.repos[from] == inst ==>
        inst.uid in s.rows &&
        (var key, name := if to in s.repos then from else to, s.rows[inst.uid].name;
         name == key || (key, inst, name) in Claims(Without(s.calls, c)))
    case Create(uid, to, _) => EntersRight(s.rows, s.repos, Bringers(s.calls), uid, to)
    case Restore(uid, _, to, _) => EntersRight(s.rows, s.repos, Bringers(s.calls), uid, to)
    case _ => true
  }

  /** Taking a written row back, nothing live must stand on it. */
  ghost predicate GiveUpGuard(s: State, call: Call) {
    match call
    case Create(uid, _, Written) => !LiveUid(s.repos, uid)
    case Restore(uid, _, _, Written) => forall n :: n in s.repos && s.repos[n].uid == uid ==> Archiving(s) == Some(s.repos[n])
    case _ => true
  }

  ghost predicate UndoGuard(s: State, call: Call) {
    match call
    case Rename(inst, from, to, _) =>
      CasName(s.rows, inst.uid, to, from).1 ==> NameFits(s.repos, Claims(s.calls), inst.uid, from)
    case Restore(uid, found, to, _) =>
      to != found && SetName(s.rows, uid, found).1 ==> NameFits(s.repos, Claims(s.calls), uid, found)
    case _ => true
  }

  /** What a step must find for names to go on agreeing. */
  ghost predicate Guard(s: State, t: Step)
    requires Enabled(s, t)
  {
    match t
    case Write(c) => WriteGuard(s, s.calls[c])
    case Land(c) => LandGuard(s, c)
    case GiveUp(c) => GiveUpGuard(s, s.calls[c])
    case Undo(c) => UndoGuard(s, s.calls[c])
    case _ => true
  }

  // ---------- every step ----------

  lemma SameArchiving(s: State, t: Step)
    requires LockHeld(s) && Enabled(s, t) && !t.Flip? && !t.Drop?
    ensures Archiving(Apply(s, t)) == Archiving(s)
  {
    if s.lock.Some? && Actor(t) != Some(s.lock.value) {
      OthersUntouched(s, t, s.lock.value);
    }
    hide CasName, SetName, SetState, Insert;
  }

  /** Steps that write no row and touch no entry. */
  predicate Still(s: State, t: Step)
    requires Enabled(s, t)
  {
    match t
    case Write(_) => false
    case Activate(_) => false
    case Land(_) => false
    case Undo(_) => false
    case Flip(_) => false
    case Drop(_) => false
    case GiveUp(c) => s.calls[c].pc != Written
    case _ => true
  }

  lemma StillKeeps(s: State, t: Step)
    requires Enabled(s, t) && Still(s, t)
    ensures var s' := Apply(s, t); s'.rows == s.rows && s'.repos == s.repos && s'.shown == s.shown
    ensures Claims(Apply(s, t).calls) == Claims(s.calls) && Bringers(Apply(s, t).calls) == Bringers(s.calls)
  {
    var s' := Apply(s, t);
    if t.DeleteLens? {
      assert s'.calls == s.calls;
    } else {
      var c := t.c;
      RestUntouched(s, t, c);
      SplitOff(s.calls, c);
      SplitOff(s'.calls, c);
      StillClaims(s, t);
    }
  }

  lemma StillClaims(s: State, t: Step)
    requires Enabled(s, t) && Still(s, t) && !t.DeleteLens?
    ensures t.c in s.calls ==> ClaimOf(s.calls[t.c]) == {} && BroughtBy(s.calls[t.c]) == {}
    ensures t.c in Apply(s, t).calls ==> ClaimOf(Apply(s, t).calls[t.c]) == {} && BroughtBy(Apply(s, t).calls[t.c]) == {}
  {
  }

  lemma StillExactly(s: State, t: Step)
    requires LockHeld(s) && Agrees(s) && Enabled(s, t) && Still(s, t)
    ensures Agrees(Apply(s, t)) && Guard(s, t)
  {
    AgreesIsFine(s);
    AgreesIsFine(Apply(s, t));
    StillKeeps(s, t);
    SameArchiving(s, t);
    hide Agrees, Fine, Apply, Archiving;
  }

  /** The state after a step of c's, in terms of what others account for. */
  lemma Accounts(s: State, t: Step, c: CallId)
    requires Enabled(s, t) && Actor(t) == Some(c) && c in s.calls
    ensures var rest := Without(s.calls, c); var s' := Apply(s, t);
      && Claims(s.calls) == Claims(rest) + ClaimOf(s.calls[c])
      && Bringers(s.calls) == Bringers(rest) + BroughtBy(s.calls[c])
      && Claims(s'.calls) == Claims(rest) + (if c in s'.calls then ClaimOf(s'.calls[c]) else {})
      && Bringers(s'.calls) == Bringers(rest) + (if c in s'.calls then BroughtBy(s'.calls[c]) else {})
  {
    RestUntouched(s, t, c);
    SplitOff(s.calls, c);
    SplitOff(Apply(s, t).calls, c);
  }

  lemma WriteExactly(s: State, c: CallId)
    requires LockHeld(s) && Agrees(s) && Enabled(s, Write(c))
    ensures Agrees(Apply(s, Write(c))) <==> WriteGuard(s, s.calls[c])
  {
    var t, s' := Write(c), Apply(s, Write(c));
    AgreesIsFine(s);
    AgreesIsFine(s');
    SameArchiving(s, t);
    Accounts(s, t, c);
    hide Agrees, Fine, Archiving, Claims, Bringers, NameFits, Taken, LockHeld;
    match s.calls[c]
    case Rename(inst, from, to, _) =>
      if CasName(s.rows, inst.uid, from, to).1 {
        Renaming(s.rows, s.repos, s.shown, Archiving(s), Claims(s.calls), Claims(s'.calls), Bringers(s.calls), inst.uid, to);
      }
    case Create(uid, to, _) =>
      if Insert(s.rows, uid, to).1 {
        Inserting(s.rows, s.repos, s.shown, Archiving(s), Claims(s.calls), Bringers(s.calls), uid, to);
      }
    case Restore(uid, found, to, _) =>
      if to != found && SetName(s.rows, uid, to).1 {
        Renaming(s.rows, s.repos, s.shown, Archiving(s), Claims(s.calls), Claims(s'.calls), Bringers(s.calls), uid, to);
      }
  }

  lemma ActivateExactly(s: State, c: CallId)
    requires LockHeld(s) && Agrees(s) && Enabled(s, Activate(c))
    ensures Agrees(Apply(s, Activate(c)))
  {
    var t, s' := Activate(c), Apply(s, Activate(c));
    AgreesIsFine(s);
    AgreesIsFine(s');
    SameArchiving(s, t);
    Accounts(s, t, c);
    hide Agrees, Fine, Archiving, Claims, Bringers, Taken, LockHeld;
    if SetState(s.rows, s.calls[c].uid, true).1 {
      Activating(s.rows, s.repos, s.shown, Archiving(s), Claims(s.calls), Bringers(s.calls), s.calls[c].uid);
    }
  }

  lemma UndoExactly(s: State, c: CallId)
    requires LockHeld(s) && Agrees(s) && Enabled(s, Undo(c))
    ensures Agrees(Apply(s, Undo(c))) <==> UndoGuard(s, s.calls[c])
  {
    var t, s' := Undo(c), Apply(s, Undo(c));
    AgreesIsFine(s);
    AgreesIsFine(s');
    SameArchiving(s, t);
    Accounts(s, t, c);
    hide Agrees, Fine, Archiving, Claims, Bringers, NameFits, Taken, LockHeld;
    match s.calls[c]
    case Rename(inst, from, to, _) =>
      if CasName(s.rows, inst.uid, to, from).1 {
        Renaming(s.rows, s.repos, s.shown, Archiving(s), Claims(s.calls), Claims(s'.calls), Bringers(s.calls), inst.uid, from);
      }
    case Restore(uid, found, to, _) =>
      if to != found && SetName(s.rows, uid, found).1 {
        Renaming(s.rows, s.repos, s.shown, Archiving(s), Claims(s.calls), Claims(s'.calls), Bringers(s.calls), uid, found);
      }
  }

  lemma GiveUpExactly(s: State, c: CallId)
    requires LockHeld(s) && Agrees(s) && Enabled(s, GiveUp(c)) && s.calls[c].pc == Written
    ensures Agrees(Apply(s, GiveUp(c))) <==> GiveUpGuard(s, s.calls[c])
  {
    var t, s' := GiveUp(c), Apply(s, GiveUp(c));
    AgreesIsFine(s);
    AgreesIsFine(s');
    SameArchiving(s, t);
    Accounts(s, t, c);
    var brought, brought' := Bringers(s.calls), Bringers(s'.calls);
    hide Agrees, Archiving, Claims, Bringers, LockHeld;
    match s.calls[c]
    case Create(uid, _, _) =>
      hide Fine;
      Deleting(s.rows, s.repos, s.shown, Archiving(s), Claims(s.calls), brought, brought', uid);
    case Restore(uid, _, _, _) =>
      if uid in s.rows {
        hide Fine;
        Deactivating(s.rows, s.repos, s.shown, Archiving(s), Claims(s.calls), brought, brought', uid);
      } else {
        forall n | n in s.repos ensures s.repos[n].uid in s.rows {
          assert EntryFine(s.rows, s.shown, Archiving(s), Claims(s.calls), n, s.repos[n]);
        }
        hide EntryFine;
      }
  }

  lemma LandExactly(s: State, c: CallId)
    requires OldIds(s) && LockHeld(s) && Agrees(s) && Enabled(s, Land(c))
    ensures Agrees(Apply(s, Land(c))) <==> LandGuard(s, c)
  {
    hide Agrees, Fine, Apply, LandGuard, Claims, Bringers;
    SameArchiving(s, Land(c));
    assert Archiving(s) == None;
    AgreesIsFine(s);
    AgreesIsFine(Apply(s, Land(c)));
    Accounts(s, Land(c), c);
    LandedCall(s, c);
    hide Archiving, LockHeld;
    if s.calls[c].Rename? {
      LandRename(s, c);
    } else {
      OldClaims(s);
      LandEnters(s, c);
    }
  }

  lemma LandedCall(s: State, c: CallId)
    requires Enabled(s, Land(c))
    ensures c in Apply(s, Land(c)).calls
    ensures s.calls[c].Rename? ==> BroughtBy(s.calls[c]) == {} && BroughtBy(Apply(s, Land(c)).calls[c]) == {}
    ensures !s.calls[c].Rename? ==> ClaimOf(s.calls[c]) == {} && ClaimOf(Apply(s, Land(c)).calls[c]) == {}
  {
  }

  lemma LandRename(s: State, c: CallId)
    requires Enabled(s, Land(c)) && s.calls[c].Rename?
    requires Fine(s.rows, s.repos, s.shown, None, Claims(s.calls), Bringers(s.calls))
    requires Claims(s.calls) == Claims(Without(s.calls, c)) + ClaimOf(s.calls[c])
    requires Claims(Apply(s, Land(c)).calls) == Claims(Without(s.calls, c)) + ClaimOf(Apply(s, Land(c)).calls[c])
    requires Bringers(Apply(s, Land(c)).calls) == Bringers(s.calls)
    ensures var s' := Apply(s, Land(c));
      Fine(s'.rows, s'.repos, s'.shown, None, Claims(s'.calls), Bringers(s'.calls)) <==> LandGuard(s, c)
  {
    hide Fine, Claims, Bringers;
    var call, s' := s.calls[c], Apply(s, Land(c));
    if call.from in s.repos && s.repos[call.from] == call.inst && call.to !in s.repos {
      Moving(s.rows, s.repos, s.shown, Claims(s.calls), Claims(s'.calls), Bringers(s.calls), call.from, call.to, call.inst);
    } else {
      LosingClaim(s.rows, s.repos, s.shown, None, Claims(s.calls), Claims(s'.calls), Bringers(s.calls), call.from, call.to, call.inst);
    }
  }

  lemma LandEnters(s: State, c: CallId)
    requires Enabled(s, Land(c)) && (s.calls[c].Create? || s.calls[c].Restore?)
    requires Fine(s.rows, s.repos, s.shown, None, Claims(s.calls), Bringers(s.calls))
    requires OldIds(s) && forall x :: x in Claims(s.calls) ==> x.1.id < s.nextId
    requires Bringers(s.calls) == Bringers(Without(s.calls, c)) + BroughtBy(s.calls[c])
    requires Bringers(Apply(s, Land(c)).calls) == Bringers(Without(s.calls, c)) + BroughtBy(Apply(s, Land(c)).calls[c])
    requires Claims(Apply(s, Land(c)).calls) == Claims(s.calls)
    ensures var s' := Apply(s, Land(c));
      Fine(s'.rows, s'.repos, s'.shown, None, Claims(s'.calls), Bringers(s'.calls)) <==> LandGuard(s, c)
  {
    hide Fine, Claims, Bringers, EntersRight;
    var call, s' := s.calls[c], Apply(s, Land(c));
    Entering(s.rows, s.repos, s.shown, Claims(s.calls), Bringers(s.calls), Bringers(s'.calls), call.to, Inst(s.nextId, call.uid));
  }

  // Instances in flight are older than the next one.
  lemma OldClaims(s: State)
    requires OldIds(s)
    ensures forall x :: x in Claims(s.calls) ==> x.1.id < s.nextId
  {
    forall x | x in Claims(s.calls) ensures x.1.id < s.nextId {
      var c :| c in s.calls && x in ClaimOf(s.calls[c]);
    }
  }

  lemma FlipExactly(s: State, c: CallId)
    requires Base(s) && Agrees(s) && Enabled(s, Flip(c))
    ensures Agrees(Apply(s, Flip(c)))
  {
    var t, s' := Flip(c), Apply(s, Flip(c));
    var call := s.calls[c];
    AgreesIsFine(s);
    AgreesIsFine(s');
    Accounts(s, t, c);
    assert EntryFine(s.rows, s.shown, Archiving(s), Claims(s.calls), call.name, call.inst);
    hide Agrees, Fine, Claims, Bringers, OldIds;
    assert Archiving(s) == None && Archiving(s') == Some(call.inst);
    Flipping(s.rows, s.repos, s.shown, Claims(s.calls), Bringers(s.calls), call.name, call.inst);
  }

  lemma DropExactly(s: State, c: CallId)
    requires Base(s) && Agrees(s) && Enabled(s, Drop(c))
    ensures Agrees(Apply(s, Drop(c)))
  {
    var t, s' := Drop(c), Apply(s, Drop(c));
    AgreesIsFine(s);
    AgreesIsFine(s');
    Accounts(s, t, c);
    var call := s.calls[c];
    assert Archiving(s) == Some(call.inst) && Archiving(s') == None;
    hide Agrees, Fine, Claims, Bringers, OldIds;
    Dropping(s.rows, s.repos, s.shown, Claims(s.calls), Bringers(s.calls), call.name, call.inst);
  }

  // From a state in agreement a step keeps agreement if and only if it meets its guard.
  lemma StepExactly(s: State, t: Step)
    requires Base(s) && Agrees(s) && Enabled(s, t)
    ensures Agrees(Apply(s, t)) <==> Guard(s, t)
  {
    hide Agrees, Apply, OldIds, LockHeld, ArchivesHold, WriteGuard, LandGuard, GiveUpGuard, UndoGuard;
    if Still(s, t) {
      StillExactly(s, t);
    } else {
      match t
      case Write(c) => WriteExactly(s, c);
      case Activate(c) => ActivateExactly(s, c);
      case Land(c) => LandExactly(s, c);
      case GiveUp(c) => GiveUpExactly(s, c);
      case Undo(c) => UndoExactly(s, c);
      case Flip(c) => FlipExactly(s, c);
      case Drop(c) => DropExactly(s, c);
    }
  }

  // ---------- whole runs ----------

  lemma BaseOldIds(s: State, t: Step)
    requires OldIds(s) && Enabled(s, t)
    ensures OldIds(Apply(s, t))
  {
    var s' := Apply(s, t);
    IdsGrow(s, t);
    EntriesAfter(s, t);
    forall d | d in s'.calls && s'.calls[d].Rename? ensures s'.calls[d].inst.id < s'.nextId {
      CallsMove(s, t, d);
    }
    hide Apply;
  }

  lemma ArchivesStay(s: State, t: Step)
    requires LockHeld(s) && ArchivesHold(s) && Enabled(s, t)
    ensures ArchivesHold(Apply(s, t))
  {
    var s' := Apply(s, t);
    forall d | d in s'.calls && s'.calls[d].Archive?
      ensures s'.calls[d].name in s'.repos && s'.repos[s'.calls[d].name] == s'.calls[d].inst
      ensures var u := s'.calls[d].inst.uid;
        s'.calls[d].pc == Written && u in s'.rows && s'.rows[u].active ==> u in Bringers(s'.calls)
    {
      ArchiveStays(s, t, d);
    }
  }

  lemma ArchiveStays(s: State, t: Step, d: CallId)
    requires LockHeld(s) && ArchivesHold(s) && Enabled(s, t) && d in Apply(s, t).calls && Apply(s, t).calls[d].Archive?
    ensures var s' := Apply(s, t); s'.calls[d].name in s'.repos && s'.repos[s'.calls[d].name] == s'.calls[d].inst
    ensures var s' := Apply(s, t); var u := s'.calls[d].inst.uid;
      s'.calls[d].pc == Written && u in s'.rows && s'.rows[u].active ==> u in Bringers(s'.calls)
  {
    EntriesAfter(s, t);
    if Actor(t) != Some(d) {
      OthersUntouched(s, t, d);
      if s.calls[d].pc == Written {
        BroughtStays(s, t, s.calls[d].inst.uid, d);
      }
    }
    hide CasName, SetName, Insert;
  }

  // While an archive holds the lock, a row becomes active only by a call that brings its repo in, and
  // such a call can only take that back.
  lemma BroughtStays(s: State, t: Step, u: Uid, d: CallId)
    requires Enabled(s, t) && s.lock == Some(d) && Actor(t) != Some(d)
    requires u in s.rows && s.rows[u].active ==> u in Bringers(s.calls)
    ensures var s' := Apply(s, t); u in s'.rows && s'.rows[u].active ==> u in Bringers(s'.calls)
  {
    if !t.DeleteLens? {
      RestUntouched(s, t, t.c);
      SplitOff(s.calls, t.c);
      SplitOff(Apply(s, t).calls, t.c);
      RowRises(s, t, u);
    }
  }

  lemma RowRises(s: State, t: Step, u: Uid)
    requires Enabled(s, t) && s.lock.Some? && !t.DeleteLens? && s.lock != Some(t.c)
    ensures var s' := Apply(s, t);
      u in s'.rows && s'.rows[u].active ==>
        (t.c in s'.calls && u in BroughtBy(s'.calls[t.c])) ||
        (u in s.rows && s.rows[u].active && (t.c in s.calls ==> u !in BroughtBy(s.calls[t.c])))
  {
  }

  lemma BaseKept(s: State, t: Step)
    requires Base(s) && Enabled(s, t)
    ensures Base(Apply(s, t))
  {
    hide Apply, OldIds, LockHeld, ArchivesHold;
    BaseOldIds(s, t);
    LockKept(s, t);
    ArchivesStay(s, t);
  }

  lemma {:induction false} BaseAlong(states: seq<State>, steps: seq<Step>)
    requires Run(states, steps) && Idle(states[0]) && OldIds(states[0])
    ensures forall s :: s in states ==> Base(s)
    decreases |steps|
  {
    hide Enabled, Apply, OldIds;
    if |steps| > 0 {
      var n := |steps| - 1;
      assert forall i :: 0 <= i < n ==> states[..n + 1][i] == states[i] && steps[..n][i] == steps[i];
      BaseAlong(states[..n + 1], steps[..n]);
      assert states[..n + 1][n] == states[n] && states[n] in states[..n + 1];
      assert StepTo(states[n], steps[n], states[n + 1]);
      hide Base;
      BaseKept(states[n], steps[n]);
      assert states == states[..n + 1] + [states[n + 1]];
    }
  }

  /** Every step of the run meets its guard. */
  ghost predicate Guarded(states: seq<State>, steps: seq<Step>)
    requires Run(states, steps)
  {
    forall i :: 0 <= i < |steps| ==> StepTo(states[i], steps[i], states[i + 1]) && Guard(states[i], steps[i])
  }

  // From a quiet agreeing start names agree all along a run, whatever calls overlap in it, if and only
  // if every step of it meets its guard.
  lemma AgreesExactly(states: seq<State>, steps: seq<Step>)
    requires Run(states, steps) && Idle(states[0]) && AllNamesAgree(states[0]) && OldIds(states[0])
    ensures (forall s :: s in states ==> Agrees(s)) <==> Guarded(states, steps)
  {
    BaseAlong(states, steps);
    hide Base, OldIds, AllNamesAgree, Agrees, Guard, Apply, Enabled;
    QuietAgreement(states[0]);
    if forall s :: s in states ==> Agrees(s) {
      forall i | 0 <= i < |steps| ensures StepTo(states[i], steps[i], states[i + 1]) && Guard(states[i], steps[i]) {
        assert states[i] in states && states[i + 1] in states;
        StepGuarded(states, steps, i);
      }
    }
    if Guarded(states, steps) {
      forall s | s in states ensures Agrees(s) {
        var i :| 0 <= i < |states| && states[i] == s;
        GuardedAgrees(states, steps, i);
      }
    }
  }

  lemma StepGuarded(states: seq<State>, steps: seq<Step>, i: nat)
    requires Run(states, steps) && i < |steps| && Base(states[i]) && Agrees(states[i])
    ensures StepTo(states[i], steps[i], states[i + 1]) && (Agrees(states[i + 1]) <==> Guard(states[i], steps[i]))
  {
    hide Base, Agrees, Guard, Apply, Enabled;
    assert StepTo(states[i], steps[i], states[i + 1]);
    StepExactly(states[i], steps[i]);
  }

  lemma {:induction false} GuardedAgrees(states: seq<State>, steps: seq<Step>, i: nat)
    requires Run(states, steps) && i <= |steps| && Guarded(states, steps) && Agrees(states[0])
    requires forall s :: s in states ==> Base(s)
    ensures Agrees(states[i])
    decreases i
  {
    hide Base, Agrees, Guard, Apply, Enabled;
    if i > 0 {
      GuardedAgrees(states, steps, i - 1);
      StepGuarded(states, steps, i - 1);
    }
  }

  // So a guarded run ends, once quiet, with all names agreeing; and every orderly run is guarded.
  lemma GuardedEnds(states: seq<State>, steps: seq<Step>)
    requires Run(states, steps) && Idle(states[0]) && AllNamesAgree(states[0]) && OldIds(states[0])
    requires Guarded(states, steps) && Idle(states[|steps|])
    ensures AllNamesAgree(states[|steps|])
  {
    AgreesExactly(states, steps);
    assert states[|steps|] in states;
    QuietAgreement(states[|steps|]);
  }

  lemma OrderlyIsGuarded(states: seq<State>, steps: seq<Step>)
    requires Run(states, steps) && Idle(states[0]) && AllNamesAgree(states[0]) && OldIds(states[0])
    requires OrderlyRun(states, steps)
    ensures Guarded(states, steps)
  {
    AgreeAlong(states, steps);
    forall s | s in states ensures Agrees(s) {
      var i :| 0 <= i < |states| && states[i] == s;
      assert AgreeInv(states[i]);
    }
    AgreesExactly(states, steps);
  }
}
