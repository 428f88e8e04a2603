/**
 Repos and lenses share one namespace: no live repo's name is ever a lens's name
 (internal/repos/lifecycle.go). Every call that introduces a name reserves it before its last
 check and releases it after publishing.
*/
module Namespace {
  import opened Wrappers
  import opened Lifecycle

  ghost predicate Disjoint(s: State) {
    forall n :: n in s.repos ==> n !in s.lenses
  }

  /** Past its lens check and not yet done, a call's name stays free of lenses; past its repo
      check, under the lock, a lens's name stays free of repos. */
  ghost predicate Stands(call: Call, repos: set<Name>, lenses: set<Name>) {
    && (NamesRepo(call) && call.pc in {Cleared, Renamed, Written} ==> call.to !in lenses)
    && (call.LensPut? && call.pc == Checked ==> call.to !in repos)
  }

  ghost predicate ChecksStand(s: State) {
    forall c :: c in s.calls ==> Stands(s.calls[c], s.repos.Keys, s.lenses)
  }

  ghost predicate NamespaceInv(s: State) {
    Reservations(s) && LockHeld(s) && Disjoint(s) && ChecksStand(s)
  }

  lemma NewNames(s: State, t: Step)
    requires Enabled(s, t)
    ensures var s' := Apply(s, t);
            && (forall n :: n in s'.lenses && n !in s.lenses ==> t.LensWrite? && n == s.calls[t.c].to)
            && (forall n :: n in s'.repos && n !in s.repos ==> t.Land? && n == s.calls[t.c].to && s.lock.None?)
  {
  }

  lemma OwnCheckStands(s: State, t: Step)
    requires ChecksStand(s) && Enabled(s, t) && Actor(t).Some? && t.c in Apply(s, t).calls
    ensures Stands(Apply(s, t).calls[t.c], Apply(s, t).repos.Keys, Apply(s, t).lenses)
  {
    hide Apply, Stands, Enabled;
    if t.Write? || t.Land? {
      OwnSectionStands(s, t);
    } else if t.GiveUp? || t.Undo? {
      OwnGiveUpStands(s, t);
    } else if t.Reserve? || t.CheckFree? || t.CheckLens? || t.Activate? {
      OwnRepoCheckStands(s, t);
    } else {
      OwnOtherStands(s, t);
    }
  }

  lemma OwnRepoCheckStands(s: State, t: Step)
    requires ChecksStand(s) && Enabled(s, t) && (t.Reserve? || t.CheckFree? || t.CheckLens? || t.Activate?)
    requires t.c in Apply(s, t).calls
    ensures Stands(Apply(s, t).calls[t.c], Apply(s, t).repos.Keys, Apply(s, t).lenses)
  {
    hide SetState;
    assert Stands(s.calls[t.c], s.repos.Keys, s.lenses);
  }

  lemma OwnOtherStands(s: State, t: Step)
    requires Enabled(s, t) && Actor(t).Some? && t.c in Apply(s, t).calls
    requires !t.Write? && !t.Land? && !t.GiveUp? && !t.Undo? && !t.Reserve? && !t.CheckFree? && !t.CheckLens? && !t.Activate?
    ensures Stands(Apply(s, t).calls[t.c], Apply(s, t).repos.Keys, Apply(s, t).lenses)
  {
    hide SetState, ApplyWrite, ApplyLand, ApplyGiveUp, ApplyUndo;
  }

  lemma OwnSectionStands(s: State, t: Step)
    requires ChecksStand(s) && Enabled(s, t) && (t.Write? || t.Land?)
    ensures t.c in Apply(s, t).calls && Stands(Apply(s, t).calls[t.c], Apply(s, t).repos.Keys, Apply(s, t).lenses)
  {
    hide CasName, SetName, Insert;
    assert Stands(s.calls[t.c], s.repos.Keys, s.lenses);
    match s.calls[t.c]
    case Rename(_, _, _, _) =>
    case _ =>
  }

  lemma OwnGiveUpStands(s: State, t: Step)
    requires ChecksStand(s) && Enabled(s, t) && (t.GiveUp? || t.Undo?) && t.c in Apply(s, t).calls
    ensures Stands(Apply(s, t).calls[t.c], Apply(s, t).repos.Keys, Apply(s, t).lenses)
  {
    hide CasName, SetName, SetState;
    assert Stands(s.calls[t.c], s.repos.Keys, s.lenses);
  }

  lemma ChecksKept(s: State, t: Step)
    requires NamespaceInv(s) && Enabled(s, t)
    ensures ChecksStand(Apply(s, t))
  {
    var s' := Apply(s, t);
    forall d | d in s'.calls
      ensures Stands(s'.calls[d], s'.repos.Keys, s'.lenses)
    {
      if Actor(t) == Some(d) {
        OwnCheckStands(s, t);
      } else {
        OthersUntouched(s, t, d);
        NewNames(s, t);
        if (t.LensWrite? || t.Land?) && HasTarget(s.calls[d]) && s.calls[d].pc != Got {
          OtherNames(s, t, d);
        }
      }
    }
  }

  // The name a step introduces is not another call's.
  lemma OtherNames(s: State, t: Step, d: CallId)
    requires NamespaceInv(s) && Enabled(s, t) && (t.LensWrite? || t.Land?)
    requires d in s.calls && d != t.c && HasTarget(s.calls[d]) && s.calls[d].pc != Got
    ensures s.calls[d].to != s.calls[t.c].to
  {
    assert d in Held(s.calls) && t.c in Held(s.calls);
  }

  lemma DisjointKept(s: State, t: Step)
    requires NamespaceInv(s) && Enabled(s, t)
    ensures Disjoint(Apply(s, t))
  {
    NewNames(s, t);
    assert Actor(t).Some? && t.c in s.calls ==> Stands(s.calls[t.c], s.repos.Keys, s.lenses);
  }

  lemma NamespaceKept(s: State, t: Step)
    requires NamespaceInv(s) && Enabled(s, t)
    ensures NamespaceInv(Apply(s, t))
  {
    ReservationsKept(s, t);
    LockKept(s, t);
    ChecksKept(s, t);
    DisjointKept(s, t);
  }

  // Whatever calls interleave, no live repo ever shares a name with a lens.
  lemma {:induction false} NoSharedNames(states: seq<State>, steps: seq<Step>)
    requires Run(states, steps)
    requires Idle(states[0]) && Disjoint(states[0])
    ensures forall s :: s in states ==> Disjoint(s)
  {
    NamespaceAlong(states, steps);
  }

  lemma {:induction false} NamespaceAlong(states: seq<State>, steps: seq<Step>)
    requires Run(states, steps)
    requires Idle(states[0]) && Disjoint(states[0])
    ensures forall i :: 0 <= i < |states| ==> NamespaceInv(states[i])
    decreases |steps|
  {
    if |steps| > 0 {
      var n := |steps| - 1;
      assert forall i :: 0 <= i < n ==> states[..n + 1][i] == states[i] && steps[..n][i] == steps[i];
      NamespaceAlong(states[..n + 1], steps[..n]);
      assert states[..n + 1][n] == states[n];
      assert StepTo(states[n], steps[n], states[n + 1]);
      NamespaceKept(states[n], steps[n]);
    }
  }
}
