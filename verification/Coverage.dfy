/**
  Coverage and compare-and-swap: the committed windows leave no gap below the
  checkpoint, the checkpoint never moves back, and no checkpoint is consumed twice.
 */
module Coverage {
  import opened Wrappers
  import opened Canonical
  import opened JournalModel
  import opened Pipeline
  import DeliveryProof
  import opened Sequences

  ghost predicate CoveredBy(windows: map<WindowId, StoredWindow>, p: ProfileId, t: int, w: WindowId) {
    && w in windows
    && windows[w].state == COMMITTED
    && windows[w].window.profileId == p
    && windows[w].window.startRaw <= t < windows[w].window.endRaw
  }

  ghost predicate Covered(windows: map<WindowId, StoredWindow>, p: ProfileId, t: int) {
    exists w :: CoveredBy(windows, p, t, w)
  }

  /** No raw time from the bound in force up to the checkpoint is missing. */
  ghost predicate NoGap(s: Sys) {
    forall p | p in s.db.checkpoints ::
      && p in s.bounds
      && s.bounds[p] <= s.db.checkpoints[p].next
      && forall t | s.bounds[p] <= t < s.db.checkpoints[p].next :: Covered(s.db.windows, p, t)
  }

  ghost predicate LastStored(s: Sys) {
    forall p | p in s.db.checkpoints && s.db.checkpoints[p].lastWindow.Some? ::
      s.db.checkpoints[p].lastWindow.value in s.db.windows
  }

  /** What a consumed checkpoint can no longer look like. */
  ghost predicate Outdated(k: Key, c: Checkpoint, windows: map<WindowId, StoredWindow>) {
    && k.next <= c.next
    && (k.lastWindow.Some? ==> k.lastWindow.value in windows && k.lastWindow != c.lastWindow)
    && (k.lastWindow.None? && c.lastWindow.None? ==> k.next < c.next)
  }

  ghost predicate SpentOutdated(s: Sys) {
    forall i | 0 <= i < |s.spent| ::
      && s.spent[i].profileId in s.db.checkpoints
      && Outdated(s.spent[i], s.db.checkpoints[s.spent[i].profileId], s.db.windows)
  }

  ghost predicate Inv(s: Sys) {
    NoGap(s) && LastStored(s) && SpentOutdated(s) && Distinct(s.spent)
  }

  /** The effect of a successful commit on checkpoints and windows. */
  lemma CommitShape(s: Sys, a: Action)
    requires a.CommitWindow?
    requires Commit(s.db, a.expected, a.window, a.records, a.messages, a.mode).Success?
    ensures var t, w := Step(s, a), a.window;
            && Plausible(a.expected, w, a.mode)
            && w.id !in s.db.windows
            && t.db.windows == WithWindow(s.db.windows, w, a.mode)
            && (a.mode.Forward? ==>
                  && Matches(CheckpointOf(s.db, w.profileId), a.expected, a.mode.lowerBound)
                  && t.db.checkpoints == s.db.checkpoints[w.profileId := Advanced(a.expected, w)]
                  && t.spent == s.spent + [KeyOf(a.expected)]
                  && t.bounds == (if w.profileId in s.db.checkpoints then s.bounds
                                  else s.bounds[w.profileId := a.mode.lowerBound]))
            && (a.mode.Reconcile? ==>
                  && a.mode.prior.Some? && PriorMatches(s.db.windows, a.mode.prior.value, w)
                  && t.db.checkpoints == s.db.checkpoints && t.spent == s.spent && t.bounds == s.bounds)
  {
  }

  lemma ForwardKeeps(s: Sys, t: Sys, a: Action, p: ProfileId, x: int)
    requires NoGap(s) && a.CommitWindow? && a.mode.Forward? && Plausible(a.expected, a.window, a.mode)
    requires Matches(CheckpointOf(s.db, a.window.profileId), a.expected, a.mode.lowerBound)
    requires a.window.id !in s.db.windows
    requires t.db.windows == WithWindow(s.db.windows, a.window, a.mode)
    requires t.db.checkpoints == s.db.checkpoints[a.window.profileId := Advanced(a.expected, a.window)]
    requires t.bounds == (if a.window.profileId in s.db.checkpoints then s.bounds
                          else s.bounds[a.window.profileId := a.mode.lowerBound])
    requires p in t.db.checkpoints
    ensures p in t.bounds && t.bounds[p] <= t.db.checkpoints[p].next
    ensures t.bounds[p] <= x < t.db.checkpoints[p].next ==> Covered(t.db.windows, p, x)
  {
    var w := a.window;
    if p in s.db.checkpoints && s.bounds[p] <= x < s.db.checkpoints[p].next {
      assert Covered(s.db.windows, p, x);
      var v :| CoveredBy(s.db.windows, p, x, v);
      assert CoveredBy(t.db.windows, p, x, v);
    } else if p == w.profileId && w.startRaw <= x < w.endRaw {
      assert CoveredBy(t.db.windows, p, x, w.id);
    }
  }

  lemma ReconcileKeeps(s: Sys, t: Sys, a: Action, p: ProfileId, x: int)
    requires a.CommitWindow? && a.mode.Reconcile? && a.mode.prior.Some?
    requires PriorMatches(s.db.windows, a.mode.prior.value, a.window) && a.window.id !in s.db.windows
    requires t.db.windows == WithWindow(s.db.windows, a.window, a.mode)
    requires Covered(s.db.windows, p, x)
    ensures Covered(t.db.windows, p, x)
  {
    var v :| CoveredBy(s.db.windows, p, x, v);
    if v == a.mode.prior.value {
      assert CoveredBy(t.db.windows, p, x, a.window.id);
    } else {
      assert CoveredBy(t.db.windows, p, x, v);
    }
  }

  lemma CommitKeepsNoGap(s: Sys, a: Action)
    requires NoGap(s) && a.CommitWindow?
    requires Commit(s.db, a.expected, a.window, a.records, a.messages, a.mode).Success?
    ensures NoGap(Step(s, a))
  {
    var t := Step(s, a);
    CommitShape(s, a);
    forall p, x | p in t.db.checkpoints
      ensures p in t.bounds && t.bounds[p] <= t.db.checkpoints[p].next
      ensures t.bounds[p] <= x < t.db.checkpoints[p].next ==> Covered(t.db.windows, p, x)
    {
      if a.mode.Forward? {
        ForwardKeeps(s, t, a, p, x);
      } else if s.bounds[p] <= x < s.db.checkpoints[p].next {
        ReconcileKeeps(s, t, a, p, x);
      }
    }
    assert forall p | p in t.db.checkpoints ::
        (forall x | t.bounds[p] <= x < t.db.checkpoints[p].next :: Covered(t.db.windows, p, x));
  }

  /** A forward commit consumes a checkpoint that was never consumed before. */
  lemma FreshKey(s: Sys, a: Action, i: nat)
    requires Inv(s) && a.CommitWindow? && a.mode.Forward? && i < |s.spent|
    requires Commit(s.db, a.expected, a.window, a.records, a.messages, a.mode).Success?
    ensures s.spent[i] != KeyOf(a.expected)
  {
    CommitShape(s, a);
  }

  lemma CommitKeepsKeys(s: Sys, a: Action)
    requires Inv(s) && a.CommitWindow?
    requires Commit(s.db, a.expected, a.window, a.records, a.messages, a.mode).Success?
    ensures SpentOutdated(Step(s, a)) && Distinct(Step(s, a).spent) && LastStored(Step(s, a))
  {
    var t := Step(s, a);
    CommitShape(s, a);
    assert t.db.windows.Keys == s.db.windows.Keys + {a.window.id};
    if a.mode.Forward? {
      forall i | 0 <= i < |s.spent| ensures s.spent[i] != KeyOf(a.expected) {
        FreshKey(s, a, i);
      }
    }
  }

  lemma RecoveryShape(s: Sys, a: Action)
    requires a.RecoverBound? && Step(s, a) != s
    ensures var t, p := Step(s, a), a.profileId;
            && p in s.db.checkpoints && s.db.checkpoints[p].next < a.bound
            && t.db.windows == s.db.windows && t.spent == s.spent && t.bounds == s.bounds[p := a.bound]
            && t.db.checkpoints == s.db.checkpoints[p :=
                 s.db.checkpoints[p].(next := a.bound, lastWindow := None, updatedAt := a.now)]
  {
  }

  lemma CheckpointsUntouched(s: Sys, a: Action)
    requires !a.CommitWindow? && !a.RecoverBound?
    ensures var t := Step(s, a);
            && t.db.checkpoints == s.db.checkpoints && t.db.windows == s.db.windows
            && t.bounds == s.bounds && t.spent == s.spent
  {
    match a {
      case ClaimBatch(_, _, _, _, _) =>
        var _, _, _, _ := DeliveryProof.ClaimShape(s, a);
      case _ =>
    }
  }

  lemma StepKeeps(s: Sys, a: Action)
    requires Inv(s)
    ensures Inv(Step(s, a))
  {
    match a {
      case CommitWindow(_, _, _, _, _) =>
        if Commit(s.db, a.expected, a.window, a.records, a.messages, a.mode).Success? {
          CommitKeepsNoGap(s, a);
          CommitKeepsKeys(s, a);
        }
      case RecoverBound(_, _, _) =>
        if Step(s, a) != s {
          RecoveryShape(s, a);
        }
      case _ =>
        CheckpointsUntouched(s, a);
    }
  }

  lemma {:induction false} RunKeeps(actions: seq<Action>)
    ensures Inv(Run(actions))
    decreases |actions|
  {
    if actions != [] {
      RunKeeps(actions[..|actions| - 1]);
      StepKeeps(Run(actions[..|actions| - 1]), actions[|actions| - 1]);
    }
  }

  /** The COMMITTED windows cover every raw time from the bound in force to the checkpoint. */
  lemma {:induction false} WindowsCoverHistory(actions: seq<Action>, p: ProfileId, t: int)
    requires p in Run(actions).db.checkpoints
    ensures p in Run(actions).bounds
    ensures Run(actions).bounds[p] <= t < Run(actions).db.checkpoints[p].next ==>
              Covered(Run(actions).db.windows, p, t)
  {
    RunKeeps(actions);
  }

  /** The checkpoint of a profile exists forever and never moves back. */
  lemma {:induction false} NextNeverDecreases(actions: seq<Action>, a: Action, p: ProfileId)
    requires p in Run(actions).db.checkpoints
    ensures p in Step(Run(actions), a).db.checkpoints
    ensures Run(actions).db.checkpoints[p].next <= Step(Run(actions), a).db.checkpoints[p].next
  {
    var s := Run(actions);
    match a {
      case CommitWindow(_, _, _, _, _) =>
        if Commit(s.db, a.expected, a.window, a.records, a.messages, a.mode).Success? {
          CommitShape(s, a);
        }
      case RecoverBound(_, _, _) =>
        if Step(s, a) != s {
          RecoveryShape(s, a);
        }
      case _ =>
        CheckpointsUntouched(s, a);
    }
  }

  /** The i-th action of a run is a forward commit that took effect. */
  ghost predicate Commits(actions: seq<Action>, i: nat) {
    && i < |actions| && actions[i].CommitWindow? && actions[i].mode.Forward?
    && Commit(Run(actions[..i]).db, actions[i].expected, actions[i].window, actions[i].records,
              actions[i].messages, actions[i].mode).Success?
  }

  lemma {:induction false} SpentGrows(actions: seq<Action>, n: nat)
    requires n <= |actions|
    ensures Run(actions[..n]).spent <= Run(actions).spent
    decreases |actions|
  {
    if n == |actions| {
      assert actions[..n] == actions;
    } else {
      var k := |actions| - 1;
      assert actions[..k][..n] == actions[..n];
      SpentGrows(actions[..k], n);
      LastStep(actions);
      SpentStep(Run(actions[..k]), actions[k]);
    }
  }

  lemma {:induction false} LastStep(actions: seq<Action>)
    requires actions != []
    ensures Run(actions) == Step(Run(actions[..|actions| - 1]), actions[|actions| - 1])
  {
  }

  lemma SpentStep(s: Sys, a: Action)
    ensures s.spent <= Step(s, a).spent
  {
    if a.CommitWindow? {
      if Commit(s.db, a.expected, a.window, a.records, a.messages, a.mode).Success? {
        CommitShape(s, a);
      }
    } else if a.RecoverBound? {
      if Step(s, a) != s {
        RecoveryShape(s, a);
      }
    } else {
      CheckpointsUntouched(s, a);
    }
  }

  /** A forward commit appends the key of the checkpoint it was planned from. */
  lemma SpentAfter(actions: seq<Action>, i: nat, next: nat)
    requires Commits(actions, i) && next == i + 1
    ensures Run(actions[..next]).spent == Run(actions[..i]).spent + [KeyOf(actions[i].expected)]
  {
    CommitShape(Run(actions[..i]), actions[i]);
    assert actions[..next][..i] == actions[..i] && actions[..next][i] == actions[i];
    LastStep(actions[..next]);
  }

  /**
    Compare-and-swap: in no run do two forward commits planned from the same
    checkpoint both take effect, whatever happens between them.
   */
  lemma NoCheckpointConsumedTwice(actions: seq<Action>, i: nat, j: nat)
    requires i < j && Commits(actions, i) && Commits(actions, j)
    ensures KeyOf(actions[i].expected) != KeyOf(actions[j].expected)
  {
    var next, n := i + 1, |Run(actions[..i]).spent|;
    SpentAfter(actions, i, next);
    assert actions[..j][..next] == actions[..next];
    SpentGrows(actions[..j], next);
    RunKeeps(actions[..j]);
    FreshKey(Run(actions[..j]), actions[j], n);
  }
}
