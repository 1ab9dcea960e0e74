/** The grace window over runs: re-asserts cannot lengthen it, and it is cut short only by an expiry
    that was already queued when it opened. */
module GraceWindow {
  import opened Prelude
  import opened Fsm
  import opened Suspend
  import opened SuspendRuns
  import opened SuspendSafety

  /** The dispatch of an expiry that tried to suspend and was turned down. */
  predicate RejectedExpiry(d: Daemon, ev: Event, e: Env) {
    ev.TimerExpired? && WantsSuspend(d) && !(LockProven(d.inputs.locked, e) && e.suspendAccepted)
  }

  lemma ReassertKeepsLiveTimer(d: Daemon, e: Env)
    requires d.m.state == Countdown && GraceAlive(d.m)
    ensures Reasserted(d, e).m.graceTimer == d.m.graceTimer
  {
  }

  /** Staying in Countdown, the machine keeps its timer, unless a suspend attempt was rejected. */
  lemma EvaluateKeepsLiveTimer(d: Daemon, kind: EventKind, e: Env)
    requires !SuspendIn(d.fx) && d.m.state == Countdown && EvaluateFsms(d, kind, e).m.state == Countdown
    ensures EvaluateFsms(d, kind, e).m.graceTimer ==
      if kind.TimerExpiry? && WorldState(d.W()) == Countdown
      then Some(Sleeping(e.now + GraceLength(d.conf, d.inputs)))
      else d.m.graceTimer
  {
    hide SuspendingTail;
    TailShape(CancelGrace(SetClaimWatch(d, false)), e);
  }

  /** A dispatch that stays in Countdown keeps a live timer, unless a suspend attempt was rejected;
      that one re-arms a full window. */
  lemma CountdownKeepsLiveTimer(d: Daemon, ev: Event, e: Env)
    requires d.fx == [] && d.m.state == Countdown && GraceAlive(d.m)
    requires Dispatch(d, ev, e).m.state == Countdown
    ensures var r := Dispatch(d, ev, e);
      if RejectedExpiry(d, ev, e)
      then r.m.graceTimer == Some(Sleeping(e.now + GraceLength(r.conf, r.inputs)))
      else r.m.graceTimer == d.m.graceTimer
  {
    hide EvaluateFsms, RepairInputs;
    if ev.ConfigReloaded? || ev.ProfileApplied? {
      ReassertKeepsLiveTimer(d, e);
    } else if ev.ReconcileTick? {
      TickKeepsLiveTimer(d, ev.snap, e);
    } else if ev.TimerExpired? {
      ExpiryRearms(d, e);
    } else if !ev.MonitorsChanged? {
      AbsorbShape(d, ev, e);
      if Absorb(d, ev, e).1 {
        EvaluateKeepsLiveTimer(Absorb(d, ev, e).0, Kind(ev), e);
      }
    }
  }

  lemma TickKeepsLiveTimer(d: Daemon, snap: Snapshot, e: Env)
    requires d.fx == [] && d.m.state == Countdown && Reconciled(d, snap, e).m.state == Countdown
    ensures Reconciled(d, snap, e).m.graceTimer == d.m.graceTimer
  {
    TickTailKeepsMachine(d, snap, e);
    RepairShape(d, snap, e);
    hide EvaluateFsms, RepairInputs, Reconciled;
    var d1 := RepairInputs(d, snap, e);
    if RepairAndDrive(d, snap, e) != d1 {
      EvaluateKeepsLiveTimer(d1, CtxRepaired, e);
    }
  }

  lemma ExpiryRearms(d: Daemon, e: Env)
    requires d.fx == [] && d.m.state == Countdown && Dispatch(d, TimerExpired, e).m.state == Countdown
    ensures var r := Dispatch(d, TimerExpired, e);
      if RejectedExpiry(d, TimerExpired, e)
      then r.m.graceTimer == Some(Sleeping(e.now + GraceLength(r.conf, r.inputs)))
      else r.m.graceTimer == d.m.graceTimer
  {
    hide EvaluateFsms;
    var d1 := Absorb(d, TimerExpired, e).0;
    EvaluateShape(d1, TimerExpiry, e);
    EvaluateKeepsLiveTimer(d1, TimerExpiry, e);
    assert WorldState(d1.W()) == Countdown <==> WantsSuspend(d);
  }

  ghost predicate Counting(run: Run, i: nat, j: nat)
    requires run.Valid() && i <= j < |run.states|
  {
    forall k | i <= k <= j :: run.states[k].d.m.state == Countdown
  }

  ghost predicate Rejects(run: Run, k: nat)
    requires run.Valid() && k < |run.actions|
  {
    run.actions[k].Handle? && run.states[k].queue != []
    && RejectedExpiry(run.states[k].d.(fx := []), run.states[k].queue[0], run.actions[k].e)
  }

  /** The timer armed for `deadline` fires at step `k`, no sooner than it should. */
  ghost predicate Fires(run: Run, k: nat, deadline: nat)
    requires run.Valid() && k < |run.actions|
  {
    run.actions[k].TimerSends? && run.states[k].d.m.graceTimer == Some(Sleeping(deadline))
    && deadline <= run.states[k].now
  }

  lemma StepKeepsDeadline(s: Sys, a: Action, deadline: nat)
    requires Enabled(s, a) && NeverParked(s)
    requires s.d.m.state == Countdown && s.d.m.graceTimer == Some(Sleeping(deadline))
    requires Next(s, a).d.m.state == Countdown && !a.TimerSends?
    requires a.Handle? ==> !RejectedExpiry(s.d.(fx := []), s.queue[0], a.e)
    ensures Next(s, a).d.m.graceTimer == Some(Sleeping(deadline))
  {
    if a.Handle? {
      CountdownKeepsLiveTimer(s.d.(fx := []), s.queue[0], a.e);
    }
  }

  lemma CountsOn(run: Run, i: nat, j: nat)
    requires run.Valid() && i < j < |run.states| && Counting(run, i, j)
    ensures Counting(run, i, j - 1)
    ensures run.states[j - 1].d.m.state == Countdown && run.states[j].d.m.state == Countdown
  {
  }

  lemma SendsMeansFires(run: Run, k: nat, deadline: nat)
    requires run.Valid() && k < |run.actions| && run.states[k].d.m.graceTimer == Some(Sleeping(deadline))
    requires !Fires(run, k, deadline)
    ensures !run.actions[k].TimerSends?
    ensures run.actions[k].Handle? ==> run.states[k].queue != []
  {
    hide Next;
    assert run.Steps(k);
  }

  /** However many events are dispatched while the countdown lasts, its deadline stands until it fires,
      as long as no suspend attempt is rejected. */
  lemma {:induction false} NothingPostponesTheDeadline(run: Run, i: nat, j: nat, deadline: nat)
    requires run.Valid() && i <= j < |run.states| && Counting(run, i, j)
    requires run.states[i].d.m.graceTimer == Some(Sleeping(deadline))
    requires forall k | i <= k < j :: !Rejects(run, k)
    ensures run.states[j].d.m.graceTimer == Some(Sleeping(deadline))
            || exists k :: i <= k < j && Fires(run, k, deadline)
  {
    hide Next, Enabled, Dispatch, Boot, Counting, RejectedExpiry, NeverParked;
    if i < j {
      CountsOn(run, i, j);
      NothingPostponesTheDeadline(run, i, j - 1, deadline);
      assert run.Steps(j - 1) && !Rejects(run, j - 1);
      if run.states[j - 1].d.m.graceTimer == Some(Sleeping(deadline)) && !Fires(run, j - 1, deadline) {
        CountdownIsNeverParked(run, j - 1);
        SendsMeansFires(run, j - 1, deadline);
        StepKeepsDeadline(run.states[j - 1], run.actions[j - 1], deadline);
      }
    }
  }

  /** No expiry is queued and the timer sleeps until `deadline`. */
  ghost predicate CleanCountdown(s: Sys, deadline: nat) {
    s.d.m.state == Countdown && s.d.m.graceTimer == Some(Sleeping(deadline)) && TimerExpired !in s.queue
  }

  lemma StepKeepsClean(s: Sys, a: Action, deadline: nat)
    requires Enabled(s, a) && CleanCountdown(s, deadline) && NeverParked(s)
    requires s.now < deadline && Next(s, a).d.m.state == Countdown
    ensures CleanCountdown(Next(s, a), deadline)
  {
    if a.Handle? {
      assert s.queue[0] in s.queue;
      CountdownKeepsLiveTimer(s.d.(fx := []), s.queue[0], a.e);
    }
  }

  lemma {:induction false} ClockNeverTurnsBack(run: Run, i: nat, j: nat)
    requires run.Valid() && i <= j < |run.states|
    ensures run.states[i].now <= run.states[j].now
  {
    if i < j {
      ClockNeverTurnsBack(run, i, j - 1);
      assert run.Steps(j - 1);
    }
  }

  lemma {:induction false} CleanUntilTheDeadline(run: Run, i: nat, j: nat, deadline: nat)
    requires run.Valid() && i <= j < |run.states| && Counting(run, i, j)
    requires CleanCountdown(run.states[i], deadline) && run.states[j].now < deadline
    ensures CleanCountdown(run.states[j], deadline)
  {
    hide Next, Enabled, Boot, NeverParked;
    if i < j {
      assert run.Steps(j - 1);
      ClockNeverTurnsBack(run, j - 1, j);
      CleanUntilTheDeadline(run, i, j - 1, deadline);
      CountdownIsNeverParked(run, j - 1);
      StepKeepsClean(run.states[j - 1], run.actions[j - 1], deadline);
    }
  }

  /** A countdown that opened with no expiry in the queue is waited out in full: nothing it dispatches
      before the deadline suspends. */
  lemma GraceIsHonoured(run: Run, i: nat, j: nat, deadline: nat)
    requires run.Valid() && i <= j < |run.actions| && Counting(run, i, j)
    requires CleanCountdown(run.states[i], deadline) && run.states[j].now < deadline
    ensures !SuspendIn(run.states[j + 1].d.fx)
  {
    CleanUntilTheDeadline(run, i, j, deadline);
    assert run.Steps(j);
    var queue := run.states[j].queue;
    assert queue != [] ==> queue[0] in queue;
    if SuspendIn(run.states[j + 1].d.fx) {
      var k :| 0 <= k < |run.states[j + 1].d.fx| && run.states[j + 1].d.fx[k].SuspendCalled?;
      SuspendIsAlwaysJustified(run, j, k);
    }
  }

  // ---- which expiry cuts a grace short ----

  /** The number of events dispatched from step `i` up to step `j`. */
  ghost function Handled(run: Run, i: nat, j: nat): nat
    requires run.Valid() && i <= j < |run.states|
  {
    if i == j then 0 else Handled(run, i, j - 1) + if run.actions[j - 1].Handle? then 1 else 0
  }

  /** What is left at step `j` of the queue as it stood at step `i`. */
  ghost function Left(run: Run, i: nat, j: nat): seq<Event>
    requires run.Valid() && i <= j < |run.states|
  {
    var q, h := run.states[i].queue, Handled(run, i, j);
    if h <= |q| then q[h..] else []
  }

  ghost predicate NoExpirySent(run: Run, i: nat, j: nat)
    requires run.Valid() && i <= j < |run.states|
  {
    forall k | i <= k < j :: !run.actions[k].TimerSends?
  }

  lemma QueueMoves(s: Sys, a: Action)
    requires Enabled(s, a)
    ensures Next(s, a).queue == (if a.Handle? then s.queue[1..] else s.queue + Added(a))
    ensures !a.TimerSends? ==> TimerExpired !in Added(a)
    ensures a.Handle? ==> s.queue != []
  {
    hide Dispatch;
  }

  /** The queue is what is left of the old one, then events that are no expiries. */
  lemma {:induction false} QueueFollows(run: Run, i: nat, j: nat)
    requires run.Valid() && i <= j < |run.states| && NoExpirySent(run, i, j)
    ensures Left(run, i, j) <= run.states[j].queue
    ensures TimerExpired !in run.states[j].queue[|Left(run, i, j)|..]
  {
    hide Next, Enabled;
    if i < j {
      QueueFollows(run, i, j - 1);
      assert run.Steps(j - 1);
      var a, was, now := run.actions[j - 1], run.states[j - 1].queue, run.states[j].queue;
      QueueMoves(run.states[j - 1], a);
      LeftMoves(run, i, j);
      OneMove(Left(run, i, j - 1), was, Left(run, i, j), now, a.Handle?, Added(a));
    }
  }

  lemma LeftMoves(run: Run, i: nat, j: nat)
    requires run.Valid() && i < j < |run.states|
    ensures var was := Left(run, i, j - 1);
      Left(run, i, j) == if run.actions[j - 1].Handle? && was != [] then was[1..] else was
  {
    hide Next, Enabled, Boot;
  }

  /** The queue arithmetic of one step. */
  lemma OneMove(left: seq<Event>, was: seq<Event>, leftNow: seq<Event>, now: seq<Event>, pops: bool, added: seq<Event>)
    requires left <= was && TimerExpired !in was[|left|..]
    requires leftNow == if pops && left != [] then left[1..] else left
    requires if pops then was != [] && now == was[1..] else TimerExpired !in added && now == was + added
    ensures leftNow <= now && TimerExpired !in now[|leftNow|..]
  {
    if pops {
      if left == [] {
        assert forall x | x in was[1..] :: x in was;
      } else {
        assert now[|leftNow|..] == was[|left|..];
      }
    } else {
      assert now[|left|..] == was[|left|..] + added;
    }
  }

  /** Before its deadline, with no attempt rejected, a countdown's timer sends nothing. */
  lemma NothingSentEarly(run: Run, i: nat, j: nat, deadline: nat)
    requires run.Valid() && i <= j < |run.states| && Counting(run, i, j)
    requires run.states[i].d.m.graceTimer == Some(Sleeping(deadline)) && run.states[j].now < deadline
    requires forall k | i <= k < j :: !Rejects(run, k)
    ensures NoExpirySent(run, i, j)
  {
    hide Next, Dispatch, Boot, RejectedExpiry;
    forall k | i <= k < j ensures !run.actions[k].TimerSends? {
      ClockNeverTurnsBack(run, k, j);
      NothingPostponesTheDeadline(run, i, k, deadline);
      if m :| i <= m < k && Fires(run, m, deadline) {
        ClockNeverTurnsBack(run, m, j);
      }
      assert run.Steps(k);
    }
  }

  /** Whatever a step dispatches, it calls suspend exactly for an expiry that is still wanted, with the
      lock proven. */
  lemma StepSuspendsExactlyWhen(run: Run, j: nat)
    requires run.Valid() && j < |run.actions| && run.states[j].d.m.state == Countdown
    ensures SuspendIn(run.states[j + 1].d.fx) <==> run.Dispatches(j, TimerExpired) && Succeeds(run, j)
  {
    hide Dispatch, WantsSuspend, LockProven;
    assert run.Steps(j);
    var d, a := run.states[j].d.(fx := []), run.actions[j];
    WantsWithoutTrace(run.states[j].d);
    if a.Handle? {
      if run.states[j].queue[0] == TimerExpired {
        ExpirySuspends(d, a.e);
      } else {
        OthersNeverSuspend(d, run.states[j].queue[0], a.e);
      }
    }
  }

  lemma WantsWithoutTrace(d: Daemon)
    ensures WantsSuspend(d.(fx := [])) == WantsSuspend(d)
  {
  }

  /** Step `j` finds the suspend still wanted and the lock proven. */
  ghost predicate Succeeds(run: Run, j: nat)
    requires run.Valid() && j < |run.actions|
  {
    run.actions[j].Handle? && WantsSuspend(run.states[j].d)
    && LockProven(run.states[j].d.inputs.locked, run.actions[j].e)
  }

  /** Step `j` dispatches an expiry that was already queued at step `i`. */
  ghost predicate WasQueued(run: Run, i: nat, j: nat)
    requires run.Valid() && i <= j < |run.states|
  {
    var h := Handled(run, i, j);
    h < |run.states[i].queue| && run.states[i].queue[h] == TimerExpired
  }

  /** Before its deadline, a countdown calls suspend exactly by dispatching an expiry that was in the queue
      when it opened, with the suspend still wanted and the lock proven. */
  lemma GraceIsCutShortExactlyWhen(run: Run, i: nat, j: nat, deadline: nat)
    requires run.Valid() && i <= j < |run.actions| && Counting(run, i, j)
    requires run.states[i].d.m.graceTimer == Some(Sleeping(deadline)) && run.states[j].now < deadline
    requires forall k | i <= k < j :: !Rejects(run, k)
    ensures SuspendIn(run.states[j + 1].d.fx) <==> WasQueued(run, i, j) && Succeeds(run, j)
  {
    hide Next, Enabled, Dispatch, Boot, Counting, Succeeds;
    assert run.states[j].d.m.state == Countdown by { CountsAt(run, i, j, j); }
    StepSuspendsExactlyWhen(run, j);
    NothingSentEarly(run, i, j, deadline);
    QueueFollows(run, i, j);
    assert run.Steps(j);
    HeadWasQueued(run, i, j);
    assert Succeeds(run, j) ==> run.actions[j].Handle? by { SucceedsHandles(run, j); }
  }

  lemma SucceedsHandles(run: Run, j: nat)
    requires run.Valid() && j < |run.actions|
    ensures Succeeds(run, j) ==> run.actions[j].Handle? && run.states[j].queue != []
  {
    hide Next, WantsSuspend, LockProven;
    assert run.Steps(j);
  }

  lemma CountsAt(run: Run, i: nat, j: nat, k: nat)
    requires run.Valid() && i <= k <= j < |run.states| && Counting(run, i, j)
    ensures run.states[k].d.m.state == Countdown
  {
  }

  lemma HeadWasQueued(run: Run, i: nat, j: nat)
    requires run.Valid() && i <= j < |run.states|
    requires Left(run, i, j) <= run.states[j].queue
    requires TimerExpired !in run.states[j].queue[|Left(run, i, j)|..]
    ensures run.states[j].queue != [] ==> (run.states[j].queue[0] == TimerExpired <==> WasQueued(run, i, j))
    ensures WasQueued(run, i, j) ==> run.states[j].queue != []
  {
    hide Next, Enabled, Boot;
    var left, q := Left(run, i, j), run.states[j].queue;
    if left == [] && q != [] {
      assert q[|left|..][0] == q[0];
    }
  }

  /** With rejected attempts in between too: any expiry dispatched before the first deadline either was in
      the queue when the countdown opened, or follows the rejection of one that was. */
  lemma {:induction false} EarlyExpiryWasQueued(run: Run, i: nat, j: nat, deadline: nat) returns (k: nat)
    requires run.Valid() && i <= j < |run.actions| && Counting(run, i, j)
    requires run.states[i].d.m.graceTimer == Some(Sleeping(deadline)) && run.states[j].now < deadline
    requires run.Dispatches(j, TimerExpired)
    ensures i <= k <= j && run.Dispatches(k, TimerExpired) && WasQueued(run, i, k)
    ensures k == j || Rejects(run, k)
    decreases j
  {
    hide Next, Enabled, Dispatch, Boot, WantsSuspend, LockProven;
    if m: nat :| i <= m < j && Rejects(run, m) {
      ClockNeverTurnsBack(run, m, j);
      k := EarlyExpiryWasQueued(run, i, m, deadline);
    } else {
      k := j;
      NothingSentEarly(run, i, j, deadline);
      QueueFollows(run, i, j);
      HeadWasQueued(run, i, j);
    }
  }
}
