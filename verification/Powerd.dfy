/** powerd's coalescing ApplyProfile: any number of callers share one latest-request slot and one lock.
    The executor is single-threaded, so code between two awaits is one step. The lock is fair: a call that
    finds it free takes it without suspending, and it is handed on in the order in which calls asked. */
module Powerd {
  import opened Prelude
  import opened Power

  datatype Answer = Applied | SupersededBy(winner: Profile)

  /** A call waits for the lock, is handed it, may have applied, and is answered. */
  datatype Phase = Waiting | Granted | Signalling | Answered(answer: Answer)

  datatype Call = Call(profile: Profile, phase: Phase) {
    predicate HoldsLock() {
      phase.Granted? || phase.Signalling?
    }
  }

  /** Calls are numbered in the order they wrote the latest-request slot, which is the order in which they
      asked for the lock. */
  datatype Bus = Bus(
    latest: Option<Profile>,
    calls: seq<Call>,
    active: Profile,
    persisted: Profile,
    hardware: Profile)
  {
    predicate LockFree() {
      forall i | 0 <= i < |calls| :: !calls[i].HoldsLock()
    }

    predicate Quiet() {
      forall i | 0 <= i < |calls| :: calls[i].phase.Answered?
    }
  }

  datatype Step =
    | Publish(profile: Profile)
    | CheckAndApply(id: nat)
    | Release(id: nat)
    | ResumeReapply
    | FirmwareResets(found: Profile)

  predicate Enabled(b: Bus, s: Step) {
    match s
    case Publish(_) => true
    case CheckAndApply(id) => id < |b.calls| && b.calls[id].phase.Granted?
    case Release(id) => id < |b.calls| && b.calls[id].phase.Signalling?
    case ResumeReapply => true
    case FirmwareResets(_) => true
  }

  /** The lock goes to the call that has waited longest. */
  function HandOn(calls: seq<Call>): (r: seq<Call>)
    ensures |r| == |calls|
    ensures forall i | 0 <= i < |calls| :: r[i].profile == calls[i].profile
    ensures forall i | 0 <= i < |calls| :: r[i] == calls[i] || (calls[i].phase.Waiting? && r[i].phase.Granted?)
  {
    if calls == [] then []
    else if calls[0].phase.Waiting? then [calls[0].(phase := Granted)] + calls[1..]
    else [calls[0]] + HandOn(calls[1..])
  }

  /** A call that finds the lock free writes the slot, checks it and applies without suspending; one that
      does not, writes the slot and waits. */
  function Next(b: Bus, s: Step): Bus
    requires Enabled(b, s)
  {
    match s
    case Publish(p) =>
      if b.LockFree() then Bus(Some(p), b.calls + [Call(p, Signalling)], p, p, p)
      else b.(latest := Some(p), calls := b.calls + [Call(p, Waiting)])
    case CheckAndApply(id) =>
      var p := b.calls[id].profile;
      if b.latest != Some(p) then
        b.(calls := HandOn(b.calls[id := Call(p, Answered(SupersededBy(b.latest.GetOr(p))))]))
      else
        Bus(b.latest, b.calls[id := Call(p, Signalling)], p, p, p)
    case Release(id) => b.(calls := HandOn(b.calls[id := b.calls[id].(phase := Answered(Applied))]))
    case ResumeReapply => b.(hardware := b.active)
    case FirmwareResets(found) => b.(hardware := found)
  }

  /** After the startup apply: the persisted profile is active and on the hardware, nobody has called. */
  function Start(persisted: Profile): Bus {
    Bus(None, [], persisted, persisted, persisted)
  }

  ghost predicate Reaches(b: Bus, steps: seq<Step>, c: Bus)
    decreases |steps|
  {
    if steps == [] then c == b
    else Enabled(b, steps[0]) && Reaches(Next(b, steps[0]), steps[1..], c)
  }

  /** A call that still has its check before it. */
  predicate Undecided(c: Call) {
    c.phase.Waiting? || c.phase.Granted?
  }

  /** First come, first served: behind an unanswered call everyone waits, and nobody waits in front. */
  ghost predicate InTurn(calls: seq<Call>) {
    && (forall i, j | 0 <= i < j < |calls| && !calls[i].phase.Answered? :: calls[j].phase.Waiting?)
    && (forall i | 0 <= i < |calls| && calls[i].phase.Waiting? :: i > 0 && !calls[i - 1].phase.Answered?)
  }

  ghost predicate WasSuperseded(calls: seq<Call>, i: nat)
    requires i < |calls|
  {
    calls[i].phase.Answered? && calls[i].phase.answer.SupersededBy?
  }

  ghost predicate LaterWinner(calls: seq<Call>, i: nat)
    requires i < |calls| && WasSuperseded(calls, i)
  {
    exists j :: i < j < |calls| && calls[j].profile == calls[i].phase.answer.winner != calls[i].profile
  }

  ghost predicate Inv(b: Bus) {
    && b.active == b.persisted
    && b.latest == (if b.calls == [] then None else Some(b.calls[|b.calls| - 1].profile))
    && InTurn(b.calls)
    && (b.calls != [] ==> Undecided(b.calls[|b.calls| - 1]) || b.active == b.latest.value)
    && forall i: nat | i < |b.calls| && WasSuperseded(b.calls, i) :: LaterWinner(b.calls, i)
  }

  // ---- every step ----

  lemma {:induction false} NobodyWaits(b: Bus, i: nat)
    requires InTurn(b.calls) && b.LockFree() && i < |b.calls|
    ensures b.calls[i].phase.Answered?
  {
    if b.calls[i].phase.Waiting? {
      NobodyWaits(b, i - 1);
    }
  }

  /** When the answered calls end at `id` and the rest wait, the next in line gets the lock. */
  lemma {:induction false} HandsToTheNext(calls: seq<Call>, id: nat)
    requires id < |calls| && forall i | 0 <= i <= id :: calls[i].phase.Answered?
    requires forall i | id < i < |calls| :: calls[i].phase.Waiting?
    ensures HandOn(calls) == if id + 1 < |calls| then calls[id + 1 := calls[id + 1].(phase := Granted)] else calls
    decreases id
  {
    var rest := calls[1..];
    if id > 0 {
      HandsToTheNext(rest, id - 1);
      assert calls == [calls[0]] + rest;
    } else if |calls| > 1 {
      assert HandOn(rest) == [rest[0].(phase := Granted)] + rest[1..];
    }
  }

  /** The holder answers: everyone before it was answered, and the next in line holds the lock. */
  lemma AnswerKeepsTurns(calls: seq<Call>, id: nat, answer: Answer)
    requires InTurn(calls) && id < |calls| && calls[id].HoldsLock()
    ensures InTurn(HandOn(calls[id := calls[id].(phase := Answered(answer))]))
    ensures HandOn(calls[id := calls[id].(phase := Answered(answer))])[id].phase == Answered(answer)
  {
    var more := calls[id := calls[id].(phase := Answered(answer))];
    HandsToTheNext(more, id);
  }

  lemma HandOnKeepsWinners(calls: seq<Call>, more: seq<Call>)
    requires |more| == |calls| && forall i | 0 <= i < |calls| :: more[i].profile == calls[i].profile
    requires forall i: nat | i < |calls| && WasSuperseded(calls, i) :: LaterWinner(calls, i)
    requires forall i: nat | i < |calls| && WasSuperseded(more, i) ::
               more[i] == calls[i] || (more[i].phase.answer.winner == calls[|calls| - 1].profile != calls[i].profile)
    ensures forall i: nat | i < |more| && WasSuperseded(more, i) :: LaterWinner(more, i)
  {
    forall i: nat | i < |more| && WasSuperseded(more, i) ensures LaterWinner(more, i) {
      if more[i] == calls[i] {
        assert WasSuperseded(calls, i);
        var j :| i < j < |calls| && calls[j].profile == calls[i].phase.answer.winner != calls[i].profile;
        assert more[j].profile == more[i].phase.answer.winner;
      } else {
        var j := |calls| - 1;
        assert i < j && more[j].profile == more[i].phase.answer.winner;
      }
    }
  }

  lemma PublishKeepsInv(b: Bus, p: Profile)
    requires Inv(b)
    ensures Inv(Next(b, Publish(p)))
  {
    var c := Next(b, Publish(p));
    var n := |b.calls|;
    if b.LockFree() {
      forall i: nat | i < n ensures b.calls[i].phase.Answered? { NobodyWaits(b, i); }
    } else {
      assert n > 0 && !b.calls[n - 1].phase.Answered?;
    }
    forall i: nat | i < |c.calls| && WasSuperseded(c.calls, i) ensures LaterWinner(c.calls, i) {
      assert WasSuperseded(b.calls, i);
      var j :| i < j < n && b.calls[j].profile == b.calls[i].phase.answer.winner != b.calls[i].profile;
      assert c.calls[j] == b.calls[j];
    }
  }

  lemma StepKeepsInv(b: Bus, s: Step)
    requires Enabled(b, s) && Inv(b)
    ensures Inv(Next(b, s))
  {
    match s
    case Publish(p) => PublishKeepsInv(b, p);
    case CheckAndApply(id) =>
      var answer := SupersededBy(b.latest.GetOr(b.calls[id].profile));
      if b.latest != Some(b.calls[id].profile) {
        AnswerKeepsTurns(b.calls, id, answer);
        AnswerKeepsInv(b, id, answer);
      } else {
        HandOnKeepsWinners(b.calls, Next(b, s).calls);
      }
    case Release(id) =>
      AnswerKeepsTurns(b.calls, id, Applied);
      AnswerKeepsInv(b, id, Applied);
    case ResumeReapply =>
    case FirmwareResets(_) =>
  }

  lemma AnswerKeepsInv(b: Bus, id: nat, answer: Answer)
    requires Inv(b) && id < |b.calls| && b.calls[id].HoldsLock()
    requires InTurn(HandOn(b.calls[id := b.calls[id].(phase := Answered(answer))]))
    requires if answer.SupersededBy? then b.latest == Some(answer.winner) && answer.winner != b.calls[id].profile
             else b.calls[id].phase.Signalling?
    ensures Inv(b.(calls := HandOn(b.calls[id := b.calls[id].(phase := Answered(answer))])))
  {
    hide InTurn, HandOn, LaterWinner;
    HandOnKeepsWinners(b.calls, HandOn(b.calls[id := b.calls[id].(phase := Answered(answer))]));
  }

  lemma {:induction false} RunKeepsInv(b: Bus, steps: seq<Step>, c: Bus)
    requires Inv(b) && Reaches(b, steps, c)
    ensures Inv(c)
    decreases |steps|
  {
    hide Next, Enabled, Inv;
    if steps != [] {
      StepKeepsInv(b, steps[0]);
      RunKeepsInv(Next(b, steps[0]), steps[1..], c);
    }
  }

  lemma StartHasInv(persisted: Profile)
    ensures Inv(Start(persisted))
  {
  }

  // ---- every run ----

  /** The step writes the hardware. */
  predicate WritesHardware(b: Bus, s: Step)
    requires Enabled(b, s)
  {
    match s
    case Publish(_) => b.LockFree()
    case CheckAndApply(id) => b.latest == Some(b.calls[id].profile)
    case ResumeReapply => true
    case _ => false
  }

  /** The hardware has been written since the firmware last reset it. */
  ghost predicate Mended(b: Bus, steps: seq<Step>, mended: bool)
    decreases |steps|
  {
    if steps == [] || !Enabled(b, steps[0]) then mended
    else
      Mended(Next(b, steps[0]), steps[1..],
             !steps[0].FirmwareResets? && (mended || WritesHardware(b, steps[0])))
  }

  lemma {:induction false} MendedHardwareIsActive(b: Bus, steps: seq<Step>, mended: bool, c: Bus)
    requires Reaches(b, steps, c) && (mended ==> b.hardware == b.active)
    ensures Mended(b, steps, mended) ==> c.hardware == c.active
    decreases |steps|
  {
    hide HandOn;
    if steps != [] {
      MendedHardwareIsActive(Next(b, steps[0]), steps[1..],
                             !steps[0].FirmwareResets? && (mended || WritesHardware(b, steps[0])), c);
    }
  }

  lemma {:induction false} NoResetNothingToMend(b: Bus, steps: seq<Step>)
    requires forall k | 0 <= k < |steps| :: !steps[k].FirmwareResets?
    ensures Mended(b, steps, true)
    decreases |steps|
  {
    hide Next;
    if steps != [] && Enabled(b, steps[0]) {
      assert forall k | 0 <= k < |steps[1..]| :: steps[1..][k] == steps[k + 1];
      NoResetNothingToMend(Next(b, steps[0]), steps[1..]);
    }
  }

  /** Whatever the interleaving, the active and persisted profiles never differ, and the hardware shows them
      unless the firmware has reset it since it was last written; and once no call is in flight they are the
      profile asked for last. */
  lemma LastRequestWins(persisted: Profile, steps: seq<Step>, b: Bus)
    requires Reaches(Start(persisted), steps, b)
    ensures b.active == b.persisted
    ensures Mended(Start(persisted), steps, true) ==> b.hardware == b.active
    ensures (forall k | 0 <= k < |steps| :: !steps[k].FirmwareResets?) ==> b.hardware == b.active
    ensures b.Quiet() ==> b.active == if b.calls == [] then persisted else b.calls[|b.calls| - 1].profile
  {
    StartHasInv(persisted);
    RunKeepsInv(Start(persisted), steps, b);
    MendedHardwareIsActive(Start(persisted), steps, true, b);
    if forall k | 0 <= k < |steps| :: !steps[k].FirmwareResets? {
      NoResetNothingToMend(Start(persisted), steps);
    }
    if b.calls == [] {
      NobodyCalled(Start(persisted), steps, b);
    }
  }

  /** A resume mends what the firmware reset, with what was last applied, and touches nothing else; without
      it the reset would stand. */
  lemma ResumeMendsTheReset(persisted: Profile, steps: seq<Step>, b: Bus, found: Profile)
    requires Reaches(Start(persisted), steps, b)
    ensures var reset := Next(b, FirmwareResets(found));
      && reset.hardware == found
      && Next(reset, ResumeReapply) == b.(hardware := b.active)
      && (b.Quiet() && b.calls != [] ==> Next(reset, ResumeReapply).hardware == b.calls[|b.calls| - 1].profile)
  {
    LastRequestWins(persisted, steps, b);
  }

  lemma {:induction false} NobodyCalled(a: Bus, steps: seq<Step>, b: Bus)
    requires Reaches(a, steps, b) && b.calls == []
    ensures a.calls == [] && b.active == a.active
    decreases |steps|
  {
    if steps != [] {
      NobodyCalled(Next(a, steps[0]), steps[1..], b);
    }
  }

  /** A caller hears "superseded" only when a later call asked for the profile it is told, and that is
      not its own. */
  lemma SupersededOnlyByALaterCall(persisted: Profile, steps: seq<Step>, b: Bus, i: nat)
    requires Reaches(Start(persisted), steps, b)
    requires i < |b.calls| && b.calls[i].phase.Answered? && b.calls[i].phase.answer.SupersededBy?
    ensures exists j :: i < j < |b.calls| && b.calls[j].profile == b.calls[i].phase.answer.winner != b.calls[i].profile
  {
    StartHasInv(persisted);
    RunKeepsInv(Start(persisted), steps, b);
    assert WasSuperseded(b.calls, i);
  }

  /** The step in which call `id` is applied. */
  predicate Applies(b: Bus, s: Step, id: nat)
    requires Enabled(b, s)
  {
    && id < |Next(b, s).calls| && Next(b, s).calls[id].phase.Signalling?
    && (id < |b.calls| ==> !b.calls[id].phase.Signalling?)
  }

  /** In every reachable state: a call is applied exactly when it arrives at a free lock, or its turn comes
      and it asks for what the latest caller asks for; then that profile is on the hardware. */
  lemma AppliesExactlyWhen(persisted: Profile, steps: seq<Step>, b: Bus, s: Step, id: nat)
    requires Reaches(Start(persisted), steps, b) && Enabled(b, s)
    ensures Applies(b, s, id) <==>
      || (s.Publish? && id == |b.calls| && b.LockFree())
      || (s == CheckAndApply(id) && b.calls[id].profile == b.calls[|b.calls| - 1].profile)
    ensures Applies(b, s, id) ==> Next(b, s).hardware == Next(b, s).calls[id].profile
  {
    StartHasInv(persisted);
    RunKeepsInv(Start(persisted), steps, b);
  }

  /** Only a call that is applied, and a resume, write anything; and only a new call writes the slot. */
  lemma NothingElseWrites(b: Bus, s: Step)
    requires Enabled(b, s)
    ensures
      (|| (s.Publish? && !b.LockFree())
       || (s.CheckAndApply? && b.latest != Some(b.calls[s.id].profile))
       || s.Release?) ==>
      Next(b, s).active == b.active && Next(b, s).persisted == b.persisted && Next(b, s).hardware == b.hardware
    ensures Next(b, s).latest == if s.Publish? then Some(s.profile) else b.latest
  {
  }

  /** A call that finds the lock free finds nobody waiting either, and is the latest and applied at once;
      everyone else gets the lock in the order of asking. */
  lemma FirstComeFirstServed(persisted: Profile, steps: seq<Step>, b: Bus, i: nat, j: nat)
    requires Reaches(Start(persisted), steps, b) && i < j < |b.calls|
    ensures b.LockFree() ==> b.Quiet()
    ensures !b.calls[i].phase.Answered? ==> b.calls[j].phase.Waiting?
  {
    StartHasInv(persisted);
    RunKeepsInv(Start(persisted), steps, b);
    if b.LockFree() {
      forall k: nat | k < |b.calls| ensures b.calls[k].phase.Answered? { NobodyWaits(b, k); }
    }
  }

  // ---- the end of a storm ----

  /** Nobody calls during these steps. */
  ghost predicate NoNewCall(steps: seq<Step>) {
    forall k | 0 <= k < |steps| :: !steps[k].Publish?
  }

  function Verdict(c: Call, last: Profile): Answer {
    if c.profile == last then Applied else SupersededBy(last)
  }

  /** Decided as `last` says, or not yet decided. */
  predicate Judged(c: Call, last: Profile) {
    Undecided(c) || (c.phase.Signalling? && c.profile == last) || c.phase == Answered(Verdict(c, last))
  }

  lemma StepJudges(b: Bus, s: Step, id: nat, last: Profile)
    requires Inv(b) && Enabled(b, s) && !s.Publish? && id < |b.calls| && b.latest == Some(last)
    requires Judged(b.calls[id], last)
    ensures var c := Next(b, s);
      |c.calls| == |b.calls| && c.latest == Some(last) && c.calls[id].profile == b.calls[id].profile
      && Judged(c.calls[id], last)
  {
  }

  lemma {:induction false} StormJudges(b: Bus, steps: seq<Step>, c: Bus, id: nat, last: Profile)
    requires Inv(b) && Reaches(b, steps, c) && NoNewCall(steps)
    requires id < |b.calls| && b.latest == Some(last) && Judged(b.calls[id], last)
    ensures |c.calls| == |b.calls| && c.calls[id].profile == b.calls[id].profile && Judged(c.calls[id], last)
    decreases |steps|
  {
    hide Next, Enabled, Inv, Judged;
    if steps != [] {
      assert !steps[0].Publish?;
      assert forall k | 0 <= k < |steps[1..]| :: steps[1..][k] == steps[k + 1];
      StepKeepsInv(b, steps[0]);
      StepJudges(b, steps[0], id, last);
      StormJudges(Next(b, steps[0]), steps[1..], c, id, last);
    }
  }

  /** What coalescing comes to. Once no new call arrives, every call that was still to be decided is applied
      if and only if it asks for what the latest asks for, and is otherwise told the latest. */
  lemma StormIsDecidedByTheLatest(persisted: Profile, before: seq<Step>, b: Bus, steps: seq<Step>, c: Bus, id: nat)
    requires Reaches(Start(persisted), before, b) && Reaches(b, steps, c) && NoNewCall(steps) && c.Quiet()
    requires id < |b.calls| && Undecided(b.calls[id])
    ensures |c.calls| == |b.calls|
    ensures c.calls[id].phase == Answered(Verdict(b.calls[id], b.calls[|b.calls| - 1].profile))
  {
    StartHasInv(persisted);
    RunKeepsInv(Start(persisted), before, b);
    StormJudges(b, steps, c, id, b.calls[|b.calls| - 1].profile);
  }

  /** So of the calls behind the one in hand only the latest is applied exactly when no call in between
      wants what the latest wants. */
  lemma OnlyTheLatestFollowsExactlyWhen(persisted: Profile, before: seq<Step>, b: Bus, steps: seq<Step>, c: Bus, h: nat)
    requires Reaches(Start(persisted), before, b) && Reaches(b, steps, c) && NoNewCall(steps) && c.Quiet()
    requires h < |b.calls| && b.calls[h].HoldsLock()
    ensures |c.calls| == |b.calls|
    ensures (forall i | h < i < |b.calls| - 1 :: c.calls[i].phase != Answered(Applied)) <==>
            (forall i | h < i < |b.calls| - 1 :: b.calls[i].profile != b.calls[|b.calls| - 1].profile)
  {
    hide Reaches, Next, Inv;
    var last := b.calls[|b.calls| - 1].profile;
    SameSize(b, steps, c);
    forall i: nat | h < i < |b.calls| ensures c.calls[i].phase == Answered(Verdict(b.calls[i], last)) {
      FirstComeFirstServed(persisted, before, b, h, i);
      StormIsDecidedByTheLatest(persisted, before, b, steps, c, i);
    }
  }

  lemma {:induction false} SameSize(b: Bus, steps: seq<Step>, c: Bus)
    requires Reaches(b, steps, c) && NoNewCall(steps)
    ensures |c.calls| == |b.calls|
    decreases |steps|
  {
    if steps != [] {
      assert !steps[0].Publish?;
      assert forall k | 0 <= k < |steps[1..]| :: steps[1..][k] == steps[k + 1];
      SameSize(Next(b, steps[0]), steps[1..], c);
    }
  }

  lemma {:induction false} OneMore(a: Bus, steps: seq<Step>, b: Bus, s: Step, c: Bus)
    requires Reaches(a, steps, b) && Enabled(b, s) && Next(b, s) == c
    ensures Reaches(a, steps + [s], c)
    decreases |steps|
  {
    hide Next, Enabled;
    var all := steps + [s];
    if steps == [] {
      assert all[0] == s && all[1..] == [];
    } else {
      assert all[0] == steps[0] && all[1..] == steps[1..] + [s];
      OneMore(Next(a, steps[0]), steps[1..], b, s, c);
    }
  }

  lemma StartReaches(saved: Profile)
    ensures Reaches(Start(saved), [], Start(saved))
  {
  }

  lemma Grows(saved: Profile, steps: seq<Step>, b: Bus, s: Step, c: Bus) returns (more: seq<Step>)
    requires Reaches(Start(saved), steps, b) && Enabled(b, s) && Next(b, s) == c
    ensures Reaches(Start(saved), more, c)
  {
    more := steps + [s];
    OneMore(Start(saved), steps, b, s, c);
  }

  /** Three callers, of whom the last two want the same. */
  function Three(first: Profile, later: Profile, p0: Phase, p1: Phase, p2: Phase, now: Profile): Bus {
    Bus(Some(later), [Call(first, p0), Call(later, p1), Call(later, p2)], now, now, now)
  }

  lemma Arrives(b: Bus, p: Profile)
    ensures Next(b, Publish(p)) ==
      if b.LockFree() then Bus(Some(p), b.calls + [Call(p, Signalling)], p, p, p)
      else b.(latest := Some(p), calls := b.calls + [Call(p, Waiting)])
  {
  }

  /** The first is being applied, and the other two wait. */
  lemma ThreeArrive(saved: Profile, first: Profile, later: Profile) returns (steps: seq<Step>)
    ensures Reaches(Start(saved), steps, Three(first, later, Signalling, Waiting, Waiting, first))
  {
    hide Reaches, Next;
    var b1 := Bus(Some(first), [Call(first, Signalling)], first, first, first);
    var b2 := Bus(Some(later), [Call(first, Signalling), Call(later, Waiting)], first, first, first);
    StartReaches(saved);
    Arrives(Start(saved), first);
    assert Start(saved).LockFree() && [] + [Call(first, Signalling)] == b1.calls;
    steps := Grows(saved, [], Start(saved), Publish(first), b1);
    Arrives(b1, later);
    assert b1.calls[0].HoldsLock() && b1.calls + [Call(later, Waiting)] == b2.calls;
    steps := Grows(saved, steps, b1, Publish(later), b2);
    Arrives(b2, later);
    var b3 := Three(first, later, Signalling, Waiting, Waiting, first);
    assert b2.calls[0].HoldsLock() && b2.calls + [Call(later, Waiting)] == b3.calls;
    steps := Grows(saved, steps, b2, Publish(later), b3);
  }

  /** It is not so that only the first and the latest apply: three callers, the last two arriving while the
      first is applied and wanting the same, are all applied. */
  lemma TheMiddleCallApplies(saved: Profile, first: Profile, later: Profile) returns (steps: seq<Step>)
    ensures Reaches(Start(saved), steps,
                    Three(first, later, Answered(Applied), Answered(Applied), Answered(Applied), later))
  {
    hide Reaches, HandOn;
    var done := Answered(Applied);
    steps := ThreeArrive(saved, first, later);
    steps := Passes(saved, steps, Three(first, later, Signalling, Waiting, Waiting, first), 0,
                    Three(first, later, done, Granted, Waiting, first));
    steps := Serves(saved, steps, Three(first, later, done, Granted, Waiting, first), 1,
                    Three(first, later, done, Signalling, Waiting, later));
    steps := Passes(saved, steps, Three(first, later, done, Signalling, Waiting, later), 1,
                    Three(first, later, done, done, Granted, later));
    steps := Serves(saved, steps, Three(first, later, done, done, Granted, later), 2,
                    Three(first, later, done, done, Signalling, later));
    steps := Passes(saved, steps, Three(first, later, done, done, Signalling, later), 2,
                    Three(first, later, done, done, done, later));
  }

  /** The holder asks for what the latest asks for, and is applied. */
  lemma Serves(saved: Profile, steps: seq<Step>, b: Bus, id: nat, c: Bus) returns (more: seq<Step>)
    requires Reaches(Start(saved), steps, b) && id < |b.calls| && b.calls[id].phase.Granted?
    requires var p := b.calls[id].profile;
      b.latest == Some(p) && c == Bus(b.latest, b.calls[id := Call(p, Signalling)], p, p, p)
    ensures Reaches(Start(saved), more, c)
  {
    hide Reaches, HandOn;
    more := Grows(saved, steps, b, CheckAndApply(id), c);
  }

  /** The holder is answered and the next in line gets the lock. */
  lemma Passes(saved: Profile, steps: seq<Step>, b: Bus, id: nat, c: Bus) returns (more: seq<Step>)
    requires Reaches(Start(saved), steps, b) && id < |b.calls| && b.calls[id].phase == Signalling
    requires forall i | 0 <= i < id :: b.calls[i].phase.Answered?
    requires forall i | id < i < |b.calls| :: b.calls[i].phase.Waiting?
    requires var answered := b.calls[id := b.calls[id].(phase := Answered(Applied))];
      c == b.(calls := if id + 1 == |answered| then answered
                       else answered[id + 1 := answered[id + 1].(phase := Granted)])
    ensures Reaches(Start(saved), more, c)
  {
    hide Reaches, HandOn;
    HandsToTheNext(b.calls[id := b.calls[id].(phase := Answered(Applied))], id);
    more := Grows(saved, steps, b, Release(id), c);
  }

  // ---- progress ----

  function Rank(p: Phase): nat {
    match p
    case Waiting => 3
    case Granted => 2
    case Signalling => 1
    case Answered(_) => 0
  }

  function Remaining(calls: seq<Call>): (n: nat)
    ensures n == 0 <==> forall i | 0 <= i < |calls| :: calls[i].phase.Answered?
  {
    if calls == [] then 0 else Rank(calls[0].phase) + Remaining(calls[1..])
  }

  lemma {:induction false} UpdateRemaining(calls: seq<Call>, id: nat, c: Call)
    requires id < |calls|
    ensures Remaining(calls[id := c]) == Remaining(calls) - Rank(calls[id].phase) + Rank(c.phase)
  {
    if id == 0 {
      assert calls[0 := c][1..] == calls[1..];
    } else {
      assert calls[id := c][1..] == calls[1..][id - 1 := c];
      UpdateRemaining(calls[1..], id - 1, c);
    }
  }

  lemma {:induction false} HandOnRemaining(calls: seq<Call>)
    ensures Remaining(HandOn(calls)) <= Remaining(calls)
  {
    if calls != [] {
      if calls[0].phase.Waiting? {
        assert HandOn(calls)[1..] == calls[1..];
      } else {
        HandOnRemaining(calls[1..]);
        assert HandOn(calls)[1..] == HandOn(calls[1..]);
      }
    }
  }

  /** The steps that bring a call further. */
  predicate Decides(s: Step) {
    s.CheckAndApply? || s.Release?
  }

  /** While a call is in flight powerd itself can always take a step, and each such step brings every
      call nearer its answer: no caller waits for ever once the storm is over. */
  lemma StormSettles(persisted: Profile, steps: seq<Step>, b: Bus)
    requires Reaches(Start(persisted), steps, b) && !b.Quiet()
    ensures exists s :: Enabled(b, s) && Decides(s)
    ensures forall s | Enabled(b, s) && Decides(s) ::
              Remaining(Next(b, s).calls) < Remaining(b.calls)
  {
    hide Remaining, HandOn, Reaches;
    StartHasInv(persisted);
    RunKeepsInv(Start(persisted), steps, b);
    if b.LockFree() {
      forall k: nat | k < |b.calls| ensures b.calls[k].phase.Answered? { NobodyWaits(b, k); }
      assert false;
    }
    var i :| 0 <= i < |b.calls| && b.calls[i].HoldsLock();
    assert Enabled(b, if b.calls[i].phase.Granted? then CheckAndApply(i) else Release(i));
    forall s | Enabled(b, s) && Decides(s)
      ensures Remaining(Next(b, s).calls) < Remaining(b.calls)
    {
      StepLowers(b, s);
    }
  }

  lemma StepLowers(b: Bus, s: Step)
    requires Enabled(b, s) && Decides(s)
    ensures Remaining(Next(b, s).calls) < Remaining(b.calls)
  {
    hide Remaining, HandOn;
    var call := b.calls[s.id];
    var superseded := Call(call.profile, Answered(SupersededBy(b.latest.GetOr(call.profile))));
    var answered := call.(phase := Answered(Applied));
    UpdateRemaining(b.calls, s.id, superseded);
    UpdateRemaining(b.calls, s.id, answered);
    UpdateRemaining(b.calls, s.id, Call(call.profile, Signalling));
    HandOnRemaining(b.calls[s.id := superseded]);
    HandOnRemaining(b.calls[s.id := answered]);
  }

  // ---- the object ----

  /** The shared slots, updated in place by the body of each call between its awaits. */
  class Power1 {
    var active: Profile
    var latest: Option<Profile>
    var persisted: Profile
    var hardware: Profile

    ghost predicate Shows(b: Bus)
      reads this
    {
      latest == b.latest && active == b.active && persisted == b.persisted && hardware == b.hardware
    }

    constructor (saved: Profile)
      ensures Shows(Start(saved))
    {
      active, latest, persisted := saved, None, saved;
      hardware := saved;
    }

    /** Under the lock, up to the first signal: the check, then hardware, active and disk together. */
    method UnderLock(p: Profile) returns (superseded: Option<Profile>)
      modifies this`active, this`persisted, this`hardware
      ensures superseded == if latest == Some(p) then None else latest
      ensures latest == Some(p) ==> active == persisted == hardware == p
      ensures latest != Some(p) ==> active == old(active) && persisted == old(persisted) && hardware == old(hardware)
    {
      if latest != Some(p) {
        return latest;
      }
      hardware := p;
      active := p;
      persisted := p;
      return None;
    }

    /** A call up to its first suspension: `free` is what the lock says. */
    method Arrive(p: Profile, free: bool, ghost b: Bus)
      requires Shows(b) && free == b.LockFree()
      modifies this
      ensures Shows(Next(b, Publish(p)))
    {
      latest := Some(p);
      if free {
        var _ := UnderLock(p);
      }
    }

    /** A call that was handed the lock after waiting. */
    method Resume(p: Profile, ghost b: Bus, ghost id: nat) returns (superseded: Option<Profile>)
      requires Shows(b) && Inv(b) && Enabled(b, CheckAndApply(id)) && b.calls[id].profile == p
      modifies this
      ensures Shows(Next(b, CheckAndApply(id)))
      ensures Next(b, CheckAndApply(id)).calls[id].phase ==
              if superseded.Some? then Answered(SupersededBy(superseded.value)) else Signalling
    {
      superseded := UnderLock(p);
    }

    method Reapply(ghost b: Bus)
      requires Shows(b)
      modifies this`hardware
      ensures Shows(Next(b, ResumeReapply))
    {
      hardware := active;
    }
  }
}
