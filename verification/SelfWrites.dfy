/** Self-write detection for platform_profile: entries of in-flight applies, kept beside a suppression
    window. Times are milliseconds. */
module SelfWrites {
  import opened Prelude
  import opened Power

  const ADOPT_SUPPRESS: int := 5000

  function Chain(p: Profile): seq<string> {
    match p
    case PowerSaver => ["low-power", "quiet"]
    case Balanced => ["balanced"]
    case Performance => ["performance"]
  }

  datatype Entry = Entry(expiry: int, values: seq<string>)

  function Retain(entries: seq<Entry>, now: int): (r: seq<Entry>)
    ensures forall e :: e in r <==> e in entries && e.expiry > now
  {
    if entries == [] then []
    else
      var head := entries[0];
      assert entries == [head] + entries[1..];
      (if head.expiry > now then [head] else []) + Retain(entries[1..], now)
  }

  /** The first entry whose chain holds `value`. */
  function Position(entries: seq<Entry>, value: string): (r: Option<nat>)
    ensures r.Some? ==> r.value < |entries| && value in entries[r.value].values
    ensures r.Some? ==> forall k | 0 <= k < r.value :: value !in entries[k].values
    ensures r.None? ==> forall k | 0 <= k < |entries| :: value !in entries[k].values
  {
    if entries == [] then None
    else if value in entries[0].values then Some(0)
    else
      match Position(entries[1..], value)
      case None => None
      case Some(k) => Some(k + 1)
  }

  datatype Tracker = Tracker(entries: seq<Entry>, lastApply: Option<int>) {
    function Register(now: int, p: Profile): Tracker {
      Tracker(entries + [Entry(now + ADOPT_SUPPRESS, Chain(p))], Some(now))
    }

    /** The matched entry is consumed; without one, only the window speaks. */
    function IsSelfWrite(now: int, value: Option<string>): (Tracker, bool) {
      var live := Retain(entries, now);
      var pos := if value.Some? then Position(live, value.value) else None;
      if pos.Some? then (Tracker(live[..pos.value] + live[pos.value + 1..], lastApply), true)
      else (Tracker(live, lastApply), lastApply.Some? && now - lastApply.value < ADOPT_SUPPRESS)
    }
  }

  /** The bookkeeping as it runs, updated in place. */
  class SelfWriteTracker {
    var entries: seq<Entry>
    var lastApply: Option<int>

    ghost function View(): Tracker
      reads this
    {
      Tracker(entries, lastApply)
    }

    constructor ()
      ensures View() == Tracker([], None)
    {
      entries, lastApply := [], None;
    }

    method Register(now: int, p: Profile)
      modifies this
      ensures View() == old(View()).Register(now, p)
    {
      entries := entries + [Entry(now + ADOPT_SUPPRESS, Chain(p))];
      lastApply := Some(now);
    }

    method IsSelfWrite(now: int, value: Option<string>) returns (own: bool)
      modifies this`entries
      ensures (View(), own) == old(View()).IsSelfWrite(now, value)
    {
      entries := Retain(entries, now);
      if value.Some? {
        var pos := Position(entries, value.value);
        if pos.Some? {
          entries := entries[..pos.value] + entries[pos.value + 1..];
          return true;
        }
      }
      return lastApply.Some? && now - lastApply.value < ADOPT_SUPPRESS;
    }
  }

  // ---- refinement of one timestamp ----

  datatype Op = Register(now: int, profile: Profile) | Query(now: int, value: Option<string>)

  function After(ops: seq<Op>): Tracker {
    if ops == [] then Tracker([], None)
    else
      var t := After(ops[..|ops| - 1]);
      match ops[|ops| - 1]
      case Register(now, p) => t.Register(now, p)
      case Query(now, value) => t.IsSelfWrite(now, value).0
  }

  function LastRegistration(ops: seq<Op>): Option<int> {
    if ops == [] then None
    else
      match ops[|ops| - 1]
      case Register(now, _) => Some(now)
      case Query(_, _) => LastRegistration(ops[..|ops| - 1])
  }

  ghost predicate ClockForward(ops: seq<Op>) {
    forall i, j | 0 <= i <= j < |ops| :: ops[i].now <= ops[j].now
  }

  lemma {:induction false} EntriesFollowTheLastApply(ops: seq<Op>)
    requires ClockForward(ops)
    ensures After(ops).lastApply == LastRegistration(ops)
    ensures LastRegistration(ops).Some? ==> ops != [] && LastRegistration(ops).value <= ops[|ops| - 1].now
    ensures forall e | e in After(ops).entries ::
              LastRegistration(ops).Some? && e.expiry <= LastRegistration(ops).value + ADOPT_SUPPRESS
  {
    if ops != [] {
      var n := |ops| - 1;
      EntriesFollowTheLastApply(ops[..n]);
      if n > 0 {
        assert ops[..n][n - 1].now <= ops[n].now;
      }
    }
  }

  /** Whatever was registered, matched, consumed or pruned, and whatever value is asked about, the
      tracker answers as one timestamp would: own exactly within five seconds of the last apply. */
  lemma TrackerIsOneTimestamp(ops: seq<Op>, now: int, value: Option<string>)
    requires ClockForward(ops + [Query(now, value)])
    ensures After(ops).IsSelfWrite(now, value).1 <==>
      LastRegistration(ops).Some? && now - LastRegistration(ops).value < 5000
  {
    assert forall i | 0 <= i < |ops| :: (ops + [Query(now, value)])[i] == ops[i];
    EntriesFollowTheLastApply(ops);
    var live := Retain(After(ops).entries, now);
    if value.Some? && Position(live, value.value).Some? {
      assert live[Position(live, value.value).value] in live;
    }
  }

  /** A query prunes what has expired and consumes at most one entry: the oldest live one that holds the value. */
  lemma ConsumesTheOldestMatch(t: Tracker, now: int, value: Option<string>) returns (live: seq<Entry>, k: nat)
    ensures forall e :: e in live <==> e in t.entries && e.expiry > now
    ensures k <= |live| && forall j | 0 <= j < k :: value.None? || value.value !in live[j].values
    ensures k < |live| ==> value.Some? && value.value in live[k].values
    ensures t.IsSelfWrite(now, value).0 == Tracker(live[..k] + if k < |live| then live[k + 1..] else [], t.lastApply)
  {
    live := Retain(t.entries, now);
    hide Retain, Position;
    k := if value.None? then |live| else Position(live, value.value).GetOr(|live|);
    if k == |live| {
      assert live[..k] + [] == live;
    }
  }

  /** Inside its window a registered apply is consumed by the value the firmware shows for its profile, or by
      the fallback of that value, and by no other. */
  lemma ConsumedByItsOwnWords(now: int, later: int, p: Profile, value: Option<string>)
    requires now <= later < now + 5000
    ensures var (t, own) := Tracker([], None).Register(now, p).IsSelfWrite(later, value);
      && own
      && (t.entries == [] <==>
            match p
            case PowerSaver => value == Some("low-power") || value == Some("quiet")
            case Balanced => value == Some("balanced")
            case Performance => value == Some("performance"))
  {
    var entry := Entry(now + ADOPT_SUPPRESS, Chain(p));
    assert [] + [entry] == [entry] && [entry][1..] == [];
    assert Retain([entry], later) == [entry];
    assert value.Some? ==> (Position([entry], value.value).Some? <==> value.value in Chain(p));
  }
}
