/**
 * The sidebar's countdown timers: a list of timers, the id of the one running, and the
 * one-second interval that counts it down. `Date.now()` is a parameter (`now`, in
 * milliseconds) and so is the random id `addTimer` draws. A live interval is represented
 * by the end time it counts towards (`intervals`, keyed by timer id) and one firing of it
 * is the `Tick` step. The `notify-send` and `paplay` command lines are logged in `commands`.
 */
module Timers {
  import opened Wrappers
  import opened JsStrings
  import opened Seqs

  /** Durations and remaining times are whole seconds. */
  datatype Timer = Timer(id: string, name: string, duration: int, remaining: int, running: bool, notified: bool)

  datatype TimerState = TimerState(
    timers: seq<Timer>,
    activeId: Option<string>,
    intervals: map<string, int>,  // timer id -> end of its live interval (ms)
    commands: seq<seq<string>>)

  const SoundFile := "/usr/share/sounds/freedesktop/stereo/complete.oga"

  function NotifyCommand(name: string): seq<string> {
    ["notify-send", "-u", "critical", "-a", "Timer", "Timer Complete: " + name, "Your timer has finished!"]
  }

  /** `timers.findIndex((t) => t.id === id)`; `find` returns the timer at this position. */
  function FindTimer(ts: seq<Timer>, id: string): (i: int)
    ensures -1 <= i < |ts|
    ensures 0 <= i ==> ts[i].id == id && forall j :: 0 <= j < i ==> ts[j].id != id
    ensures i == -1 ==> forall j :: 0 <= j < |ts| ==> ts[j].id != id
  {
    if ts == [] then -1
    else if ts[0].id == id then 0
    else
      var j := FindTimer(ts[1..], id);
      if j == -1 then
        assert forall k :: 1 <= k < |ts| ==> ts[k] == ts[1..][k - 1];
        -1
      else j + 1
  }

  predicate UniqueIds(ts: seq<Timer>) {
    forall i, j :: 0 <= i < j < |ts| ==> ts[i].id != ts[j].id
  }

  function RunningIds(ts: seq<Timer>): set<string> {
    set i | 0 <= i < |ts| && ts[i].running :: ts[i].id
  }

  predicate AtMostOneRunning(ts: seq<Timer>) {
    forall i, j :: 0 <= i < |ts| && 0 <= j < |ts| && ts[i].running && ts[j].running ==> i == j
  }

  /**
   * The service's invariant: ids are distinct, exactly the running timers have a live
   * interval, and `activeId` names the one running timer (or is null when none runs), so
   * at most one timer runs (`ValidOneRunning`).
   */
  predicate ValidState(s: TimerState) {
    && UniqueIds(s.timers)
    && s.intervals.Keys == RunningIds(s.timers)
    && match s.activeId
       case None => RunningIds(s.timers) == {}
       case Some(a) => RunningIds(s.timers) == {a}
  }

  // ---------------------------------------------------------------------------
  // The operations, one step each
  // ---------------------------------------------------------------------------

  /**
   * `addTimer(name, durationMinutes)` with the drawn id. `seconds` is the product
   * `durationMinutes * 60` the source stores; the timer widget passes `totalSeconds / 60`,
   * so it is the whole number of seconds entered, sub-minute parts included.
   */
  function AddStep(s: TimerState, id: string, name: string, seconds: int): TimerState {
    s.(timers := s.timers + [Timer(id, name, seconds, seconds, false, false)])
  }

  /** `stopTimer(id)` */
  function StopStep(s: TimerState, id: string): TimerState {
    var i := FindTimer(s.timers, id);
    var s1 := s.(intervals := s.intervals - {id});
    if i < 0 then s1
    else s1.(timers := s.timers[i := s.timers[i].(running := false)],
             activeId := if s.activeId == Some(id) then None else s.activeId)
  }

  /** `removeTimer(id)`: stop it, then keep the timers with another id. */
  function RemoveStep(s: TimerState, id: string): TimerState {
    var s1 := StopStep(s, id);
    s1.(timers := Filter(s1.timers, (t: Timer) => t.id != id))
  }

  /** `resetTimer(id)` */
  function ResetStep(s: TimerState, id: string): TimerState {
    var s1 := StopStep(s, id);
    var i := FindTimer(s1.timers, id);
    if i < 0 then s1
    else s1.(timers := s1.timers[i := s1.timers[i].(remaining := s1.timers[i].duration, notified := false)])
  }

  /** The `forEach` of `startTimer` over its first `k` timers: stop each running timer with another id. */
  function StopOthers(s: TimerState, id: string, k: nat): (r: TimerState)
    requires k <= |s.timers|
    ensures |r.timers| == |s.timers|
  {
    if k == 0 then s
    else
      var r := StopOthers(s, id, k - 1);
      var t := r.timers[k - 1];
      if t.running && t.id != id then StopStep(r, t.id) else r
  }

  /** One more turn of the `forEach` stops the next timer when it runs under another id. */
  lemma StopOthersNext(s: TimerState, id: string, k: nat, r: TimerState)
    requires k < |s.timers| && r == StopOthers(s, id, k)
    ensures |r.timers| == |s.timers|
    ensures StopOthers(s, id, k + 1) == if r.timers[k].running && r.timers[k].id != id then StopStep(r, r.timers[k].id) else r
    ensures forall x :: |StopStep(r, x).timers| == |r.timers|
  {
  }

  /** `startTimer(id)` at time `now`: the interval counts towards `now + remaining` seconds. */
  function StartStep(s: TimerState, id: string, now: int): TimerState {
    var i := FindTimer(s.timers, id);
    if i < 0 || s.timers[i].running then s
    else
      var r := StopOthers(s, id, |s.timers|);
      MarkStep(r, i, id, now + r.timers[i].remaining * 1000)
  }

  /** The end of `startTimer`: timer `i` runs, unnotified, as the active one, and its interval is stored. */
  function MarkStep(r: TimerState, i: nat, id: string, end: int): TimerState
    requires i < |r.timers|
  {
    r.(timers := r.timers[i := r.timers[i].(running := true, notified := false)],
       activeId := Some(id), intervals := r.intervals[id := end])
  }

  /** `notify(timer)`: only a timer not yet notified sends the notification and the sound, and is then marked. */
  function NotifyStep(s: TimerState, t: Timer): TimerState {
    if t.notified then s
    else
      var s1 := s.(commands := s.commands + [NotifyCommand(t.name), ["paplay", SoundFile]]);
      var i := FindTimer(s.timers, t.id);
      if i < 0 then s1 else s1.(timers := s.timers[i := s.timers[i].(notified := true)])
  }

  /** `Math.round(ms / 1000)` on a whole number of milliseconds: halves round up. */
  function RoundSeconds(ms: int): (r: int)
    ensures 1000 * r - 500 <= ms < 1000 * r + 500
  {
    (ms + 500) / 1000
  }

  /**
   * One firing of the interval of timer `id` at time `now`. When the timer has gone, the
   * interval is cleared (the source leaves its cleared handle in the map until the next
   * `stopTimer`; no later step can tell the difference).
   */
  function TickStep(s: TimerState, id: string, now: int): TimerState {
    if id !in s.intervals then s
    else
      var remaining := Max(0, RoundSeconds(s.intervals[id] - now));
      var i := FindTimer(s.timers, id);
      if i < 0 then s.(intervals := s.intervals - {id})
      else
        var t := s.timers[i].(remaining := remaining);
        if remaining > 0 then s.(timers := s.timers[i := t])
        else
          var t' := t.(running := false);
          NotifyStep(s.(timers := s.timers[i := t'], intervals := s.intervals - {id}, activeId := None), t')
  }

  /** `formatTime(seconds)`: `h:mm:ss` from one hour on, `m:ss` below. */
  function FormatTime(seconds: nat): string {
    var hrs := seconds / 3600;
    var mins := (seconds % 3600) / 60;
    var secs := seconds % 60;
    if hrs > 0 then NatToString(hrs) + ":" + PadStart2(NatToString(mins)) + ":" + PadStart2(NatToString(secs))
    else NatToString(mins) + ":" + PadStart2(NatToString(secs))
  }

  // ---------------------------------------------------------------------------
  // The service object
  // ---------------------------------------------------------------------------

  class TimerService {
    var timers: seq<Timer>
    var activeId: Option<string>
    var intervals: map<string, int>
    var commands: seq<seq<string>>

    function State(): TimerState
      reads this
    {
      TimerState(timers, activeId, intervals, commands)
    }

    constructor()
      ensures State() == TimerState([], None, map[], []) && ValidState(State())
    {
      timers := [];
      activeId := None;
      intervals := map[];
      commands := [];
    }

    /** `addTimer(name, durationMinutes)` with `seconds` as in `AddStep`; `id` is the random id the source draws. */
    method AddTimer(id: string, name: string, seconds: int) returns (newId: string)
      modifies this
      ensures newId == id
      ensures State() == AddStep(old(State()), id, name, seconds)
    {
      timers := timers + [Timer(id, name, seconds, seconds, false, false)];
      newId := id;
    }

    method StopTimer(id: string)
      modifies this
      ensures State() == StopStep(old(State()), id)
    {
      intervals := intervals - {id};
      var i := FindTimer(timers, id);
      if i >= 0 {
        timers := timers[i := timers[i].(running := false)];
        if activeId == Some(id) {
          activeId := None;
        }
      }
    }

    method RemoveTimer(id: string)
      modifies this
      ensures State() == RemoveStep(old(State()), id)
    {
      StopTimer(id);
      timers := Filter(timers, (t: Timer) => t.id != id);
    }

    method ResetTimer(id: string)
      modifies this
      ensures State() == ResetStep(old(State()), id)
    {
      StopTimer(id);
      var i := FindTimer(timers, id);
      if i >= 0 {
        timers := timers[i := timers[i].(remaining := timers[i].duration, notified := false)];
      }
    }

    method StartTimer(id: string, now: int)
      modifies this
      ensures State() == StartStep(old(State()), id, now)
    {
      var i := FindTimer(timers, id);
      if i < 0 || timers[i].running {
        return;
      }
      StopOthersLoop(id);
      var t := timers[i].(running := true, notified := false);
      timers := timers[i := t];
      activeId := Some(id);
      intervals := intervals[id := now + t.remaining * 1000];
    }

    /** `currentTimers.forEach((t) => { if (t.running && t.id !== id) this.stopTimer(t.id); })` */
    method StopOthersLoop(id: string)
      modifies this
      ensures State() == StopOthers(old(State()), id, |old(timers)|)
    {
      var k := 0;
      while k < |timers|
        invariant |timers| == |old(timers)|
        invariant 0 <= k <= |timers|
        invariant State() == StopOthers(old(State()), id, k)
      {
        var t := timers[k];
        StopOthersNext(old(State()), id, k, State());
        if t.running && t.id != id {
          StopTimer(t.id);
        }
        k := k + 1;
      }
    }

    method Notify(t: Timer)
      modifies this
      ensures State() == NotifyStep(old(State()), t)
    {
      if t.notified {
        return;
      }
      commands := commands + [NotifyCommand(t.name), ["paplay", SoundFile]];
      var i := FindTimer(timers, t.id);
      if i >= 0 {
        timers := timers[i := timers[i].(notified := true)];
      }
    }

    /** The body of the interval `startTimer` arms for `id`, run at time `now`. */
    method Tick(id: string, now: int)
      modifies this
      ensures State() == TickStep(old(State()), id, now)
    {
      if id !in intervals {
        return;
      }
      var remaining := Max(0, RoundSeconds(intervals[id] - now));
      var i := FindTimer(timers, id);
      if i < 0 {
        intervals := intervals - {id};
        return;
      }
      var t := timers[i].(remaining := remaining);
      timers := timers[i := t];
      if remaining > 0 {
        return;
      }
      var t' := t.(running := false);
      intervals := intervals - {id};
      timers := timers[i := t'];
      activeId := None;
      assert timers == old(timers)[i := t'];
      Notify(t');
    }
  }

  // ---------------------------------------------------------------------------
  // Properties
  // ---------------------------------------------------------------------------

  /** With distinct ids, every timer is the one found for its id. */
  lemma FindUnique(ts: seq<Timer>, k: nat)
    requires UniqueIds(ts) && k < |ts|
    ensures FindTimer(ts, ts[k].id) == k
  {
  }

  /** Two timer lists that carry the same ids at the same positions. */
  predicate SameIds(a: seq<Timer>, b: seq<Timer>) {
    |a| == |b| && forall j :: 0 <= j < |a| ==> a[j].id == b[j].id
  }

  lemma UniqueSameIds(a: seq<Timer>, b: seq<Timer>)
    requires SameIds(a, b) && UniqueIds(a)
    ensures UniqueIds(b)
  {
    forall u, v | 0 <= u < v < |b| ensures b[u].id != b[v].id {
      assert a[u].id == b[u].id && a[v].id == b[v].id;
    }
  }

  lemma FindSameIds(a: seq<Timer>, b: seq<Timer>, id: string)
    requires SameIds(a, b)
    ensures FindTimer(a, id) == FindTimer(b, id)
  {
  }

  lemma RunningIdsHas(ts: seq<Timer>, u: nat)
    requires u < |ts|
    ensures ts[u].running ==> ts[u].id in RunningIds(ts)
  {
  }

  /** No running ids means no timer runs. */
  lemma NoneRunning(ts: seq<Timer>)
    requires RunningIds(ts) == {}
    ensures forall u :: 0 <= u < |ts| ==> !ts[u].running
  {
    forall u | 0 <= u < |ts| ensures !ts[u].running {
      RunningIdsHas(ts, u);
    }
  }

  /** A list where nothing runs has no running ids. */
  lemma NoRunningIds(ts: seq<Timer>)
    requires forall u :: 0 <= u < |ts| ==> !ts[u].running
    ensures RunningIds(ts) == {}
  {
  }

  /** With distinct ids, a timer that does not run leaves its id out of the running ids. */
  lemma IdleIdNotRunning(ts: seq<Timer>, i: nat)
    requires UniqueIds(ts) && i < |ts| && !ts[i].running
    ensures ts[i].id !in RunningIds(ts)
  {
    forall j | 0 <= j < |ts| && ts[j].running ensures ts[j].id != ts[i].id {
      assert j != i;
    }
  }

  /** Replacing a timer by one with the same id changes the running ids only at that id. */
  lemma RunningIdsUpdate(ts: seq<Timer>, i: nat, t: Timer)
    requires UniqueIds(ts) && i < |ts| && t.id == ts[i].id
    ensures RunningIds(ts[i := t]) == (RunningIds(ts) - {t.id}) + (if t.running then {t.id} else {})
  {
    var us := ts[i := t];
    var rhs := (RunningIds(ts) - {t.id}) + (if t.running then {t.id} else {});
    forall x | x in RunningIds(us) ensures x in rhs {
      var j :| 0 <= j < |us| && us[j].running && us[j].id == x;
      if j != i {
        assert ts[j].running && ts[j].id != t.id;
      }
    }
    forall x | x in rhs ensures x in RunningIds(us) {
      if x == t.id {
        assert us[i].running;
      } else {
        var j :| 0 <= j < |ts| && ts[j].running && ts[j].id == x;
        assert j != i && us[j] == ts[j];
      }
    }
  }

  /** With distinct ids, the active-id clause of the invariant leaves at most one timer running. */
  lemma ValidOneRunning(s: TimerState)
    requires ValidState(s)
    ensures AtMostOneRunning(s.timers)
  {
    var ts := s.timers;
    forall i, j | 0 <= i < |ts| && 0 <= j < |ts| && ts[i].running && ts[j].running ensures i == j {
      RunningIdsHas(ts, i);
      RunningIdsHas(ts, j);
      assert ts[i].id == ts[j].id;
    }
  }

  /** Changing a timer's fields other than its id and its `running` flag keeps the invariant. */
  lemma SameRunningValid(s: TimerState, i: nat, t: Timer)
    requires ValidState(s) && i < |s.timers|
    requires t.id == s.timers[i].id && t.running == s.timers[i].running
    ensures ValidState(s.(timers := s.timers[i := t]))
  {
    RunningIdsUpdate(s.timers, i, t);
    UniqueSameIds(s.timers, s.timers[i := t]);
    if t.running {
      RunningIdsHas(s.timers, i);
    } else {
      IdleIdNotRunning(s.timers, i);
    }
  }

  /** Stopping the running timer, dropping its interval and the active id keeps the invariant. */
  lemma StopRunningValid(s: TimerState, i: nat, t: Timer, cmds: seq<seq<string>>)
    requires ValidState(s) && i < |s.timers| && s.timers[i].id in s.intervals
    requires t.id == s.timers[i].id && !t.running
    ensures ValidState(TimerState(s.timers[i := t], None, s.intervals - {t.id}, cmds))
  {
    RunningIdsUpdate(s.timers, i, t);
    UniqueSameIds(s.timers, s.timers[i := t]);
  }

  /** A new timer is appended idle and unnotified with the given seconds; the others stay as they were. */
  lemma AddLaws(s: TimerState, id: string, name: string, seconds: int)
    requires ValidState(s)
    requires forall j :: 0 <= j < |s.timers| ==> s.timers[j].id != id
    ensures var r := AddStep(s, id, name, seconds);
      && ValidState(r)
      && |r.timers| == |s.timers| + 1 && r.timers[..|s.timers|] == s.timers
      && var t := r.timers[|s.timers|];
         t.id == id && t.name == name && t.duration == seconds && t.remaining == t.duration && !t.running && !t.notified
  {
    var r := AddStep(s, id, name, seconds);
    var t := r.timers[|s.timers|];
    assert r.timers == s.timers + [t];
    forall x | x in RunningIds(r.timers) ensures x in RunningIds(s.timers) {
      var j :| 0 <= j < |r.timers| && r.timers[j].running && r.timers[j].id == x;
      assert j < |s.timers| && s.timers[j] == r.timers[j];
    }
    forall x | x in RunningIds(s.timers) ensures x in RunningIds(r.timers) {
      var j :| 0 <= j < |s.timers| && s.timers[j].running && s.timers[j].id == x;
      assert r.timers[j] == s.timers[j];
    }
  }

  /** Stopping keeps the invariant and takes the id out of the running ids. */
  lemma StopValid(s: TimerState, id: string)
    requires ValidState(s)
    ensures ValidState(StopStep(s, id))
    ensures RunningIds(StopStep(s, id).timers) == RunningIds(s.timers) - {id}
  {
    var i := FindTimer(s.timers, id);
    if i < 0 {
      assert id !in RunningIds(s.timers);
    } else {
      var t := s.timers[i].(running := false);
      RunningIdsUpdate(s.timers, i, t);
      UniqueSameIds(s.timers, s.timers[i := t]);
    }
  }

  /**
   * Stopping clears the timer's `running` flag and its interval, clears `activeId` only
   * when it named this timer, and changes nothing else.
   */
  lemma StopLaws(s: TimerState, id: string)
    requires ValidState(s)
    ensures var r := StopStep(s, id); var i := FindTimer(s.timers, id);
      && ValidState(r)
      && |r.timers| == |s.timers|
      && (forall j :: 0 <= j < |s.timers| ==> r.timers[j] == if j == i then s.timers[j].(running := false) else s.timers[j])
      && r.activeId == (if s.activeId == Some(id) then None else s.activeId)
      && r.intervals == s.intervals - {id}
      && RunningIds(r.timers) == RunningIds(s.timers) - {id}
      && r.commands == s.commands
  {
    StopValid(s, id);
  }

  /**
   * `r` is `s` once the `forEach` of `startTimer` has passed its first `k` timers: none of
   * those with another id runs, the rest are untouched, and only `running` flags were cleared.
   */
  predicate StoppedUpTo(s: seq<Timer>, r: seq<Timer>, id: string, k: nat) {
    && |r| == |s| && k <= |s|
    && (forall j :: 0 <= j < k && r[j].id != id ==> !r[j].running)
    && (forall j :: k <= j < |s| ==> r[j] == s[j])
    && (forall j :: 0 <= j < |s| ==> r[j] == s[j].(running := r[j].running))
    && (forall j :: 0 <= j < |s| && r[j].running ==> s[j].running)
  }

  lemma StoppedSameIds(s: seq<Timer>, r: seq<Timer>, id: string, k: nat)
    requires StoppedUpTo(s, r, id, k)
    ensures SameIds(s, r)
  {
    forall j | 0 <= j < |s| ensures s[j].id == r[j].id {
      assert r[j] == s[j].(running := r[j].running);
    }
  }

  /** Passing timer `k - 1` when it is left alone. */
  lemma StoppedKeep(s: seq<Timer>, r: seq<Timer>, id: string, k: nat)
    requires 0 < k && StoppedUpTo(s, r, id, k - 1) && k <= |s|
    requires !(r[k - 1].running && r[k - 1].id != id)
    ensures StoppedUpTo(s, r, id, k)
  {
  }

  /** Passing timer `k - 1` when it is stopped. */
  lemma StoppedStop(s: seq<Timer>, r: seq<Timer>, id: string, k: nat)
    requires 0 < k && StoppedUpTo(s, r, id, k - 1) && k <= |s|
    ensures StoppedUpTo(s, r[k - 1 := r[k - 1].(running := false)], id, k)
  {
    var r2 := r[k - 1 := r[k - 1].(running := false)];
    forall j | 0 <= j < |s| ensures r2[j] == s[j].(running := r2[j].running) {
      assert r[j] == s[j].(running := r[j].running);
    }
  }

  /** The `forEach` of `startTimer` over its first `k` timers, as `StoppedUpTo` states it. */
  lemma {:induction false} StopOthersShape(s: TimerState, id: string, k: nat)
    requires UniqueIds(s.timers) && k <= |s.timers|
    ensures StoppedUpTo(s.timers, StopOthers(s, id, k).timers, id, k)
  {
    if k > 0 {
      StopOthersShape(s, id, k - 1);
      StopOthersStep(s, id, k);
    }
  }

  /** One turn of the `forEach`: from the first `k - 1` timers to the first `k`. */
  lemma StopOthersStep(s: TimerState, id: string, k: nat)
    requires UniqueIds(s.timers) && 0 < k <= |s.timers|
    requires StoppedUpTo(s.timers, StopOthers(s, id, k - 1).timers, id, k - 1)
    ensures StoppedUpTo(s.timers, StopOthers(s, id, k).timers, id, k)
  {
    var r := StopOthers(s, id, k - 1);
    var t := r.timers[k - 1];
    if t.running && t.id != id {
      StoppedSameIds(s.timers, r.timers, id, k - 1);
      UniqueSameIds(s.timers, r.timers);
      FindUnique(r.timers, k - 1);
      StopOthersNext(s, id, k - 1, r);
      assert StopStep(r, t.id).timers == r.timers[k - 1 := t.(running := false)];
      StoppedStop(s.timers, r.timers, id, k);
    } else {
      StoppedKeep(s.timers, r.timers, id, k);
    }
  }

  /** The `forEach` keeps the service's invariant. */
  lemma {:induction false} StopOthersValid(s: TimerState, id: string, k: nat)
    requires ValidState(s) && k <= |s.timers|
    ensures ValidState(StopOthers(s, id, k))
  {
    if k > 0 {
      StopOthersValid(s, id, k - 1);
      var r := StopOthers(s, id, k - 1);
      var t := r.timers[k - 1];
      if t.running && t.id != id {
        StopValid(r, t.id);
      }
    }
  }

  /** Before `startTimer` marks its timer, the `forEach` has left no timer running and so no interval or active id. */
  lemma NoneRunningAfterStopOthers(s: TimerState, id: string)
    requires ValidState(s)
    requires var i := FindTimer(s.timers, id); 0 <= i && !s.timers[i].running
    ensures var r := StopOthers(s, id, |s.timers|);
      && ValidState(r)
      && (forall j :: 0 <= j < |s.timers| ==> r.timers[j] == s.timers[j].(running := false))
      && RunningIds(r.timers) == {} && r.intervals == map[] && r.activeId == None
  {
    var n := |s.timers|;
    var i := FindTimer(s.timers, id);
    StopOthersShape(s, id, n);
    StopOthersValid(s, id, n);
    var r := StopOthers(s, id, n);
    forall j | 0 <= j < n ensures !r.timers[j].running {
      if j != i {
        assert r.timers[j].id == s.timers[j].id != id;
      }
    }
    NoRunningIds(r.timers);
    assert r.intervals.Keys == {};
  }

  /**
   * Marking timer `i` of `r0`, where the `forEach` has stopped every timer of `s`, as the
   * running, active one keeps the invariant and leaves the others as `s` had them, stopped.
   */
  lemma MarkRunning(s: seq<Timer>, r0: TimerState, i: nat, id: string, end: int)
    requires ValidState(r0) && RunningIds(r0.timers) == {} && r0.intervals == map[]
    requires |r0.timers| == |s| && forall j :: 0 <= j < |s| ==> r0.timers[j] == s[j].(running := false)
    requires i < |s| && s[i].id == id
    ensures var r := MarkStep(r0, i, id, end);
      && ValidState(r) && RunningIds(r.timers) == {id}
      && r.activeId == Some(id) && r.intervals == map[id := end] && |r.timers| == |s|
      && r.timers[i] == s[i].(running := true, notified := false)
      && forall j :: 0 <= j < |s| && j != i ==> r.timers[j] == s[j].(running := false)
  {
    var t := r0.timers[i].(running := true, notified := false);
    assert r0.timers[i] == s[i].(running := false);
    RunningIdsUpdate(r0.timers, i, t);
    UniqueSameIds(r0.timers, r0.timers[i := t]);
  }

  /**
   * Starting an unknown or running timer does nothing. Otherwise every other timer is
   * stopped and this one is the active, running one, with the only live interval, ending
   * `remaining` seconds after `now`.
   */
  lemma StartLaws(s: TimerState, id: string, now: int)
    requires ValidState(s)
    ensures var r := StartStep(s, id, now); var i := FindTimer(s.timers, id);
      && ValidState(r)
      && (i < 0 || s.timers[i].running ==> r == s)
      && (0 <= i && !s.timers[i].running ==>
            && r.activeId == Some(id) && RunningIds(r.timers) == {id}
            && r.intervals == map[id := now + s.timers[i].remaining * 1000])
  {
    var i := FindTimer(s.timers, id);
    if 0 <= i && !s.timers[i].running {
      NoneRunningAfterStopOthers(s, id);
      var r0 := StopOthers(s, id, |s.timers|);
      assert r0.timers[i].remaining == s.timers[i].remaining;
      MarkRunning(s.timers, r0, i, id, now + s.timers[i].remaining * 1000);
    }
  }

  /** Starting a timer that is idle marks it running and unnotified and leaves every other timer stopped. */
  lemma StartTimers(s: TimerState, id: string, now: int)
    requires UniqueIds(s.timers)
    ensures var r := StartStep(s, id, now); var i := FindTimer(s.timers, id);
      0 <= i && !s.timers[i].running ==>
        && |r.timers| == |s.timers|
        && r.timers[i] == s.timers[i].(running := true, notified := false)
        && forall j :: 0 <= j < |s.timers| && j != i ==> r.timers[j] == s.timers[j].(running := false)
  {
    var i := FindTimer(s.timers, id);
    if 0 <= i && !s.timers[i].running {
      var n := |s.timers|;
      StopOthersShape(s, id, n);
      var r0 := StopOthers(s, id, n);
      var r := StartStep(s, id, now);
      assert r.timers == r0.timers[i := r0.timers[i].(running := true, notified := false)];
      assert r0.timers[i] == s.timers[i].(running := false);
      forall j | 0 <= j < n && j != i ensures r.timers[j] == s.timers[j].(running := false) {
        assert r0.timers[j] == s.timers[j].(running := r0.timers[j].running);
        assert r0.timers[j].id == s.timers[j].id != id;
      }
    }
  }

  /** A live interval belongs to a timer that is present and running. */
  lemma LiveIntervalFound(s: TimerState, id: string)
    requires ValidState(s) && id in s.intervals
    ensures var i := FindTimer(s.timers, id); 0 <= i && s.timers[i].running
  {
    assert id in RunningIds(s.timers);
    var j :| 0 <= j < |s.timers| && s.timers[j].running && s.timers[j].id == id;
    FindUnique(s.timers, j);
  }

  /** What a tick that reaches zero leaves behind: the timer stopped and, unless it was already, notified. */
  lemma TickExpired(s: TimerState, id: string, i: nat, t': Timer)
    requires ValidState(s) && i < |s.timers| && s.timers[i].id == id && id in s.intervals
    requires FindTimer(s.timers, id) == i && t'.id == id && !t'.running
    ensures var r := NotifyStep(s.(timers := s.timers[i := t'], intervals := s.intervals - {id}, activeId := None), t');
      && ValidState(r)
      && r.timers == s.timers[i := t'.(notified := true)]
      && r.activeId == None && r.intervals == s.intervals - {id}
  {
    var s1 := s.(timers := s.timers[i := t'], intervals := s.intervals - {id}, activeId := None);
    FindSameIds(s.timers, s1.timers, id);
    var r := NotifyStep(s1, t');
    if !t'.notified {
      assert r.timers == s.timers[i := t'.(notified := true)];
    }
    StopRunningValid(s, i, t'.(notified := true), r.commands);
  }

  /**
   * A tick of a live interval sets the timer's remaining time to the rounded seconds left,
   * never below zero. At zero the timer stops, nothing is active any more, its interval is
   * cleared and it has been notified; above zero nothing else changes.
   */
  lemma TickLaws(s: TimerState, id: string, now: int)
    requires ValidState(s)
    ensures var r := TickStep(s, id, now);
      && (id !in s.intervals ==> r == s)
      && (id in s.intervals ==>
            var i := FindTimer(s.timers, id);
            && 0 <= i && |r.timers| == |s.timers|
            && r.timers[i].remaining == Max(0, RoundSeconds(s.intervals[id] - now)) >= 0
            && (r.timers[i].remaining > 0 ==> r.timers[i].running && r.activeId == s.activeId && r.intervals == s.intervals)
            && (r.timers[i].remaining == 0 ==>
                  !r.timers[i].running && r.timers[i].notified && r.activeId == None && id !in r.intervals)
            && forall j :: 0 <= j < |s.timers| && j != i ==> r.timers[j] == s.timers[j])
  {
    if id in s.intervals {
      LiveIntervalFound(s, id);
      var i := FindTimer(s.timers, id);
      var remaining := Max(0, RoundSeconds(s.intervals[id] - now));
      var t := s.timers[i].(remaining := remaining);
      if remaining == 0 {
        TickExpired(s, id, i, t.(running := false));
      }
    }
  }

  /** A tick keeps the service's invariant. */
  lemma TickValid(s: TimerState, id: string, now: int)
    requires ValidState(s)
    ensures ValidState(TickStep(s, id, now))
  {
    if id in s.intervals {
      LiveIntervalFound(s, id);
      var i := FindTimer(s.timers, id);
      var remaining := Max(0, RoundSeconds(s.intervals[id] - now));
      var t := s.timers[i].(remaining := remaining);
      if remaining > 0 {
        SameRunningValid(s, i, t);
      } else {
        TickExpired(s, id, i, t.(running := false));
      }
    }
  }

  /** Removing keeps exactly the timers with another id, in their order. */
  lemma RemoveFilters(s: TimerState, id: string)
    ensures RemoveStep(s, id).timers == Filter(s.timers, (t: Timer) => t.id != id)
  {
    var i := FindTimer(s.timers, id);
    if i >= 0 {
      FilterUpdateDropped(s.timers, i, s.timers[i].(running := false), (t: Timer) => t.id != id);
    }
  }

  /** Deleting a timer that does not run leaves the running ids as they were. */
  lemma RemoveAtRunning(ts: seq<Timer>, i: nat)
    requires i < |ts| && !ts[i].running
    ensures RunningIds(ts[..i] + ts[i + 1..]) == RunningIds(ts)
  {
    var us := ts[..i] + ts[i + 1..];
    forall x | x in RunningIds(us) ensures x in RunningIds(ts) {
      var j :| 0 <= j < |us| && us[j].running && us[j].id == x;
      var j' := if j < i then j else j + 1;
      assert ts[j'] == us[j];
    }
    forall x | x in RunningIds(ts) ensures x in RunningIds(us) {
      var j :| 0 <= j < |ts| && ts[j].running && ts[j].id == x;
      var j' := if j < i then j else j - 1;
      assert us[j'] == ts[j];
    }
  }

  /** Deleting a timer keeps the other ids distinct. */
  lemma RemoveAtUnique(ts: seq<Timer>, i: nat)
    requires UniqueIds(ts) && i < |ts|
    ensures UniqueIds(ts[..i] + ts[i + 1..])
  {
    var us := ts[..i] + ts[i + 1..];
    forall u, v | 0 <= u < v < |us| ensures us[u].id != us[v].id {
      var u' := if u < i then u else u + 1;
      var v' := if v < i then v else v + 1;
      assert us[u] == ts[u'] && us[v] == ts[v'];
    }
  }

  /** With distinct ids, removing deletes the one timer with that id and keeps the invariant. */
  lemma RemoveLaws(s: TimerState, id: string)
    requires ValidState(s)
    ensures var r := RemoveStep(s, id); var i := FindTimer(s.timers, id);
      && ValidState(r)
      && r.timers == (if i < 0 then s.timers else s.timers[..i] + s.timers[i + 1..])
      && id !in r.intervals && r.activeId != Some(id)
  {
    var p := (t: Timer) => t.id != id;
    var i := FindTimer(s.timers, id);
    var s1 := StopStep(s, id);
    StopValid(s, id);
    if i < 0 {
      FilterAll(s.timers, p);
    } else {
      FilterRemoveOne(s1.timers, i, p);
      assert s1.timers[..i] == s.timers[..i] && s1.timers[i + 1..] == s.timers[i + 1..];
      RemoveAtRunning(s1.timers, i);
      RemoveAtUnique(s1.timers, i);
    }
  }

  /** Resetting stops the timer, restores its full duration and clears `notified`. */
  lemma ResetLaws(s: TimerState, id: string)
    requires ValidState(s)
    ensures var r := ResetStep(s, id); var i := FindTimer(s.timers, id);
      && ValidState(r)
      && |r.timers| == |s.timers|
      && (0 <= i ==> r.timers[i] == s.timers[i].(running := false, remaining := s.timers[i].duration, notified := false))
      && (forall j :: 0 <= j < |s.timers| && j != i ==> r.timers[j] == s.timers[j])
      && r.activeId == (if s.activeId == Some(id) then None else s.activeId)
      && id !in r.intervals
  {
    StopValid(s, id);
    var s1 := StopStep(s, id);
    var i := FindTimer(s.timers, id);
    FindSameIds(s.timers, s1.timers, id);
    if i >= 0 {
      var t := s1.timers[i].(remaining := s1.timers[i].duration, notified := false);
      SameRunningValid(s1, i, t);
    }
  }

  /** `notify` acts once: a notified timer sends nothing; otherwise both commands go out and the timer is marked. */
  lemma NotifyOnce(s: TimerState, t: Timer)
    ensures t.notified ==> NotifyStep(s, t) == s
    ensures !t.notified ==>
      var r := NotifyStep(s, t); var i := FindTimer(s.timers, t.id);
      && r.commands == s.commands + [NotifyCommand(t.name), ["paplay", SoundFile]]
      && (0 <= i ==> r.timers[i].notified && NotifyStep(r, r.timers[i]) == r)
  {
  }

  /** A number of seconds splits into hours, minutes below 60 and seconds below 60. */
  lemma ClockArithmetic(seconds: nat)
    ensures (seconds % 3600) / 60 < 60
    ensures seconds / 3600 * 3600 + (seconds % 3600) / 60 * 60 + seconds % 60 == seconds
    ensures seconds / 3600 == 0 ==> seconds / 60 == (seconds % 3600) / 60 < 60
  {
    var h, rem := seconds / 3600, seconds % 3600;
    var m, sec := rem / 60, rem % 60;
    assert seconds == h * 3600 + m * 60 + sec;
    assert seconds == (h * 60 + m) * 60 + sec;
  }

  /** Hours and two two-digit fields joined by colons split back into the three numerals. */
  lemma SplitClockFields(h: nat, m: nat, sec: nat)
    requires m < 100 && sec < 100
    ensures var m2, s2 := PadStart2(NatToString(m)), PadStart2(NatToString(sec));
      Split(NatToString(h) + ":" + m2 + ":" + s2, ':') == [NatToString(h), m2, s2]
  {
    var a, m2, s2 := NatToString(h), PadStart2(NatToString(m)), PadStart2(NatToString(sec));
    TwoDigitField(m);
    TwoDigitField(sec);
    assert ':' !in a && ':' !in m2 && ':' !in s2 by {
      assert !IsDigit(':');
    }
    SplitThree(a, m2, s2, ':');
  }

  /** From one hour on, `formatTime` gives the hours numeral and the two-digit minutes and seconds. */
  lemma FormatTimeLong(seconds: nat)
    requires seconds >= 3600
    ensures var parts := Split(FormatTime(seconds), ':');
      && |parts| == 3 && AllDigits(parts[0]) && AllDigits(parts[1]) && AllDigits(parts[2])
      && (forall k :: 0 <= k < |parts| ==> AllDigits(parts[k]))
      && |parts[1]| == 2 && |parts[2]| == 2
      && ParseDigits(parts[0]) == seconds / 3600
      && ParseDigits(parts[1]) == (seconds % 3600) / 60
      && ParseDigits(parts[2]) == seconds % 60
  {
    var hrs, mins, secs := seconds / 3600, (seconds % 3600) / 60, seconds % 60;
    assert hrs > 0 && mins < 60;
    SplitClockFields(hrs, mins, secs);
    ParseNatToString(hrs);
    TwoDigitField(mins);
    TwoDigitField(secs);
    var parts := Split(FormatTime(seconds), ':');
    forall k | 0 <= k < |parts| ensures AllDigits(parts[k]) {
      if k == 0 {
      } else if k == 1 {
      } else {
        assert k == 2;
      }
    }
  }

  /** Below one hour, `formatTime` gives the minutes numeral and the two-digit seconds. */
  lemma FormatTimeShort(seconds: nat)
    requires seconds < 3600
    ensures var parts := Split(FormatTime(seconds), ':');
      && |parts| == 2 && AllDigits(parts[0]) && AllDigits(parts[1]) && |parts[1]| == 2
      && (forall k :: 0 <= k < |parts| ==> AllDigits(parts[k]))
      && ParseDigits(parts[0]) == seconds / 60
      && ParseDigits(parts[1]) == seconds % 60
  {
    var mins, secs := (seconds % 3600) / 60, seconds % 60;
    assert seconds / 3600 == 0 && mins == seconds / 60;
    SplitColonField(mins, secs);
    ParseNatToString(mins);
    TwoDigitField(secs);
    var parts := Split(FormatTime(seconds), ':');
    forall k | 0 <= k < |parts| ensures AllDigits(parts[k]) {
      if k == 0 {
      } else {
        assert k == 1;
      }
    }
  }

  /** Fields that denote `seconds / 3600`, the minutes and the seconds read back as `seconds`. */
  lemma ClockFieldsValue(parts: seq<string>, seconds: nat)
    requires |parts| == 3 && AllDigits(parts[0]) && AllDigits(parts[1]) && AllDigits(parts[2])
    requires ParseDigits(parts[0]) == seconds / 3600
    requires ParseDigits(parts[1]) == (seconds % 3600) / 60
    requires ParseDigits(parts[2]) == seconds % 60
    ensures ParseDigits(parts[0]) * 3600 + ParseDigits(parts[1]) * 60 + ParseDigits(parts[2]) == seconds
  {
    ClockArithmetic(seconds);
  }

  /** Fields that denote `seconds / 60` and `seconds % 60` read back as `seconds`. */
  lemma MinuteFieldsValue(parts: seq<string>, seconds: nat)
    requires |parts| == 2 && AllDigits(parts[0]) && AllDigits(parts[1])
    requires ParseDigits(parts[0]) == seconds / 60
    requires ParseDigits(parts[1]) == seconds % 60
    ensures ParseDigits(parts[0]) * 60 + ParseDigits(parts[1]) == seconds
  {
  }

  /**
   * `formatTime` writes hours, minutes and seconds separated by colons: three fields from
   * one hour on, two below; every field after the first has exactly two digits; and the
   * fields read back give the number of seconds.
   */
  lemma FormatTimeFields(seconds: nat)
    ensures var parts := Split(FormatTime(seconds), ':');
      && (forall k :: 0 <= k < |parts| ==> AllDigits(parts[k]))
      && (seconds >= 3600 ==>
            && |parts| == 3 && |parts[1]| == 2 && |parts[2]| == 2
            && ParseDigits(parts[0]) * 3600 + ParseDigits(parts[1]) * 60 + ParseDigits(parts[2]) == seconds)
      && (seconds < 3600 ==>
            && |parts| == 2 && |parts[1]| == 2
            && ParseDigits(parts[0]) * 60 + ParseDigits(parts[1]) == seconds)
  {
    var parts := Split(FormatTime(seconds), ':');
    if seconds >= 3600 {
      FormatTimeLong(seconds);
      ClockFieldsValue(parts, seconds);
    } else {
      FormatTimeShort(seconds);
      MinuteFieldsValue(parts, seconds);
    }
  }
}
