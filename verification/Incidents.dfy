/**
 * Folding checks into streaks and outages, and scoring uptime from the outage rows alone. Instants are
 * milliseconds, as module Time stores them; `threshold` is how many checks in a row change a verdict.
 */
module Incidents {
  import opened Options
  import opened Text
  import opened PythonMath

  datatype Check = Check(target: string, ok: bool, reason: string, at: int)
  datatype Streak = Streak(okRun: nat, failRun: nat, lastAt: int, observedSince: int)
  datatype Incident = Incident(target: string, reason: string, openedAt: int, closedAt: Option<int>)
  datatype Observed = Observed(since: int, until: int)
  datatype Change = Opened | Closed

  /** The two tables; an incident's id is its place in the list, since no row is ever deleted. */
  datatype Board = Board(streaks: map<string, Streak>, incidents: seq<Incident>)

  // ---------------------------------------------------------------- one check

  predicate WithinGap(earlier: int, later: int, gap: int) {
    0 <= later - earlier <= gap
  }

  function StreakOf(b: Board, target: string): Option<Streak> {
    if target in b.streaks then Some(b.streaks[target]) else None
  }

  function Advanced(streak: Option<Streak>, ok: bool, at: int, gap: int): Streak {
    Streak(
      if ok then (if streak.Some? then streak.value.okRun else 0) + 1 else 0,
      if ok then 0 else (if streak.Some? then streak.value.failRun else 0) + 1,
      at,
      if streak.Some? && WithinGap(streak.value.lastAt, at, gap) then streak.value.observedSince else at)
  }

  predicate IsOpen(incident: Incident, target: string) {
    incident.target == target && incident.closedAt.None?
  }

  /** The id of the first open incident of a target. */
  function OpenId(incidents: seq<Incident>, target: string, from: nat := 0): (id: Option<nat>)
    requires from <= |incidents|
    ensures id.Some? ==> from <= id.value < |incidents| && IsOpen(incidents[id.value], target)
    ensures id.None? ==> forall i | from <= i < |incidents| :: !IsOpen(incidents[i], target)
    decreases |incidents| - from
  {
    if from == |incidents| then None
    else if IsOpen(incidents[from], target) then Some(from)
    else OpenId(incidents, target, from + 1)
  }

  function ChangeOf(b: Board, check: Check, threshold: nat, gap: int): Option<Change> {
    var streak := Advanced(StreakOf(b, check.target), check.ok, check.at, gap);
    var open := OpenId(b.incidents, check.target);
    if streak.failRun >= threshold && open.None? then Some(Opened)
    else if streak.okRun >= threshold && open.Some? then Some(Closed)
    else None
  }

  /** A failing check's reason replaces the open incident's, unless it names none. */
  function Explained(incidents: seq<Incident>, open: Option<nat>, check: Check): (explained: seq<Incident>)
    requires open.Some? ==> open.value < |incidents|
    ensures |explained| == |incidents|
  {
    if !check.ok && open.Some? && check.reason != ""
    then incidents[open.value := incidents[open.value].(reason := check.reason)] else incidents
  }

  /** `record`. */
  function Recorded(b: Board, check: Check, threshold: nat, gap: int): Board {
    var open := OpenId(b.incidents, check.target);
    var explained := Explained(b.incidents, open, check);
    Board(
      b.streaks[check.target := Advanced(StreakOf(b, check.target), check.ok, check.at, gap)],
      match ChangeOf(b, check, threshold, gap)
      case Some(Opened) => explained + [Incident(check.target, check.reason, check.at, None)]
      case Some(Closed) => explained[open.value := explained[open.value].(closedAt := Some(check.at))]
      case None => explained)
  }

  /** The stretch a target's row says it was checked through. */
  function ObservedOf(b: Board, target: string): Option<Observed> {
    match StreakOf(b, target)
    case None => None
    case Some(streak) => Some(Observed(streak.observedSince, streak.lastAt))
  }

  // ---------------------------------------------------------------- retiring what is gone

  /** SQLite's LIKE: `%` is any run, `_` any one character, and ASCII letters match either case. */
  predicate Like(text: string, pattern: string)
    decreases |pattern| + |text|
  {
    if |pattern| == 0 then |text| == 0
    else if pattern[0] == '%' then Like(text, pattern[1..]) || (|text| > 0 && Like(text[1..], pattern))
    else |text| > 0 && (pattern[0] == '_' || Folded(pattern[0]) == Folded(text[0])) && Like(text[1..], pattern[1..])
  }

  function RemovePrefix(text: string, prefix: string): string {
    if StartsWith(text, prefix) then text[|prefix|..] else text
  }

  /** A target the sweep of one prefix gives up on, if it has an incident open. */
  predicate Absent(target: string, prefix: string, seen: set<string>) {
    Like(target, prefix + "%") && RemovePrefix(target, prefix) !in seen
  }

  predicate Stale(incident: Incident, prefix: string, seen: set<string>) {
    incident.closedAt.None? && Absent(incident.target, prefix, seen)
  }

  function StaleIds(incidents: seq<Incident>, prefix: string, seen: set<string>): (ids: seq<nat>)
    ensures forall id :: id in ids <==> 0 <= id < |incidents| && Stale(incidents[id], prefix, seen)
  {
    if |incidents| == 0 then []
    else
      var front := incidents[..|incidents| - 1];
      StaleIds(front, prefix, seen)
      + if Stale(incidents[|incidents| - 1], prefix, seen) then [|incidents| - 1] else []
  }

  function Targets(incidents: seq<Incident>, ids: seq<nat>): (targets: seq<string>)
    requires forall id | id in ids :: id < |incidents|
    ensures |targets| == |ids|
  {
    seq(|ids|, j requires 0 <= j < |ids| => assert ids[j] in ids; incidents[ids[j]].target)
  }

  function Removed(incident: Incident, at: int): Incident {
    incident.(closedAt := Some(at), reason := "removed")
  }

  function StaleTargets(incidents: seq<Incident>, prefix: string, seen: set<string>): set<string> {
    set incident | incident in incidents && Stale(incident, prefix, seen) :: incident.target
  }

  /** `retireAbsent`. */
  function Retired(b: Board, prefix: string, seen: set<string>, at: int): Board {
    Board(
      b.streaks - StaleTargets(b.incidents, prefix, seen),
      seq(|b.incidents|, i requires 0 <= i < |b.incidents| =>
        if Stale(b.incidents[i], prefix, seen) then Removed(b.incidents[i], at) else b.incidents[i]))
  }

  // ---------------------------------------------------------------- uptime

  function Min(a: int, b: int): int { if a < b then a else b }
  function Larger(a: int, b: int): int { if a > b then a else b }

  /** The milliseconds of a window an outage takes; one still open lasts through the window's end. */
  function Clipped(outage: Incident, since: int, now: int): nat {
    var end := Min(if outage.closedAt.Some? then outage.closedAt.value else now, now);
    var start := Larger(outage.openedAt, since);
    if end > start then end - start else 0
  }

  predicate Scored(outage: Incident, target: string, since: int) {
    outage.target == target && (outage.closedAt.None? || outage.closedAt.value >= since)
  }

  function DownMillis(incidents: seq<Incident>, target: string, since: int, now: int): nat {
    if |incidents| == 0 then 0
    else
      var last := incidents[|incidents| - 1];
      DownMillis(incidents[..|incidents| - 1], target, since, now)
      + if Scored(last, target, since) then Clipped(last, since, now) else 0
  }

  predicate Watched(since: int, now: int, observed: Observed, gap: int) {
    now > since && observed.since <= since && WithinGap(observed.until, now, gap)
  }

  function Percent(window: int, down: int): real
    requires window > 0
  {
    var up := (window - down) as real / window as real;
    (if up > 0.0 then up else 0.0) * 100.0
  }

  /** `uptimePercent`. */
  function Uptime(incidents: seq<Incident>, target: string, since: int, now: int, observed: Observed,
                  gap: int): Option<real> {
    if !Watched(since, now, observed, gap) then None
    else Some(PythonRound(Percent(now - since, DownMillis(incidents, target, since, now)), 3))
  }

  // ---------------------------------------------------------------- the monitor

  class Monitor {
    var streaks: map<string, Streak>
    var incidents: seq<Incident>

    constructor ()
      ensures State() == Board(map[], [])
    {
      streaks, incidents := map[], [];
    }

    function State(): Board
      reads this
    {
      Board(streaks, incidents)
    }

    method Record(check: Check, threshold: nat, gap: int) returns (change: Option<Change>)
      modifies this
      ensures State() == Recorded(old(State()), check, threshold, gap)
      ensures change == ChangeOf(old(State()), check, threshold, gap)
    {
      var streak := if check.target in streaks then Some(streaks[check.target]) else None;
      var okRun := if check.ok then (if streak.Some? then streak.value.okRun else 0) + 1 else 0;
      var failRun := if check.ok then 0 else (if streak.Some? then streak.value.failRun else 0) + 1;
      var observedSince := if streak.Some? && WithinGap(streak.value.lastAt, check.at, gap)
                           then streak.value.observedSince else check.at;
      streaks := streaks[check.target := Streak(okRun, failRun, check.at, observedSince)];
      var current := OpenId(incidents, check.target);
      if !check.ok && current.Some? && check.reason != "" {
        incidents := incidents[current.value := incidents[current.value].(reason := check.reason)];
      }
      if failRun >= threshold && current.None? {
        incidents := incidents + [Incident(check.target, check.reason, check.at, None)];
        return Some(Opened);
      }
      if okRun >= threshold && current.Some? {
        incidents := incidents[current.value := incidents[current.value].(closedAt := Some(check.at))];
        return Some(Closed);
      }
      return None;
    }

    method RetireAbsent(prefix: string, seen: set<string>, at: int) returns (count: nat)
      modifies this
      ensures State() == Retired(old(State()), prefix, seen, at)
      ensures count == |StaleIds(old(incidents), prefix, seen)|
      ensures |incidents| == |old(incidents)|
      ensures forall i | 0 <= i < |incidents| ::
                var was := old(incidents)[i];
                var absent := Like(was.target, prefix + "%") && RemovePrefix(was.target, prefix) !in seen;
                incidents[i] == if was.closedAt.None? && absent then was.(closedAt := Some(at), reason := "removed")
                  else was
    {
      var stale := StaleIds(incidents, prefix, seen);
      var targets := Targets(incidents, stale);
      ghost var before := incidents;
      hide Stale;
      for k := 0 to |stale|
        invariant streaks == old(streaks) && |incidents| == |before|
        invariant forall i | 0 <= i < |before| ::
                    incidents[i] == if i in stale[..k] then Removed(before[i], at) else before[i]
      {
        assert stale[k] in stale;
        assert stale[..k + 1] == stale[..k] + [stale[k]];
        incidents := incidents[stale[k] := Removed(incidents[stale[k]], at)];
      }
      assert stale[..|stale|] == stale;
      for k := 0 to |stale|
        invariant incidents == Retired(old(State()), prefix, seen, at).incidents
        invariant streaks == old(streaks) - (set target | target in targets[..k])
      {
        assert targets[..k + 1] == targets[..k] + [targets[k]];
        streaks := streaks - {targets[k]};
      }
      assert targets[..|targets|] == targets;
      StaleTargetsAre(before, prefix, seen, stale);
      return |stale|;
    }

    method ObservedRun(target: string) returns (run: Option<Observed>)
      ensures run == ObservedOf(State(), target)
    {
      if target !in streaks {
        return None;
      }
      return Some(Observed(streaks[target].observedSince, streaks[target].lastAt));
    }

    method UptimePercent(target: string, since: int, now: int, observed: Observed, gap: int)
      returns (percent: Option<real>)
      ensures percent == Uptime(incidents, target, since, now, observed, gap)
    {
      var window := now - since;
      if window <= 0 || observed.since > since || !WithinGap(observed.until, now, gap) {
        return None;
      }
      var down := 0;
      for i := 0 to |incidents|
        invariant down == DownMillis(incidents[..i], target, since, now)
      {
        assert incidents[..i + 1][..i] == incidents[..i];
        if incidents[i].target == target && (incidents[i].closedAt.None? || incidents[i].closedAt.value >= since) {
          var end := Min(if incidents[i].closedAt.Some? then incidents[i].closedAt.value else now, now);
          var start := Larger(incidents[i].openedAt, since);
          if end > start {
            down := down + (end - start);
          }
        }
      }
      assert incidents[..|incidents|] == incidents;
      var up := (window - down) as real / window as real;
      return Some(PythonRound((if up > 0.0 then up else 0.0) * 100.0, 3));
    }
  }

  lemma StaleTargetsAre(incidents: seq<Incident>, prefix: string, seen: set<string>, ids: seq<nat>)
    requires forall id :: id in ids <==> 0 <= id < |incidents| && Stale(incidents[id], prefix, seen)
    ensures (set target | target in Targets(incidents, ids)) == StaleTargets(incidents, prefix, seen)
  {
    hide Stale;
    var targets := Targets(incidents, ids);
    forall target | target in StaleTargets(incidents, prefix, seen) ensures target in targets {
      var incident :| incident in incidents && Stale(incident, prefix, seen) && incident.target == target;
      var id :| 0 <= id < |incidents| && incidents[id] == incident;
      assert id in ids;
      var j :| 0 <= j < |ids| && ids[j] == id;
      assert targets[j] == target;
    }
    forall target | target in targets ensures target in StaleTargets(incidents, prefix, seen) {
      var j :| 0 <= j < |targets| && targets[j] == target;
      assert ids[j] in ids;
    }
  }
}
