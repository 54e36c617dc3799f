/**
 * What the incident tables mean after a whole history of checks and retirements: each target's row
 * against a reading of its own checks, and uptime against the time the target was down.
 */
module IncidentHistory {
  import opened Options
  import opened Text
  import opened PythonMath
  import opened Incidents

  datatype Step = Checked(check: Check) | Retiring(prefix: string, seen: set<string>, at: int)

  function TimeOf(step: Step): int {
    if step.Checked? then step.check.at else step.at
  }

  function Taken(b: Board, step: Step, threshold: nat, gap: int): Board {
    match step
    case Checked(check) => Recorded(b, check, threshold, gap)
    case Retiring(prefix, seen, at) => Retired(b, prefix, seen, at)
  }

  function Run(steps: seq<Step>, threshold: nat, gap: int): Board {
    if |steps| == 0 then Board(map[], [])
    else Taken(Run(steps[..|steps| - 1], threshold, gap), steps[|steps| - 1], threshold, gap)
  }

  ghost predicate InTime(steps: seq<Step>) {
    forall i, j | 0 <= i < j < |steps| :: TimeOf(steps[i]) <= TimeOf(steps[j])
  }

  // ---------------------------------------------------------------- a target's own checks

  /** How many checks at the end of a history all went one way. */
  function Trailing(history: seq<Check>, ok: bool): nat {
    if |history| == 0 || history[|history| - 1].ok != ok then 0
    else 1 + Trailing(history[..|history| - 1], ok)
  }

  /** Down once a failing run reaches the threshold, until a good run does. */
  predicate Down(history: seq<Check>, threshold: nat) {
    if |history| == 0 then false
    else if Trailing(history, false) >= threshold then true
    else if Trailing(history, true) >= threshold then false
    else Down(history[..|history| - 1], threshold)
  }

  /** A target's checks since it was last retired while down. */
  function History(steps: seq<Step>, target: string, threshold: nat): seq<Check> {
    if |steps| == 0 then [] else
    var earlier := History(steps[..|steps| - 1], target, threshold);
    match steps[|steps| - 1]
    case Checked(check) => if check.target == target then earlier + [check] else earlier
    case Retiring(prefix, seen, at) => if Down(earlier, threshold) && Absent(target, prefix, seen) then [] else earlier
  }

  /** Where the unbroken run at the end of a history begins. */
  function RunStart(history: seq<Check>, gap: int): (start: nat)
    requires |history| > 0
    ensures start < |history|
  {
    var n := |history|;
    if n > 1 && WithinGap(history[n - 2].at, history[n - 1].at, gap) then RunStart(history[..n - 1], gap) else n - 1
  }

  lemma {:induction false} RunStartIs(history: seq<Check>, gap: int, k: nat)
    requires k < |history|
    ensures RunStart(history, gap) <= k
            <==> forall i | k < i < |history| :: WithinGap(history[i - 1].at, history[i].at, gap)
    decreases |history|
  {
    var n := |history|;
    var front := history[..n - 1];
    if k < n - 1 {
      RunStartIs(front, gap, k);
      if WithinGap(history[n - 2].at, history[n - 1].at, gap) {
        forall i | k < i < n ensures WithinGap(history[i - 1].at, history[i].at, gap)
          <==> i == n - 1 || WithinGap(front[i - 1].at, front[i].at, gap) {
        }
      }
    }
  }

  /** That run is the longest suffix whose neighbouring checks are in order and all within the gap. */
  lemma RunStartMeans(history: seq<Check>, gap: int, k: nat)
    requires k < |history|
    ensures RunStart(history, gap) <= k
            <==> forall i | k < i < |history| :: 0 <= history[i].at - history[i - 1].at <= gap
  {
    RunStartIs(history, gap, k);
    hide RunStart;
    if RunStart(history, gap) <= k {
      forall i | k < i < |history| ensures 0 <= history[i].at - history[i - 1].at <= gap {
        assert WithinGap(history[i - 1].at, history[i].at, gap);
      }
    } else {
      var i :| k < i < |history| && !WithinGap(history[i - 1].at, history[i].at, gap);
      assert !(0 <= history[i].at - history[i - 1].at <= gap);
    }
  }

  // ---------------------------------------------------------------- the fold refines the history

  ghost predicate StreakFits(streak: Option<Streak>, history: seq<Check>, gap: int) {
    if |history| == 0 then streak.None?
    else
      && streak.Some?
      && streak.value.okRun == Trailing(history, true)
      && streak.value.failRun == Trailing(history, false)
      && streak.value.lastAt == history[|history| - 1].at
      && streak.value.observedSince == history[RunStart(history, gap)].at
  }

  ghost predicate AnyOpen(incidents: seq<Incident>, target: string) {
    exists i :: 0 <= i < |incidents| && IsOpen(incidents[i], target)
  }

  ghost predicate AtMostOneOpen(incidents: seq<Incident>, target: string) {
    forall i, j | 0 <= i < j < |incidents| :: !(IsOpen(incidents[i], target) && IsOpen(incidents[j], target))
  }

  ghost predicate Fits(b: Board, target: string, history: seq<Check>, threshold: nat, gap: int) {
    && StreakFits(StreakOf(b, target), history, gap)
    && (AnyOpen(b.incidents, target) <==> Down(history, threshold))
    && AtMostOneOpen(b.incidents, target)
  }

  lemma StreakAdvances(streak: Option<Streak>, history: seq<Check>, check: Check, gap: int)
    requires StreakFits(streak, history, gap)
    ensures StreakFits(Some(Advanced(streak, check.ok, check.at, gap)), history + [check], gap)
  {
    var next := history + [check];
    assert next[..|next| - 1] == history;
    if |history| > 0 {
      assert next[|next| - 2] == history[|history| - 1];
      assert next[RunStart(history, gap)] == history[RunStart(history, gap)];
    }
  }

  lemma OpenIdMeans(incidents: seq<Incident>, target: string)
    ensures OpenId(incidents, target).Some? <==> AnyOpen(incidents, target)
  {
  }

  /** One target's incidents after a check of it: the open one is explained, closed, or a new one opened. */
  lemma RecordedOpens(b: Board, check: Check, threshold: nat, gap: int)
    requires AtMostOneOpen(b.incidents, check.target) && threshold >= 1
    ensures var after := Recorded(b, check, threshold, gap);
            var streak := Advanced(StreakOf(b, check.target), check.ok, check.at, gap);
            && AtMostOneOpen(after.incidents, check.target)
            && (AnyOpen(after.incidents, check.target)
                <==> streak.failRun >= threshold || (AnyOpen(b.incidents, check.target) && streak.okRun < threshold))
  {
    var streak := Advanced(StreakOf(b, check.target), check.ok, check.at, gap);
    assert streak.failRun == 0 || streak.okRun == 0;
    hide Advanced;
    var target := check.target;
    var open := OpenId(b.incidents, target);
    var explained := Explained(b.incidents, open, check);
    var after := Recorded(b, check, threshold, gap).incidents;
    OpenIdMeans(b.incidents, target);
    assert forall i | 0 <= i < |explained| :: IsOpen(explained[i], target) <==> IsOpen(b.incidents[i], target);
    match ChangeOf(b, check, threshold, gap)
    case Some(Opened) =>
      assert IsOpen(after[|explained|], target);
    case Some(Closed) =>
      assert forall i | 0 <= i < |after| :: !IsOpen(after[i], target);
    case None =>
      if open.Some? {
        assert IsOpen(after[open.value], target);
      }
  }

  lemma RecordedElsewhere(b: Board, check: Check, target: string, threshold: nat, gap: int)
    requires check.target != target
    ensures var after := Recorded(b, check, threshold, gap);
            && StreakOf(after, target) == StreakOf(b, target)
            && (AnyOpen(after.incidents, target) <==> AnyOpen(b.incidents, target))
            && (AtMostOneOpen(b.incidents, target) ==> AtMostOneOpen(after.incidents, target))
  {
    hide Advanced;
    var after := Recorded(b, check, threshold, gap).incidents;
    assert forall i | 0 <= i < |b.incidents| :: IsOpen(after[i], target) <==> IsOpen(b.incidents[i], target);
  }

  lemma RetiredOpens(b: Board, target: string, prefix: string, seen: set<string>, at: int)
    ensures var after := Retired(b, prefix, seen, at);
            && (AnyOpen(after.incidents, target) <==> AnyOpen(b.incidents, target) && !Absent(target, prefix, seen))
            && (AtMostOneOpen(b.incidents, target) ==> AtMostOneOpen(after.incidents, target))
            && StreakOf(after, target)
               == if AnyOpen(b.incidents, target) && Absent(target, prefix, seen) then None else StreakOf(b, target)
  {
    hide Absent;
    var after := Retired(b, prefix, seen, at).incidents;
    assert forall i | 0 <= i < |after| ::
      IsOpen(after[i], target) <==> IsOpen(b.incidents[i], target) && !Absent(target, prefix, seen);
    assert target in StaleTargets(b.incidents, prefix, seen)
           <==> AnyOpen(b.incidents, target) && Absent(target, prefix, seen) by {
      if i :| 0 <= i < |b.incidents| && IsOpen(b.incidents[i], target) && Absent(target, prefix, seen) {
        assert b.incidents[i] in b.incidents;
      }
    }
  }

  lemma {:induction false} DownAfter(history: seq<Check>, check: Check, threshold: nat)
    requires threshold >= 1
    ensures Down(history + [check], threshold)
            <==> Trailing(history + [check], false) >= threshold
                 || (Down(history, threshold) && Trailing(history + [check], true) < threshold)
  {
    assert (history + [check])[..|history|] == history;
  }

  /**
   * After any history at all, a target's streak row holds its trailing runs and its observed run, it has
   * at most one incident open, and one is open exactly while the target is down.
   */
  lemma {:induction false} TablesFitHistories(steps: seq<Step>, target: string, threshold: nat, gap: int)
    requires threshold >= 1
    ensures Fits(Run(steps, threshold, gap), target, History(steps, target, threshold), threshold, gap)
    decreases |steps|
  {
    if |steps| > 0 {
      var front, last := steps[..|steps| - 1], steps[|steps| - 1];
      var b, history := Run(front, threshold, gap), History(front, target, threshold);
      TablesFitHistories(front, target, threshold, gap);
      match last
      case Checked(check) =>
        if check.target == target {
          CheckFits(b, check, history, threshold, gap);
        } else {
          RecordedElsewhere(b, check, target, threshold, gap);
          hide Recorded, AnyOpen, AtMostOneOpen, StreakOf, StreakFits;
        }
      case Retiring(prefix, seen, at) =>
        RetiredOpens(b, target, prefix, seen, at);
        hide Retired, AnyOpen, AtMostOneOpen, StreakOf;
    }
  }

  lemma CheckFits(b: Board, check: Check, history: seq<Check>, threshold: nat, gap: int)
    requires threshold >= 1 && Fits(b, check.target, history, threshold, gap)
    ensures Fits(Recorded(b, check, threshold, gap), check.target, history + [check], threshold, gap)
  {
    var after := Recorded(b, check, threshold, gap);
    assert StreakOf(after, check.target) == Some(Advanced(StreakOf(b, check.target), check.ok, check.at, gap));
    hide Recorded, AnyOpen, AtMostOneOpen, StreakOf, Advanced;
    StreakAdvances(StreakOf(b, check.target), history, check, gap);
    RecordedOpens(b, check, threshold, gap);
    DownAfter(history, check, threshold);
  }

  // ---------------------------------------------------------------- when an outage began, and why

  predicate Telling(check: Check) {
    !check.ok && check.reason != ""
  }

  /** The check that took the target down, which has been down after every check since. */
  predicate OpensAt(history: seq<Check>, threshold: nat, k: int) {
    0 <= k < |history| && !Down(history[..k], threshold)
      && forall j | k < j <= |history| :: Down(history[..j], threshold)
  }

  /** The reason of the latest check since the outage began to name one, else of the one it began with. */
  function LatestReason(history: seq<Check>, k: nat): string
    requires k < |history|
    decreases |history|
  {
    var last := |history| - 1;
    if last == k || Telling(history[last]) then history[last].reason else LatestReason(history[..last], k)
  }

  /** Told at one check and not since, or not at all since the one it began with. */
  lemma {:induction false} LatestReasonIs(history: seq<Check>, k: nat, j: nat)
    requires k <= j < |history| && (j == k || Telling(history[j]))
    requires forall i | j < i < |history| :: !Telling(history[i])
    ensures LatestReason(history, k) == history[j].reason
    decreases |history|
  {
    if j < |history| - 1 {
      LatestReasonIs(history[..|history| - 1], k, j);
    }
  }

  /** What an open incident says of its target's checks. */
  ghost predicate Tells(incident: Incident, history: seq<Check>, threshold: nat) {
    exists k :: OpensAt(history, threshold, k) && incident.openedAt == history[k].at
                && incident.reason == LatestReason(history, k)
  }

  ghost predicate OpenOnesTell(incidents: seq<Incident>, target: string, history: seq<Check>, threshold: nat) {
    forall i | 0 <= i < |incidents| && IsOpen(incidents[i], target) :: Tells(incidents[i], history, threshold)
  }

  lemma StillTells(incident: Incident, after: Incident, history: seq<Check>, check: Check, threshold: nat)
    requires Tells(incident, history, threshold) && Down(history + [check], threshold)
    requires after.openedAt == incident.openedAt
             && after.reason == if Telling(check) then check.reason else incident.reason
    ensures Tells(after, history + [check], threshold)
  {
    var k :| OpensAt(history, threshold, k) && incident.openedAt == history[k].at
             && incident.reason == LatestReason(history, k);
    var next := history + [check];
    assert next[..|history|] == history;
    forall j | k < j <= |next| ensures Down(next[..j], threshold) {
      if j <= |history| {
        assert next[..j] == history[..j];
      } else {
        assert next[..j] == next;
      }
    }
    assert next[..k] == history[..k] && next[k] == history[k];
    assert OpensAt(next, threshold, k);
  }

  lemma BeginsToTell(incident: Incident, history: seq<Check>, check: Check, threshold: nat)
    requires !Down(history, threshold) && Down(history + [check], threshold)
    requires incident.openedAt == check.at && incident.reason == check.reason
    ensures Tells(incident, history + [check], threshold)
  {
    var next := history + [check];
    assert next[..|history|] == history && next[..|next|] == next;
    assert OpensAt(next, threshold, |history|);
  }

  lemma CheckTells(b: Board, check: Check, history: seq<Check>, threshold: nat, gap: int)
    requires threshold >= 1 && Fits(b, check.target, history, threshold, gap)
    requires OpenOnesTell(b.incidents, check.target, history, threshold)
    ensures OpenOnesTell(Recorded(b, check, threshold, gap).incidents, check.target, history + [check], threshold)
  {
    CheckFits(b, check, history, threshold, gap);
    OpenIdMeans(b.incidents, check.target);
    var after := Recorded(b, check, threshold, gap).incidents;
    assert AnyOpen(after, check.target) <==> Down(history + [check], threshold);
    hide Advanced, Tells, Down, StreakFits;
    forall i | 0 <= i < |after| && IsOpen(after[i], check.target)
      ensures Tells(after[i], history + [check], threshold) {
      assert AnyOpen(after, check.target);
      if i < |b.incidents| {
        assert IsOpen(b.incidents[i], check.target);
        StillTells(b.incidents[i], after[i], history, check, threshold);
      } else {
        BeginsToTell(after[i], history, check, threshold);
      }
    }
  }

  /**
   * In every run, an open incident began at the check that took its target down, and gives the latest
   * reason named since.
   */
  lemma {:induction false} OpenIncidentsTell(steps: seq<Step>, target: string, threshold: nat, gap: int)
    requires threshold >= 1
    ensures OpenOnesTell(Run(steps, threshold, gap).incidents, target, History(steps, target, threshold), threshold)
    decreases |steps|
  {
    if |steps| > 0 {
      var front, last := steps[..|steps| - 1], steps[|steps| - 1];
      var b, history := Run(front, threshold, gap), History(front, target, threshold);
      OpenIncidentsTell(front, target, threshold, gap);
      TablesFitHistories(front, target, threshold, gap);
      match last
      case Checked(check) =>
        if check.target == target {
          CheckTells(b, check, history, threshold, gap);
        } else {
          OthersTell(b, check, target, history, threshold, gap);
        }
      case Retiring(prefix, seen, at) =>
        hide Absent, Tells, StreakFits;
        forall i | 0 <= i < |b.incidents| && IsOpen(b.incidents[i], target) ensures AnyOpen(b.incidents, target) {
        }
    }
  }

  lemma OthersTell(b: Board, check: Check, target: string, history: seq<Check>, threshold: nat, gap: int)
    requires check.target != target && OpenOnesTell(b.incidents, target, history, threshold)
    ensures OpenOnesTell(Recorded(b, check, threshold, gap).incidents, target, history, threshold)
  {
    hide Advanced, Tells;
  }

  /** A failing run at the threshold means an incident is open, a good run there that none is. */
  lemma RunsDecide(steps: seq<Step>, target: string, threshold: nat, gap: int)
    requires threshold >= 1 && target in Run(steps, threshold, gap).streaks
    ensures var b := Run(steps, threshold, gap);
            && (b.streaks[target].failRun >= threshold ==> AnyOpen(b.incidents, target))
            && (b.streaks[target].okRun >= threshold ==> !AnyOpen(b.incidents, target))
            && (b.streaks[target].failRun == 0 <==> b.streaks[target].okRun > 0)
  {
    TablesFitHistories(steps, target, threshold, gap);
    hide AnyOpen, AtMostOneOpen, Run;
  }

  // ---------------------------------------------------------------- opens and closes alternate

  function ChangeAt(b: Board, step: Step, target: string, threshold: nat, gap: int): Option<Change> {
    match step
    case Checked(check) => if check.target == target then ChangeOf(b, check, threshold, gap) else None
    case Retiring(prefix, seen, at) => if target in StaleTargets(b.incidents, prefix, seen) then Some(Closed) else None
  }

  function Changes(steps: seq<Step>, target: string, threshold: nat, gap: int): seq<Change> {
    if |steps| == 0 then [] else
    var front := steps[..|steps| - 1];
    var change := ChangeAt(Run(front, threshold, gap), steps[|steps| - 1], target, threshold, gap);
    Changes(front, target, threshold, gap) + if change.Some? then [change.value] else []
  }

  /** What one step announces is what it does to the target's open incident. */
  lemma ChangeIsTold(b: Board, step: Step, target: string, threshold: nat, gap: int)
    requires threshold >= 1 && AtMostOneOpen(b.incidents, target)
    ensures var change := ChangeAt(b, step, target, threshold, gap);
            var after := Taken(b, step, threshold, gap);
            && (change == Some(Opened) ==> !AnyOpen(b.incidents, target) && AnyOpen(after.incidents, target))
            && (change == Some(Closed) ==> AnyOpen(b.incidents, target) && !AnyOpen(after.incidents, target))
            && (change == None ==> (AnyOpen(b.incidents, target) <==> AnyOpen(after.incidents, target)))
  {
    match step
    case Checked(check) =>
      if check.target == target {
        RecordedOpens(b, check, threshold, gap);
        OpenIdMeans(b.incidents, target);
        assert check.ok ==> Advanced(StreakOf(b, target), check.ok, check.at, gap).failRun == 0;
        assert !check.ok ==> Advanced(StreakOf(b, target), check.ok, check.at, gap).okRun == 0;
        hide AnyOpen, Recorded, Advanced, AtMostOneOpen;
      } else {
        RecordedElsewhere(b, check, target, threshold, gap);
        hide AnyOpen, Recorded;
      }
    case Retiring(prefix, seen, at) =>
      RetiredOpens(b, target, prefix, seen, at);
      StaleMeansOpen(b.incidents, target, prefix, seen);
      hide AnyOpen, Retired, StaleTargets, Absent;
  }

  lemma StaleMeansOpen(incidents: seq<Incident>, target: string, prefix: string, seen: set<string>)
    ensures target in StaleTargets(incidents, prefix, seen)
            <==> AnyOpen(incidents, target) && Absent(target, prefix, seen)
  {
    hide Absent;
    if i :| 0 <= i < |incidents| && IsOpen(incidents[i], target) && Absent(target, prefix, seen) {
      assert incidents[i] in incidents;
    }
  }

  /** From an opening on, every other change is a closing. */
  predicate Alternating(changes: seq<Change>) {
    forall i | 0 <= i < |changes| :: changes[i] == if i % 2 == 0 then Opened else Closed
  }

  lemma OneMoreChange(changes: seq<Change>, change: Option<Change>, was: bool, now: bool)
    requires Alternating(changes) && (was <==> |changes| % 2 == 1)
    requires match change case Some(Opened) => !was && now case Some(Closed) => was && !now case None => was == now
    ensures var all := changes + (if change.Some? then [change.value] else []);
            Alternating(all) && (now <==> |all| % 2 == 1)
  {
  }

  /** A target's announcements start with an opening and alternate; an odd number leaves it open. */
  lemma {:induction false} ChangesAlternate(steps: seq<Step>, target: string, threshold: nat, gap: int)
    requires threshold >= 1
    ensures var changes := Changes(steps, target, threshold, gap);
            Alternating(changes) && (AnyOpen(Run(steps, threshold, gap).incidents, target) <==> |changes| % 2 == 1)
    decreases |steps|
  {
    if |steps| > 0 {
      var front, last := steps[..|steps| - 1], steps[|steps| - 1];
      var b := Run(front, threshold, gap);
      ChangesAlternate(front, target, threshold, gap);
      assert AtMostOneOpen(b.incidents, target) by {
        TablesFitHistories(front, target, threshold, gap);
        hide AnyOpen, AtMostOneOpen, StreakFits, Run;
      }
      ChangeIsTold(b, last, target, threshold, gap);
      assert Run(steps, threshold, gap) == Taken(b, last, threshold, gap);
      hide AnyOpen, Taken, ChangeAt, AtMostOneOpen, Run, Alternating;
      OneMoreChange(Changes(front, target, threshold, gap), ChangeAt(b, last, target, threshold, gap),
                    AnyOpen(b.incidents, target), AnyOpen(Taken(b, last, threshold, gap).incidents, target));
    }
  }

  // ---------------------------------------------------------------- outages in time

  /** Outages in the order they opened: of one target, each closed before the next opened. */
  ghost predicate Ordered(incidents: seq<Incident>, until: int) {
    && (forall i | 0 <= i < |incidents| :: incidents[i].openedAt <= until
          && (incidents[i].closedAt.Some? ==> incidents[i].openedAt <= incidents[i].closedAt.value <= until))
    && (forall i, j | 0 <= i < j < |incidents| && incidents[i].target == incidents[j].target ::
          incidents[i].closedAt.Some? && incidents[i].closedAt.value <= incidents[j].openedAt)
  }

  lemma RecordedStaysOrdered(b: Board, check: Check, threshold: nat, gap: int, until: int)
    requires Ordered(b.incidents, until) && until <= check.at
    ensures Ordered(Recorded(b, check, threshold, gap).incidents, check.at)
  {
    hide Advanced;
  }

  lemma RetiredStaysOrdered(b: Board, prefix: string, seen: set<string>, at: int, until: int)
    requires Ordered(b.incidents, until) && until <= at
    ensures Ordered(Retired(b, prefix, seen, at).incidents, at)
  {
    hide Absent;
  }

  lemma {:induction false} RunsStayOrdered(steps: seq<Step>, threshold: nat, gap: int, until: int)
    requires InTime(steps) && (|steps| > 0 ==> TimeOf(steps[|steps| - 1]) <= until)
    ensures Ordered(Run(steps, threshold, gap).incidents, until)
    decreases |steps|
  {
    if |steps| > 0 {
      var front, last := steps[..|steps| - 1], steps[|steps| - 1];
      var b := Run(front, threshold, gap);
      RunsStayOrdered(front, threshold, gap, TimeOf(last));
      match last
      case Checked(check) => RecordedStaysOrdered(b, check, threshold, gap, check.at);
      case Retiring(prefix, seen, at) => RetiredStaysOrdered(b, prefix, seen, at, at);
    }
  }

  predicate Covers(incident: Incident, target: string, instant: int) {
    && incident.target == target && incident.openedAt <= instant
    && (incident.closedAt.None? || instant < incident.closedAt.value)
  }

  predicate Covered(incidents: seq<Incident>, target: string, instant: int) {
    exists i :: 0 <= i < |incidents| && Covers(incidents[i], target, instant)
  }

  /** In every state reached in time order, no instant belongs to two outages of one target. */
  lemma OutagesAreDisjoint(steps: seq<Step>, threshold: nat, gap: int, target: string, instant: int, i: nat, j: nat)
    requires InTime(steps)
    requires i < |Run(steps, threshold, gap).incidents|
             && Covers(Run(steps, threshold, gap).incidents[i], target, instant)
    requires j < |Run(steps, threshold, gap).incidents|
             && Covers(Run(steps, threshold, gap).incidents[j], target, instant)
    ensures i == j
  {
    RunsStayOrdered(steps, threshold, gap, if |steps| > 0 then TimeOf(steps[|steps| - 1]) else 0);
    hide Run;
  }

  /** The steps taken up to and including an instant. */
  function Until(steps: seq<Step>, instant: int): (early: seq<Step>)
    ensures early <= steps
  {
    if |steps| > 0 && TimeOf(steps[|steps| - 1]) > instant then Until(steps[..|steps| - 1], instant) else steps
  }

  /** A later step does not rewrite the past. */
  lemma LaterStepsKeepCoverage(b: Board, step: Step, threshold: nat, gap: int, target: string, instant: int)
    requires instant < TimeOf(step)
    ensures Covered(Taken(b, step, threshold, gap).incidents, target, instant)
            <==> Covered(b.incidents, target, instant)
  {
    hide Advanced, Absent;
    var after := Taken(b, step, threshold, gap).incidents;
    assert forall i | 0 <= i < |b.incidents| ::
             Covers(after[i], target, instant) <==> Covers(b.incidents[i], target, instant);
  }

  lemma NowIsOpen(incidents: seq<Incident>, target: string, until: int)
    requires Ordered(incidents, until)
    ensures Covered(incidents, target, until) <==> AnyOpen(incidents, target)
  {
    assert forall i | 0 <= i < |incidents| :: Covers(incidents[i], target, until) <==> IsOpen(incidents[i], target);
  }

  /** The outage rows cover an instant exactly when the checks up to then had the target down. */
  lemma {:induction false} CoveredMeansDown(steps: seq<Step>, target: string, threshold: nat, gap: int, instant: int)
    requires InTime(steps) && threshold >= 1
    ensures Covered(Run(steps, threshold, gap).incidents, target, instant)
            <==> Down(History(Until(steps, instant), target, threshold), threshold)
    decreases |steps|
  {
    if |steps| > 0 && TimeOf(steps[|steps| - 1]) > instant {
      var front := steps[..|steps| - 1];
      CoveredMeansDown(front, target, threshold, gap, instant);
      LaterStepsKeepCoverage(Run(front, threshold, gap), steps[|steps| - 1], threshold, gap, target, instant);
      hide Taken, History, Covered;
    } else {
      RunsStayOrdered(steps, threshold, gap, instant);
      NowIsOpen(Run(steps, threshold, gap).incidents, target, instant);
      TablesFitHistories(steps, target, threshold, gap);
    }
  }

  // ---------------------------------------------------------------- uptime is exact

  /** How many milliseconds of a window satisfy a test. */
  ghost function Count(holds: int -> bool, since: int, now: int): nat
    decreases now - since
  {
    if now <= since then 0 else Count(holds, since, now - 1) + if holds(now - 1) then 1 else 0
  }

  lemma {:induction false} CountSum(p: int -> bool, q: int -> bool, r: int -> bool, since: int, now: int)
    requires forall t | since <= t < now :: (r(t) <==> p(t) || q(t)) && !(p(t) && q(t))
    ensures Count(r, since, now) == Count(p, since, now) + Count(q, since, now)
    decreases now - since
  {
    if now > since {
      CountSum(p, q, r, since, now - 1);
    }
  }

  lemma {:induction false} CountNone(p: int -> bool, since: int, now: int)
    requires forall t | since <= t < now :: !p(t)
    ensures Count(p, since, now) == 0
    decreases now - since
  {
    if now > since {
      CountNone(p, since, now - 1);
    }
  }

  lemma {:induction false} CountAtMost(p: int -> bool, since: int, now: int)
    requires since <= now
    ensures Count(p, since, now) <= now - since
    decreases now - since
  {
    if now > since {
      CountAtMost(p, since, now - 1);
    }
  }

  lemma {:induction false} ClippedCounts(outage: Incident, target: string, since: int, now: int)
    ensures Count(t => Covers(outage, target, t), since, now)
            == if outage.target == target then Clipped(outage, since, now) else 0
    decreases now - since
  {
    if now > since {
      ClippedCounts(outage, target, since, now - 1);
    }
  }

  /** Adding up clipped outages counts the covered milliseconds, since no two outages overlap. */
  lemma {:induction false} DownMillisCounts(incidents: seq<Incident>, target: string, since: int, now: int, until: int)
    requires Ordered(incidents, until)
    ensures DownMillis(incidents, target, since, now) == Count(t => Covered(incidents, target, t), since, now)
    decreases |incidents|
  {
    var covered := (t: int) => Covered(incidents, target, t);
    if |incidents| == 0 {
      CountNone(covered, since, now);
    } else {
      var front, last := incidents[..|incidents| - 1], incidents[|incidents| - 1];
      var earlier, newest := (t: int) => Covered(front, target, t), (t: int) => Covers(last, target, t);
      DownMillisCounts(front, target, since, now, until);
      ClippedCounts(last, target, since, now);
      forall t | since <= t < now
        ensures (covered(t) <==> earlier(t) || newest(t)) && !(earlier(t) && newest(t))
      {
        CoveredSplits(incidents, until, target, t);
      }
      CountSum(earlier, newest, covered, since, now);
    }
  }

  lemma CoveredSplits(incidents: seq<Incident>, until: int, target: string, t: int)
    requires Ordered(incidents, until) && |incidents| > 0
    ensures var front, last := incidents[..|incidents| - 1], incidents[|incidents| - 1];
            && (Covered(incidents, target, t) <==> Covered(front, target, t) || Covers(last, target, t))
            && !(Covered(front, target, t) && Covers(last, target, t))
  {
    var front := incidents[..|incidents| - 1];
    assert forall i | 0 <= i < |front| :: front[i] == incidents[i];
  }

  /** The milliseconds of a window in which a target was down, read off its checks. */
  ghost function DownTime(steps: seq<Step>, target: string, threshold: nat, since: int, now: int): nat {
    Count(t => Down(History(Until(steps, t), target, threshold), threshold), since, now)
  }

  lemma {:induction false} CountSame(p: int -> bool, q: int -> bool, since: int, now: int)
    requires forall t | since <= t < now :: p(t) <==> q(t)
    ensures Count(p, since, now) == Count(q, since, now)
    decreases now - since
  {
    if now > since {
      CountSame(p, q, since, now - 1);
    }
  }

  /**
   * Uptime is exact: after any checks and retirements in time order it is the share of the window's
   * milliseconds in which the target was not down, and it is unknown exactly when the window is not
   * positive or the observed run misses one of its ends. The share never needs the clamp at zero.
   */
  lemma UptimeIsExact(steps: seq<Step>, target: string, threshold: nat, gap: int, since: int, now: int,
                      observed: Observed, checkGap: int)
    requires InTime(steps) && threshold >= 1
    ensures var uptime := Uptime(Run(steps, threshold, checkGap).incidents, target, since, now, observed, gap);
            var down := DownTime(steps, target, threshold, since, now);
            && (uptime.None? <==> now <= since || observed.since > since || !(0 <= now - observed.until <= gap))
            && (uptime.Some? ==>
                  down <= now - since
                  && uptime.value == PythonRound((now - since - down) as real / (now - since) as real * 100.0, 3))
  {
    hide Run, PythonRound, Percent, DownMillis, DownTime;
    OutagesAddUp(steps, target, threshold, checkGap, since, now);
    if now > since {
      ShareIsPositive(now - since, DownTime(steps, target, threshold, since, now));
    }
  }

  /**
   * A target's checks reach over a window: one no later than its start, none missing since, and the last
   * near its end.
   */
  ghost predicate Spans(history: seq<Check>, since: int, now: int, gap: int) {
    && |history| > 0 && 0 <= now - history[|history| - 1].at <= gap
    && exists k :: 0 <= k < |history| && history[k].at <= since && Gapless(history, k, gap)
  }

  predicate Gapless(history: seq<Check>, k: int, gap: int)
    requires 0 <= k
  {
    forall i | k < i < |history| :: 0 <= history[i].at - history[i - 1].at <= gap
  }

  /** The observed run a target's row holds is the unbroken run its own checks end in. */
  lemma ObservedIsTheRun(steps: seq<Step>, target: string, threshold: nat, gap: int)
    requires threshold >= 1
    ensures var history := History(steps, target, threshold);
            ObservedOf(Run(steps, threshold, gap), target)
            == if |history| == 0 then None
               else Some(Observed(history[RunStart(history, gap)].at, history[|history| - 1].at))
  {
    TablesFitHistories(steps, target, threshold, gap);
    hide Run, AnyOpen, AtMostOneOpen, Trailing;
  }

  /** What the board shows for a target: no score without an observed run. */
  function Score(b: Board, target: string, since: int, now: int, gap: int): Option<real> {
    match ObservedOf(b, target)
    case None => None
    case Some(observed) => Uptime(b.incidents, target, since, now, observed, gap)
  }

  /** The run begins no later than an instant exactly when some check that early has no gap after it. */
  lemma RunReachesBack(history: seq<Check>, since: int, gap: int)
    requires |history| > 0
    ensures history[RunStart(history, gap)].at <= since
            <==> exists k :: 0 <= k < |history| && history[k].at <= since && Gapless(history, k, gap)
  {
    var start := RunStart(history, gap);
    RunStartMeans(history, gap, start);
    if history[start].at <= since {
      assert Gapless(history, start, gap);
    }
    if k :| 0 <= k < |history| && history[k].at <= since && Gapless(history, k, gap) {
      RunStartMeans(history, gap, k);
      RunAscends(history, start, k, gap);
    }
  }

  lemma {:induction false} RunAscends(history: seq<Check>, first: nat, last: nat, gap: int)
    requires first <= last < |history| && Gapless(history, first, gap)
    ensures history[first].at <= history[last].at
    decreases last
  {
    if first < last {
      RunAscends(history, first, last - 1, gap);
      assert 0 <= history[last].at - history[last - 1].at;
    }
  }

  /**
   * After any checks and retirements in time order a target has a score exactly when its own checks span
   * the window with no gap, and the score is the share of the window its checks did not have it down.
   */
  lemma ScoreIsEarned(steps: seq<Step>, target: string, threshold: nat, since: int, now: int, gap: int)
    requires InTime(steps) && threshold >= 1
    ensures var score := Score(Run(steps, threshold, gap), target, since, now, gap);
            var down := DownTime(steps, target, threshold, since, now);
            && (score.Some? <==> since < now && Spans(History(steps, target, threshold), since, now, gap))
            && (score.Some? ==>
                  score.value == PythonRound((now - since - down) as real / (now - since) as real * 100.0, 3))
  {
    var b, history := Run(steps, threshold, gap), History(steps, target, threshold);
    ObservedIsTheRun(steps, target, threshold, gap);
    hide Run, DownTime, PythonRound, Uptime, History, RunStart, Gapless;
    if |history| > 0 {
      RunReachesBack(history, since, gap);
      UptimeIsExact(steps, target, threshold, gap, since, now, ObservedOf(b, target).value, gap);
    }
  }

  lemma OutagesAddUp(steps: seq<Step>, target: string, threshold: nat, gap: int, since: int, now: int)
    requires InTime(steps) && threshold >= 1
    ensures DownMillis(Run(steps, threshold, gap).incidents, target, since, now)
            == DownTime(steps, target, threshold, since, now)
    ensures now > since ==> DownTime(steps, target, threshold, since, now) <= now - since
  {
    var incidents := Run(steps, threshold, gap).incidents;
    var until := if |steps| > 0 then TimeOf(steps[|steps| - 1]) else 0;
    var covered := (t: int) => Covered(incidents, target, t);
    var down := (t: int) => Down(History(Until(steps, t), target, threshold), threshold);
    RunsStayOrdered(steps, threshold, gap, until);
    DownMillisCounts(incidents, target, since, now, until);
    forall t | since <= t < now ensures covered(t) <==> down(t) {
      CoveredMeansDown(steps, target, threshold, gap, t);
    }
    CountSame(covered, down, since, now);
    if now > since {
      CountAtMost(down, since, now);
    }
  }

  lemma ShareIsPositive(window: int, down: int)
    requires 0 <= down <= window && window > 0
    ensures Percent(window, down) == (window - down) as real / window as real * 100.0
  {
    var share := (window - down) as real / window as real;
    assert share * window as real == (window - down) as real;
    assert share < 0.0 ==> share * window as real < 0.0;
  }

  // ---------------------------------------------------------------- what a prefix reaches

  predicate Plain(prefix: string) {
    forall c | c in prefix :: c != '%' && c != '_'
  }

  lemma {:induction false} AnythingMatches(text: string)
    ensures Like(text, "%")
  {
    if |text| > 0 {
      AnythingMatches(text[1..]);
    }
  }

  /** Without wildcards of its own, a prefix matches every text that starts with it in any ASCII case. */
  lemma {:induction false} PlainPrefixMatches(text: string, prefix: string)
    requires Plain(prefix)
    ensures Like(text, prefix + "%") <==> StartsWith(Lower(text), Lower(prefix))
    decreases |prefix|
  {
    if |prefix| == 0 {
      assert prefix + "%" == "%";
      AnythingMatches(text);
    } else {
      assert prefix[0] in prefix && forall c | c in prefix[1..] :: c in prefix;
      assert (prefix + "%")[1..] == prefix[1..] + "%";
      if |text| > 0 {
        PlainPrefixMatches(text[1..], prefix[1..]);
        var t, p := Lower(text), Lower(prefix);
        assert Lower(text[1..]) == t[1..] && Lower(prefix[1..]) == p[1..];
        if StartsWith(t[1..], p[1..]) && t[0] == p[0] {
          assert t[..|p|] == [t[0]] + t[1..][..|p| - 1];
        }
        if StartsWith(t, p) {
          assert t[1..][..|p| - 1] == t[..|p|][1..];
        }
      }
    }
  }

  lemma {:induction false} PrefixMatches(text: string, prefix: string)
    requires StartsWith(text, prefix)
    ensures Like(text, prefix + "%")
    decreases |prefix|
  {
    if |prefix| == 0 {
      assert prefix + "%" == "%";
      AnythingMatches(text);
    } else {
      assert (prefix + "%")[1..] == prefix[1..] + "%";
      assert text[0] == prefix[0] && text[1..][..|prefix| - 1] == prefix[1..];
      PrefixMatches(text[1..], prefix[1..]);
    }
  }

  /**
   * The sweep gives up on a target that does not carry its prefix exactly when LIKE takes it for one
   * that does and the whole name is not among those seen.
   */
  lemma SweepReaches(target: string, prefix: string, seen: set<string>)
    ensures StartsWith(target, prefix) ==> (Absent(target, prefix, seen) <==> target[|prefix|..] !in seen)
    ensures !StartsWith(target, prefix) ==>
              (Absent(target, prefix, seen) <==> Like(target, prefix + "%") && target !in seen)
  {
    if StartsWith(target, prefix) {
      PrefixMatches(target, prefix);
    }
  }

  lemma {:induction false} SamePrefixMatches(common: string, text: string, pattern: string)
    requires Like(text, pattern)
    ensures Like(common + text, common + pattern)
    decreases |common|
  {
    if |common| == 0 {
      assert common + text == text && common + pattern == pattern;
    } else {
      assert (common + text)[1..] == common[1..] + text && (common + pattern)[1..] == common[1..] + pattern;
      SamePrefixMatches(common[1..], text, pattern);
      if common[0] == '%' {
        assert Like((common + text)[1..], common + pattern);
      }
    }
  }

  /** With an underscore in a host's name, the containers of a host named alike are given up on too. */
  lemma UnderscoreReachesAcross(before: string, c: char, after: string, container: string, seen: set<string>)
    requires c != '_' && before + [c] + after + container !in seen
    ensures var target, prefix := before + [c] + after + container, before + "_" + after;
            !StartsWith(target, prefix) && Absent(target, prefix, seen)
  {
    var target, prefix := before + [c] + after + container, before + "_" + after;
    assert target[|before|] == c && prefix[|before|] == '_';
    AnythingMatches(container);
    SamePrefixMatches(after, container, "%");
    LikeStep([c] + (after + container), "_" + (after + "%"));
    SamePrefixMatches(before, [c] + (after + container), "_" + (after + "%"));
    assert before + ([c] + (after + container)) == target && before + ("_" + (after + "%")) == prefix + "%";
  }

  lemma LikeStep(text: string, pattern: string)
    requires |text| > 0 && |pattern| > 0 && pattern[0] != '%'
    requires pattern[0] == '_' || pattern[0] == text[0]
    ensures Like(text, pattern) <==> Like(text[1..], pattern[1..])
  {
  }

  const CONTAINERS := "container:"

  /** The targets of one host's containers carry its name and a slash. */
  function HostPrefix(host: string): string {
    CONTAINERS + host + "/"
  }

  predicate IsHostName(host: string) {
    forall c | c in host :: c != '/'
  }

  lemma SlashEndsTheHost(host: string, other: string, name: string)
    requires IsHostName(host) && IsHostName(other)
    ensures StartsWith(Lower(HostPrefix(other) + name), Lower(HostPrefix(host))) <==> Lower(other) == Lower(host)
  {
    var text, prefix := Lower(HostPrefix(other) + name), Lower(HostPrefix(host));
    var n := |CONTAINERS|;
    assert forall i | 0 <= i < |other| :: text[n + i] == Folded(other[i]) && other[i] in other;
    assert forall i | 0 <= i < |host| :: prefix[n + i] == Folded(host[i]) && host[i] in host;
    assert text[n + |other|] == '/' && prefix[n + |host|] == '/';
    if StartsWith(text, prefix) {
      assert forall i | 0 <= i < |prefix| :: text[i] == prefix[i];
      assert |other| == |host|;
      assert forall i | 0 <= i < |other| :: Lower(other)[i] == text[n + i] && Lower(host)[i] == prefix[n + i];
    }
    if Lower(other) == Lower(host) {
      forall i | 0 <= i < |prefix| ensures text[i] == prefix[i] {
        if n <= i < n + |host| {
          assert Lower(other)[i - n] == Lower(host)[i - n];
        }
      }
      assert text[..|prefix|] == prefix;
    }
  }

  /**
   * With no wildcard in its name, a host's sweep reaches another host's containers exactly when case alone
   * tells the names apart.
   */
  lemma PlainHostsKeepApart(host: string, other: string, name: string)
    requires IsHostName(host) && IsHostName(other) && Plain(host)
    ensures Like(HostPrefix(other) + name, HostPrefix(host) + "%") <==> Lower(other) == Lower(host)
  {
    PlainPrefixMatches(HostPrefix(other) + name, HostPrefix(host));
    SlashEndsTheHost(host, other, name);
  }
}
