/**
 * The queue the deliveries wait in: each job is chained onto the one before it, and jobs interleave call
 * by call wherever the chain lets them. It never does, and no failure holds up the jobs behind.
 */
module SerialQueue {
  import opened Options
  import opened Identity
  import opened Standing
  import opened BridgeStore
  import opened WebhookPlans
  import opened Delivery

  // ---------------------------------------------------------------- jobs and what may happen next

  /** A job that has begun holds the calls it has yet to make. */
  datatype Progress = Waiting | Running(rest: Effects, fuel: nat, dead: bool) | Settled

  datatype Job = Job(step: Step, progress: Progress)

  datatype Queue = Queue(store: Store, log: Effects, jobs: seq<Job>)

  /** A job arrives, begins, makes its next call, or settles; any job may be the one to move. */
  datatype Move = Arrives(step: Step) | Begins(i: nat) | Calls(i: nat) | Settles(i: nat)

  /** What a job is to do is read from the tables when it begins; an admin's change is made there and then. */
  function Begun(q: Queue, step: Step): (Store, Progress) {
    match step
    case Delivered(id, event, answers, fuel) => (q.store, Running(HandlePlan(q.store, id, event, answers), fuel, false))
    case Administered(rows, tags, links) =>
      (q.store.(rows := rows, tags := tags, links := links), Running([], 0, false))
  }

  /** `tail.then(job)`: a job may begin once the one before it has settled, or at once without the chain. */
  predicate MayBegin(q: Queue, i: nat, chained: bool) {
    i < |q.jobs| && q.jobs[i].progress.Waiting? && (chained && i > 0 ==> q.jobs[i - 1].progress.Settled?)
  }

  predicate MayCall(q: Queue, i: nat) {
    i < |q.jobs| && q.jobs[i].progress.Running? && !q.jobs[i].progress.dead && |q.jobs[i].progress.rest| > 0
  }

  /** A job settles when it has made its calls, or when one failed. */
  predicate MaySettle(q: Queue, i: nat) {
    i < |q.jobs| && q.jobs[i].progress.Running? && (q.jobs[i].progress.dead || |q.jobs[i].progress.rest| == 0)
  }

  predicate Possible(q: Queue, move: Move, chained: bool) {
    match move
    case Arrives(_) => true
    case Begins(i) => MayBegin(q, i, chained)
    case Calls(i) => MayCall(q, i)
    case Settles(i) => MaySettle(q, i)
  }

  function Progressed(jobs: seq<Job>, i: nat, progress: Progress): seq<Job>
    requires i < |jobs|
  {
    jobs[i := jobs[i].(progress := progress)]
  }

  function Moved(q: Queue, move: Move, chained: bool): Queue {
    if !Possible(q, move, chained) then q else
    match move
    case Arrives(step) => q.(jobs := q.jobs + [Job(step, Waiting)])
    case Begins(i) =>
      var (store, progress) := Begun(q, q.jobs[i].step);
      Queue(store, q.log, Progressed(q.jobs, i, progress))
    case Calls(i) =>
      var job := q.jobs[i].progress;
      var w := Act(World(q.store, q.log, job.fuel, job.dead), job.rest[0]);
      Queue(w.store, w.log, Progressed(q.jobs, i, Running(job.rest[1..], w.fuel, w.dead)))
    case Settles(i) => q.(jobs := Progressed(q.jobs, i, Settled))
  }

  function Scheduled(q: Queue, moves: seq<Move>, chained: bool): Queue
    decreases |moves|
  {
    if |moves| == 0 then q else Moved(Scheduled(q, moves[..|moves| - 1], chained), moves[|moves| - 1], chained)
  }

  function Steps(jobs: seq<Job>): (steps: seq<Step>)
    ensures |steps| == |jobs|
  {
    seq(|jobs|, i requires 0 <= i < |jobs| => jobs[i].step)
  }

  // ---------------------------------------------------------------- one at a time

  /** The first `n` jobs have settled, the next may be running, and the rest wait. */
  predicate InTurn(q: Queue, n: nat) {
    && n <= |q.jobs|
    && (forall i | 0 <= i < n :: q.jobs[i].progress.Settled?)
    && (n < |q.jobs| ==> !q.jobs[n].progress.Settled?)
    && (forall i | n < i < |q.jobs| :: q.jobs[i].progress.Waiting?)
  }

  predicate Same(w: World, store: Store, log: Effects) {
    w.store == store && w.log == log
  }

  /** What the running job has left to do takes the tables to where doing the jobs one by one would. */
  predicate Serial(q: Queue, n: nat, w: World)
    requires n <= |q.jobs|
  {
    var before := Run(w, Steps(q.jobs)[..n]);
    if n < |q.jobs| && q.jobs[n].progress.Running? then
      var job := q.jobs[n].progress;
      var after := Execute(World(q.store, q.log, job.fuel, job.dead), job.rest);
      Same(Deliver(before, q.jobs[n].step), after.store, after.log)
    else Same(before, q.store, q.log)
  }

  /** A step starts from the tables and the log alone. */
  lemma DeliverIgnoresFuel(v: World, w: World, step: Step)
    requires Same(v, w.store, w.log)
    ensures Same(Deliver(v, step), Deliver(w, step).store, Deliver(w, step).log)
  {
  }

  lemma StepsAfter(jobs: seq<Job>, i: nat, progress: Progress)
    requires i < |jobs|
    ensures Steps(Progressed(jobs, i, progress)) == Steps(jobs)
  {
  }

  lemma ArrivalKeeps(q: Queue, step: Step, n: nat, w: World)
    requires InTurn(q, n) && Serial(q, n, w)
    ensures var after := q.(jobs := q.jobs + [Job(step, Waiting)]); InTurn(after, n) && Serial(after, n, w)
  {
    var after := q.(jobs := q.jobs + [Job(step, Waiting)]);
    assert Steps(after.jobs)[..n] == Steps(q.jobs)[..n];
  }

  lemma BeginKeeps(q: Queue, i: nat, n: nat, w: World)
    requires InTurn(q, n) && Serial(q, n, w) && MayBegin(q, i, true)
    ensures i == n && InTurn(Moved(q, Begins(i), true), n) && Serial(Moved(q, Begins(i), true), n, w)
  {
    assert i == n;
    var (store, progress) := Begun(q, q.jobs[i].step);
    var before := Run(w, Steps(q.jobs)[..n]);
    StepsAfter(q.jobs, n, progress);
    DeliverIgnoresFuel(before, World(q.store, q.log, 0, false), q.jobs[n].step);
    BegunDelivers(q, q.jobs[n].step);
    hide Begun, Run, Deliver, Execute, Steps;
  }

  lemma BegunDelivers(q: Queue, step: Step)
    ensures Begun(q, step).1.Running?
    ensures var (store, job) := Begun(q, step);
            var after := Execute(World(store, q.log, job.fuel, job.dead), job.rest);
            Same(Deliver(World(q.store, q.log, 0, false), step), after.store, after.log)
  {
    hide HandlePlan;
  }

  lemma CallKeeps(q: Queue, i: nat, n: nat, w: World)
    requires InTurn(q, n) && Serial(q, n, w) && MayCall(q, i)
    ensures i == n && InTurn(Moved(q, Calls(i), true), n) && Serial(Moved(q, Calls(i), true), n, w)
  {
    var job := q.jobs[i].progress;
    var next := Act(World(q.store, q.log, job.fuel, job.dead), job.rest[0]);
    StepsAfter(q.jobs, i, Running(job.rest[1..], next.fuel, next.dead));
    hide Run, Deliver, Act, Steps;
  }

  lemma SettleKeeps(q: Queue, i: nat, n: nat, w: World)
    requires InTurn(q, n) && Serial(q, n, w) && MaySettle(q, i)
    ensures i == n && InTurn(Moved(q, Settles(i), true), n + 1) && Serial(Moved(q, Settles(i), true), n + 1, w)
  {
    var job := q.jobs[i].progress;
    var steps := Steps(q.jobs);
    StepsAfter(q.jobs, i, Settled);
    if job.dead {
      ExecuteDead(World(q.store, q.log, job.fuel, job.dead), job.rest);
    }
    assert steps[..n + 1][..n] == steps[..n] && steps[..n + 1][n] == q.jobs[n].step;
    assert Run(w, steps[..n + 1]) == Deliver(Run(w, steps[..n]), q.jobs[n].step);
    hide Deliver, Act, Steps;
  }

  /**
   * Through every schedule the jobs take their turns: those before some place have settled, at most the
   * one there is running, and tables and log are what performing them one by one leaves, short only of
   * what that one has yet to do.
   */
  lemma {:induction false} JobsTakeTurns(w: World, moves: seq<Move>) returns (n: nat)
    ensures var q := Scheduled(Queue(w.store, w.log, []), moves, true); InTurn(q, n) && Serial(q, n, w)
    decreases |moves|
  {
    var start := Queue(w.store, w.log, []);
    if |moves| == 0 {
      n := 0;
      assert Steps(start.jobs)[..0] == [];
    } else {
      var front, move := moves[..|moves| - 1], moves[|moves| - 1];
      n := JobsTakeTurns(w, front);
      var q := Scheduled(start, front, true);
      hide InTurn, Serial;
      if Possible(q, move, true) {
        match move
        case Arrives(step) => ArrivalKeeps(q, step, n, w);
        case Begins(i) => BeginKeeps(q, i, n, w);
        case Calls(i) => CallKeeps(q, i, n, w);
        case Settles(i) =>
          SettleKeeps(q, i, n, w);
          n := n + 1;
      }
    }
  }

  // ---------------------------------------------------------------- what the queue promises

  predicate AllSettled(q: Queue) {
    forall i | 0 <= i < |q.jobs| :: q.jobs[i].progress.Settled?
  }

  /**
   * However the calls of the jobs are scheduled, never are two in flight, and once all have settled they
   * ran in the order they came.
   */
  lemma QueueIsSerial(w: World, moves: seq<Move>)
    ensures var q := Scheduled(Queue(w.store, w.log, []), moves, true);
            && (forall i, j | 0 <= i < j < |q.jobs| :: !(q.jobs[i].progress.Running? && q.jobs[j].progress.Running?))
            && (AllSettled(q) ==> Same(Run(w, Steps(q.jobs)), q.store, q.log))
  {
    var n := JobsTakeTurns(w, moves);
    var q := Scheduled(Queue(w.store, w.log, []), moves, true);
    hide Scheduled, Run;
    if AllSettled(q) {
      assert n == |q.jobs|;
      assert Steps(q.jobs)[..n] == Steps(q.jobs);
    }
  }

  /** No job waits for ever on another's failure: while one has not settled, some job can move. */
  lemma NeverStuck(w: World, moves: seq<Move>)
    ensures var q := Scheduled(Queue(w.store, w.log, []), moves, true);
            !AllSettled(q) ==> exists i: nat :: MayBegin(q, i, true) || MayCall(q, i) || MaySettle(q, i)
  {
    var n := JobsTakeTurns(w, moves);
    var q := Scheduled(Queue(w.store, w.log, []), moves, true);
    hide Scheduled, Serial;
    if !AllSettled(q) {
      assert MayBegin(q, n, true) || MayCall(q, n) || MaySettle(q, n);
    }
  }

  // ---------------------------------------------------------------- without the chain

  /** An unbanned checkout whose session has no invite yet asks twice and then mints. */
  lemma CheckoutMints(store: Store, session: string, email: Address, tier: Tier, ans: Answers)
    requires OperationKey(Checkout(session)) !in store.bindings
    requires !IsBanned(TagOf(store, CheckoutPerson(store, None, email, ans)))
    ensures var plan := CheckoutPlan(store, Some(session), None, Some(email), tier, ans);
            && |plan| > 3 && plan[0] == Asked(Wizarr) && plan[1] == Asked(Libraries)
            && plan[2] == Minted(Some(OperationKey(Checkout(session))), ans.code)
  {
    hide CheckoutPerson, CheckoutRetiring, CheckoutResetting, TagOf, IssuedCode;
  }

  lemma {:induction false} ScheduledConcat(q: Queue, first: seq<Move>, rest: seq<Move>, chained: bool)
    ensures Scheduled(q, first + rest, chained) == Scheduled(Scheduled(q, first, chained), rest, chained)
    decreases |rest|
  {
    if |rest| == 0 {
      assert first + rest == first;
    } else {
      var all := first + rest;
      assert all[..|all| - 1] == first + rest[..|rest| - 1] && all[|all| - 1] == rest[|rest| - 1];
      ScheduledConcat(q, first, rest[..|rest| - 1], chained);
    }
  }

  lemma OneMove(q: Queue, move: Move, chained: bool)
    ensures Scheduled(q, [move], chained) == Moved(q, move, chained)
  {
    assert [move][..0] == [];
    assert Scheduled(q, [], chained) == q;
  }

  /** One call of a job with calls left, of a kind that leaves the tables alone. */
  lemma OneCall(q: Queue, i: nat)
    requires i < |q.jobs| && q.jobs[i].progress.Running? && !q.jobs[i].progress.dead && q.jobs[i].progress.fuel > 0
    requires |q.jobs[i].progress.rest| > 0 && (q.jobs[i].progress.rest[0].Asked? || q.jobs[i].progress.rest[0].Minted?)
    ensures var job := q.jobs[i].progress;
            Moved(q, Calls(i), false)
            == Queue(q.store, q.log + [job.rest[0]], Progressed(q.jobs, i, Running(job.rest[1..], job.fuel - 1, false)))
  {
  }

  lemma ThreeCalls(q: Queue, i: nat)
    requires i < |q.jobs| && q.jobs[i].progress.Running? && !q.jobs[i].progress.dead && q.jobs[i].progress.fuel > 2
    requires |q.jobs[i].progress.rest| > 2
    requires forall k | 0 <= k < 3 :: q.jobs[i].progress.rest[k].Asked? || q.jobs[i].progress.rest[k].Minted?
    ensures var job, after := q.jobs[i].progress, Scheduled(q, [Calls(i)] + [Calls(i)] + [Calls(i)], false);
            && after.store == q.store && after.log == q.log + job.rest[..3] && |after.jobs| == |q.jobs|
            && forall j | 0 <= j < |q.jobs| && j != i :: after.jobs[j] == q.jobs[j]
  {
    var job := q.jobs[i].progress;
    var one := Moved(q, Calls(i), false);
    var two := Moved(one, Calls(i), false);
    OneCall(q, i);
    OneCall(one, i);
    OneCall(two, i);
    hide Moved;
    OneMove(q, Calls(i), false);
    OneMove(one, Calls(i), false);
    OneMove(two, Calls(i), false);
    ScheduledConcat(q, [Calls(i)], [Calls(i)], false);
    ScheduledConcat(q, [Calls(i)] + [Calls(i)], [Calls(i)], false);
    assert q.log + job.rest[..3] == q.log + [job.rest[0]] + [job.rest[1]] + [job.rest[2]];
  }

  lemma BothBegin(q: Queue, a: Step, b: Step)
    requires q.jobs == [] && a.Delivered? && b.Delivered?
    ensures Scheduled(q, [Arrives(a)] + [Arrives(b)] + [Begins(0)] + [Begins(1)], false)
            == Queue(q.store, q.log, [Job(a, Running(HandlePlan(q.store, a.id, a.event, a.answers), a.fuel, false)),
                                      Job(b, Running(HandlePlan(q.store, b.id, b.event, b.answers), b.fuel, false))])
  {
    hide HandlePlan;
    var one := Moved(q, Arrives(a), false);
    var two := Moved(one, Arrives(b), false);
    var three := Moved(two, Begins(0), false);
    OneMove(q, Arrives(a), false);
    OneMove(one, Arrives(b), false);
    OneMove(two, Begins(0), false);
    OneMove(three, Begins(1), false);
    ScheduledConcat(q, [Arrives(a)], [Arrives(b)], false);
    ScheduledConcat(q, [Arrives(a)] + [Arrives(b)], [Begins(0)], false);
    ScheduledConcat(q, [Arrives(a)] + [Arrives(b)] + [Begins(0)], [Begins(1)], false);
  }

  /** One copy of a checkout, each copy answered by Wizarr in its own way. */
  function Copy(session: string, email: Address, tier: Tier, ans: Answers): Step {
    Delivered(None, CheckoutCompleted(Some(session), None, Some(email), tier), ans, 9)
  }

  function CopiesInterleaved(a: Step, b: Step): seq<Move> {
    [Arrives(a)] + [Arrives(b)] + [Begins(0)] + [Begins(1)]
    + ([Calls(0)] + [Calls(0)] + [Calls(0)]) + ([Calls(1)] + [Calls(1)] + [Calls(1)])
  }

  function UpToMint(session: string, code: string): Effects {
    [Asked(Wizarr), Asked(Libraries), Minted(Some(OperationKey(Checkout(session))), code)]
  }

  lemma CopyMints(store: Store, session: string, email: Address, tier: Tier, ans: Answers)
    requires OperationKey(Checkout(session)) !in store.bindings
    requires !IsBanned(TagOf(store, CheckoutPerson(store, None, email, ans)))
    ensures var copy := Copy(session, email, tier, ans);
            var plan := HandlePlan(store, copy.id, copy.event, copy.answers);
            && copy.Delivered? && copy.fuel == 9 && StartsQuietly(plan)
            && plan[..3] == UpToMint(session, ans.code)
  {
    CheckoutMints(store, session, email, tier, ans);
    hide CheckoutPlan, CheckoutPerson, TagOf, OperationKey;
    var copy := Copy(session, email, tier, ans);
    var plan := CheckoutPlan(store, Some(session), None, Some(email), tier, ans);
    assert HandlePlan(store, copy.id, copy.event, copy.answers) == plan + [] == plan;
  }

  predicate StartsQuietly(plan: Effects) {
    |plan| > 2 && forall k | 0 <= k < 3 :: plan[k].Asked? || plan[k].Minted?
  }

  lemma BothStart(q: Queue, a: Step, b: Step)
    requires q.jobs == [] && a.Delivered? && b.Delivered? && a.fuel > 2 && b.fuel > 2
    requires StartsQuietly(HandlePlan(q.store, a.id, a.event, a.answers))
    requires StartsQuietly(HandlePlan(q.store, b.id, b.event, b.answers))
    ensures Scheduled(q, CopiesInterleaved(a, b), false).log
            == q.log + HandlePlan(q.store, a.id, a.event, a.answers)[..3]
               + HandlePlan(q.store, b.id, b.event, b.answers)[..3]
  {
    var began := [Arrives(a)] + [Arrives(b)] + [Begins(0)] + [Begins(1)];
    var calls, more := [Calls(0)] + [Calls(0)] + [Calls(0)], [Calls(1)] + [Calls(1)] + [Calls(1)];
    BothBegin(q, a, b);
    hide HandlePlan, Scheduled;
    ScheduledConcat(q, began, calls, false);
    ScheduledConcat(q, began + calls, more, false);
    ThreeCalls(Scheduled(q, began, false), 0);
    ThreeCalls(Scheduled(q, began + calls, false), 1);
  }

  /** What the chain is for: without it two copies of one checkout, neither failing, each mint an invite. */
  lemma WithoutTheChainBothMint(q: Queue, session: string, email: Address, tier: Tier, first: Answers, second: Answers)
    requires q.jobs == [] && OperationKey(Checkout(session)) !in q.store.bindings
    requires !IsBanned(TagOf(q.store, CheckoutPerson(q.store, None, email, first)))
    requires !IsBanned(TagOf(q.store, CheckoutPerson(q.store, None, email, second)))
    ensures var moves := CopiesInterleaved(Copy(session, email, tier, first), Copy(session, email, tier, second));
            Scheduled(q, moves, false).log == q.log + UpToMint(session, first.code) + UpToMint(session, second.code)
  {
    var a, b := Copy(session, email, tier, first), Copy(session, email, tier, second);
    CopyMints(q.store, session, email, tier, first);
    CopyMints(q.store, session, email, tier, second);
    hide *;
    BothStart(q, a, b);
  }
}
