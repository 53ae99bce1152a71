/** The job queue, its workers and the shutdown protocol (src/governor.cpp), one interleaved step at a
    time. Every step is what one thread does while it holds one lock. */
module Jobs {
  import opened Checked
  import opened Model
  import G = Governing

  // ----------------------------------------------------------------- state

  datatype Job = Job(domain: u64, tick: u64, cancelFlag: bool, done: bool, status: Status, acted: bool)

  /** Where a worker is in its loop. */
  datatype Worker = Idle | Holding(job: nat) | Evaluating(job: nat) | Finishing(job: nat, status: Status) | Exited

  /** Where shutdown() is. */
  datatype Phase = Running | IntakeClosed | Abandoning | Returned

  datatype Request = Request(domain: u64, tick: u64)

  datatype System = System(
    runtime: G.World, jobs: seq<Job>, queue: seq<nat>, workers: seq<Worker>, abandoned: seq<nat>,
    admitted: seq<Request>, shuttingDown: bool, phase: Phase, maxPending: nat, completions: seq<nat>)

  datatype Action =
    | Admit(request: Request)                       // submit() passes the accepting check
    | Enqueue                                       // submit() takes the queue lock
    | Cancel(job: nat)
    | Pop(worker: nat)
    | Leave(worker: nat)
    | CheckFlag(worker: nat)
    | Evaluate(worker: nat, wall: u64, io: G.Io)
    | Complete(worker: nat)
    | CloseIntake                                   // shutdown() clears accepting_
    | ClearQueue                                    // shutdown() takes the queue lock
    | Abandon                                       // shutdown() completes one abandoned job
    | Join(io: G.Io)                                // every worker has left

  const CANCELLED := Failure(Cancelled, DECISION_CANCELLED)

  function WithWorker(s: System, i: nat, w: Worker): System
    requires i < |s.workers|
  {
    s.(workers := s.workers[i := w])
  }

  /** EvaluationJob::finish. */
  function Finish(s: System, j: nat, status: Status): System {
    if j >= |s.jobs| then s
    else s.(jobs := s.jobs[j := s.jobs[j].(done := true, status := status)], completions := s.completions + [j])
  }

  /** EvaluationJob::cancel: a completed job can no longer be cancelled. */
  function RaiseFlag(jobs: seq<Job>, j: nat): seq<Job> {
    if j >= |jobs| || jobs[j].done then jobs else jobs[j := jobs[j].(cancelFlag := true)]
  }

  function RaiseFlags(jobs: seq<Job>, queue: seq<nat>): (r: seq<Job>)
    ensures |r| == |jobs|
    ensures forall j :: 0 <= j < |jobs| ==> r[j] == jobs[j] || r[j] == jobs[j].(cancelFlag := true)
  {
    if queue == [] then jobs else RaiseFlag(RaiseFlags(jobs, queue[..|queue| - 1]), queue[|queue| - 1])
  }

  /** The runtime's part of a job: everything but the clock. */
  predicate Acts(before: G.World, after: G.World) { after.(clock := before.clock) != before }

  /** One step, or None when it is not enabled. */
  function Next(k: G.Digests, s: System, a: Action): Option<System> {
    match a
    case Admit(request) =>
      if s.runtime.accepting && s.workers != [] then Some(s.(admitted := s.admitted + [request])) else None
    case Enqueue =>
      if s.admitted == [] then None
      else
        var r, rest := s.admitted[0], s.(admitted := s.admitted[1..]);
        if s.shuttingDown || |s.queue| >= s.maxPending then Some(rest)
        else Some(rest.(jobs := s.jobs + [Job(r.domain, r.tick, false, false, Success, false)],
                        queue := s.queue + [|s.jobs|]))
    case Cancel(j) => if j < |s.jobs| then Some(s.(jobs := RaiseFlag(s.jobs, j))) else None
    case Pop(i) =>
      if i < |s.workers| && s.workers[i].Idle? && s.queue != []
      then Some(WithWorker(s, i, Holding(s.queue[0])).(queue := s.queue[1..])) else None
    case Leave(i) =>
      if i < |s.workers| && s.workers[i].Idle? && s.queue == [] && s.shuttingDown
      then Some(WithWorker(s, i, Exited)) else None
    case CheckFlag(i) =>
      if i < |s.workers| && s.workers[i].Holding? && s.workers[i].job < |s.jobs| then
        var j := s.workers[i].job;
        Some(WithWorker(s, i, if s.jobs[j].cancelFlag then Finishing(j, CANCELLED) else Evaluating(j)))
      else None
    case Evaluate(i, wall, io) =>
      if i < |s.workers| && s.workers[i].Evaluating? && s.workers[i].job < |s.jobs| then
        var j := s.workers[i].job;
        var r := G.EvaluateDomain(k, s.runtime, s.jobs[j].domain, s.jobs[j].tick, s.jobs[j].cancelFlag, wall, io);
        Some(WithWorker(s, i, Finishing(j, r.status))
               .(runtime := r.world, jobs := s.jobs[j := s.jobs[j].(acted := Acts(s.runtime, r.world))]))
      else None
    case Complete(i) =>
      if i < |s.workers| && s.workers[i].Finishing?
      then Some(Finish(WithWorker(s, i, Idle), s.workers[i].job, s.workers[i].status)) else None
    case CloseIntake =>
      if s.phase.Running? then Some(s.(runtime := s.runtime.(accepting := false), phase := IntakeClosed)) else None
    case ClearQueue =>
      if s.phase.IntakeClosed?
      then Some(s.(shuttingDown := true, jobs := RaiseFlags(s.jobs, s.queue), abandoned := s.queue, queue := [],
                   phase := Abandoning))
      else None
    case Abandon =>
      if s.phase.Abandoning? && s.abandoned != []
      then Some(Finish(s.(abandoned := s.abandoned[1..]), s.abandoned[0], CANCELLED)) else None
    case Join(io) =>
      if s.phase.Abandoning? && s.abandoned == [] && (forall i :: 0 <= i < |s.workers| ==> s.workers[i].Exited?)
      then Some(s.(runtime := G.Persist(s.runtime, true, io).world, phase := Returned)) else None
  }

  // ------------------------------------------------------------- invariant

  function Carries(w: Worker, j: nat): nat {
    if (w.Holding? || w.Evaluating? || w.Finishing?) && w.job == j then 1 else 0
  }

  function CarriedBy(ws: seq<Worker>, j: nat): nat {
    if ws == [] then 0 else CarriedBy(ws[..|ws| - 1], j) + Carries(ws[|ws| - 1], j)
  }

  function Count(js: seq<nat>, j: nat): nat {
    if js == [] then 0 else Count(js[..|js| - 1], j) + (if js[|js| - 1] == j then 1 else 0)
  }

  /** How often somebody still has to complete job `j`. */
  function Owed(s: System, j: nat): nat {
    Count(s.queue, j) + CarriedBy(s.workers, j) + Count(s.abandoned, j)
  }

  /** An accepted job is owed once or completed once, never both; nothing else is owed or completed. */
  predicate Balanced(s: System, j: nat) {
    && Owed(s, j) + Count(s.completions, j) == (if j < |s.jobs| then 1 else 0)
    && (j < |s.jobs| ==> (s.jobs[j].done <==> Count(s.completions, j) == 1))
  }

  ghost predicate Accounted(s: System) { forall j: nat :: Balanced(s, j) }

  /** Jobs that wait have not acted, and a job that acted never ends Cancelled. */
  predicate Uncommitted(jobs: seq<Job>, w: Worker) {
    match w
    case Holding(j) => j < |jobs| ==> !jobs[j].acted
    case Evaluating(j) => j < |jobs| ==> !jobs[j].acted
    case Finishing(j, status) => j < |jobs| && jobs[j].acted ==> status != CANCELLED
    case _ => true
  }

  predicate Waiting(jobs: seq<Job>, js: seq<nat>) {
    forall i :: 0 <= i < |js| ==> js[i] < |jobs| && !jobs[js[i]].acted
  }

  predicate CancelledActedNot(s: System) {
    && Waiting(s.jobs, s.queue) && Waiting(s.jobs, s.abandoned)
    && (forall i :: 0 <= i < |s.workers| ==> Uncommitted(s.jobs, s.workers[i]))
    && (forall j :: 0 <= j < |s.jobs| ==> s.jobs[j].done && s.jobs[j].acted ==> s.jobs[j].status != CANCELLED)
  }

  /** Once the queue is cleared it stays empty; workers leave only then; shutdown waits for all of them. */
  predicate Orderly(s: System) {
    && (s.shuttingDown <==> s.phase.Abandoning? || s.phase.Returned?)
    && (s.shuttingDown ==> s.queue == [])
    && (!s.shuttingDown ==> s.abandoned == [] && forall i :: 0 <= i < |s.workers| ==> !s.workers[i].Exited?)
    && (s.phase.Returned? ==> s.abandoned == [] && forall i :: 0 <= i < |s.workers| ==> s.workers[i].Exited?)
  }

  ghost predicate Sound(s: System) { Accounted(s) && CancelledActedNot(s) && Orderly(s) }

  /** The system right after open(): workers started, nothing submitted. */
  function Start(runtime: G.World, threads: nat, maxPending: nat): System {
    System(runtime, [], [], seq(threads, _ => Idle), [], [], false, Running, maxPending, [])
  }

  // ----------------------------------------------------------- bookkeeping

  lemma {:induction false} CarriedUpdate(ws: seq<Worker>, i: nat, w: Worker, j: nat)
    requires i < |ws|
    ensures CarriedBy(ws[i := w], j) + Carries(ws[i], j) == CarriedBy(ws, j) + Carries(w, j)
  {
    if i < |ws| - 1 {
      assert ws[i := w][..|ws| - 1] == ws[..|ws| - 1][i := w];
      CarriedUpdate(ws[..|ws| - 1], i, w, j);
    } else {
      assert ws[i := w][..|ws| - 1] == ws[..|ws| - 1];
    }
  }

  lemma {:induction false} CarriedMember(ws: seq<Worker>, i: nat, j: nat)
    requires i < |ws|
    ensures Carries(ws[i], j) <= CarriedBy(ws, j)
  {
    if i < |ws| - 1 {
      CarriedMember(ws[..|ws| - 1], i, j);
    }
  }

  /** Two workers that carry one job are counted twice. */
  lemma {:induction false} CarriedTwice(ws: seq<Worker>, a: nat, b: nat, j: nat)
    requires a < b < |ws|
    ensures Carries(ws[a], j) + Carries(ws[b], j) <= CarriedBy(ws, j)
  {
    if b == |ws| - 1 {
      CarriedMember(ws[..|ws| - 1], a, j);
    } else {
      CarriedTwice(ws[..|ws| - 1], a, b, j);
    }
  }

  lemma {:induction false} NobodyCarries(ws: seq<Worker>, j: nat)
    requires forall i :: 0 <= i < |ws| ==> Carries(ws[i], j) == 0
    ensures CarriedBy(ws, j) == 0
  {
    if ws != [] {
      NobodyCarries(ws[..|ws| - 1], j);
    }
  }

  lemma {:induction false} CountHead(js: seq<nat>, j: nat)
    requires js != []
    ensures Count(js, j) == (if js[0] == j then 1 else 0) + Count(js[1..], j)
  {
    if |js| > 1 {
      CountHead(js[..|js| - 1], j);
      assert js[..|js| - 1][1..] == js[1..][..|js| - 2];
    } else {
      assert js[..0] == [];
    }
  }

  lemma CountSnoc(js: seq<nat>, x: nat, j: nat)
    ensures Count(js + [x], j) == Count(js, j) + (if x == j then 1 else 0)
  {
    assert (js + [x])[..|js|] == js;
  }

  lemma {:induction false} CountMember(js: seq<nat>, i: nat)
    requires i < |js|
    ensures Count(js, js[i]) >= 1
  {
    if i < |js| - 1 {
      CountMember(js[..|js| - 1], i);
    }
  }

  // ------------------------------------------------------- what is accounted

  /** Completing a job that is owed. */
  lemma FinishAccounted(before: System, s: System, x: nat, status: Status)
    requires Accounted(before) && s.jobs == before.jobs && s.completions == before.completions && x < |s.jobs|
    requires forall j: nat :: Owed(before, j) == Owed(s, j) + (if j == x then 1 else 0)
    ensures Accounted(Finish(s, x, status))
  {
    var t := Finish(s, x, status);
    forall j: nat ensures Balanced(t, j) {
      assert Balanced(before, j);
      CountSnoc(s.completions, x, j);
      assert Owed(t, j) == Owed(s, j);
    }
  }

  lemma SameAccounts(s: System, t: System)
    requires Accounted(s) && t.completions == s.completions && |t.jobs| == |s.jobs|
    requires forall j: nat :: Owed(t, j) == Owed(s, j)
    requires forall j :: 0 <= j < |s.jobs| ==> t.jobs[j].done == s.jobs[j].done
    ensures Accounted(t)
  {
    forall j: nat ensures Balanced(t, j) {
      assert Balanced(s, j) && Owed(t, j) == Owed(s, j);
    }
  }

  /** Steps that move no job. */
  lemma StillAccounts(s: System, t: System)
    requires Accounted(s) && t.completions == s.completions && |t.jobs| == |s.jobs|
    requires t.queue == s.queue && t.workers == s.workers && t.abandoned == s.abandoned
    requires forall j :: 0 <= j < |s.jobs| ==> t.jobs[j].done == s.jobs[j].done
    ensures Accounted(t)
  {
    forall j: nat ensures Owed(t, j) == Owed(s, j) {
    }
    SameAccounts(s, t);
  }

  lemma PopAccounted(k: G.Digests, s: System, i: nat)
    requires Accounted(s) && Next(k, s, Pop(i)).Some?
    ensures Accounted(Next(k, s, Pop(i)).value)
  {
    var t := Next(k, s, Pop(i)).value;
    forall j: nat ensures Owed(t, j) == Owed(s, j) {
      CountHead(s.queue, j);
      CarriedUpdate(s.workers, i, Holding(s.queue[0]), j);
    }
    SameAccounts(s, t);
  }

  lemma CarryAccounted(s: System, t: System, i: nat, w: Worker)
    requires Accounted(s) && i < |s.workers| && forall j: nat :: Carries(w, j) == Carries(s.workers[i], j)
    requires t.workers == s.workers[i := w] && t.queue == s.queue && t.abandoned == s.abandoned
    requires t.completions == s.completions && |t.jobs| == |s.jobs|
    requires forall j :: 0 <= j < |s.jobs| ==> t.jobs[j].done == s.jobs[j].done
    ensures Accounted(t)
  {
    forall j: nat ensures Owed(t, j) == Owed(s, j) {
      CarriedUpdate(s.workers, i, w, j);
    }
    SameAccounts(s, t);
  }

  lemma CompleteAccounted(k: G.Digests, s: System, i: nat)
    requires Accounted(s) && Next(k, s, Complete(i)).Some?
    ensures Accounted(Next(k, s, Complete(i)).value)
  {
    var w := s.workers[i];
    var s1 := WithWorker(s, i, Idle);
    forall j: nat ensures Owed(s, j) == Owed(s1, j) + (if j == w.job then 1 else 0) {
      CarriedUpdate(s.workers, i, Idle, j);
    }
    CarriedInRange(s, i);
    assert Carries(w, w.job) == 1;
    FinishAccounted(s, s1, w.job, w.status);
  }

  lemma CarriedInRange(s: System, i: nat)
    requires Accounted(s) && i < |s.workers|
    ensures forall j: nat :: Carries(s.workers[i], j) == 1 ==> j < |s.jobs| && !s.jobs[j].done
  {
    forall j: nat | Carries(s.workers[i], j) == 1 ensures j < |s.jobs| && !s.jobs[j].done {
      CarriedMember(s.workers, i, j);
      assert Balanced(s, j);
    }
  }

  lemma EnqueueAccounted(k: G.Digests, s: System)
    requires Accounted(s) && Next(k, s, Enqueue).Some?
    ensures Accounted(Next(k, s, Enqueue).value)
  {
    var t := Next(k, s, Enqueue).value;
    forall j: nat ensures Balanced(t, j) {
      assert Balanced(s, j);
      CountSnoc(s.queue, |s.jobs|, j);
    }
  }

  lemma AbandonAccounted(k: G.Digests, s: System)
    requires Accounted(s) && Next(k, s, Abandon).Some?
    ensures Accounted(Next(k, s, Abandon).value)
  {
    var x, s1 := s.abandoned[0], s.(abandoned := s.abandoned[1..]);
    forall j: nat ensures Owed(s, j) == Owed(s1, j) + (if j == x then 1 else 0) {
      CountHead(s.abandoned, j);
    }
    CountMember(s.abandoned, 0);
    assert Balanced(s, x);
    FinishAccounted(s, s1, x, CANCELLED);
  }

  lemma ClearAccounted(k: G.Digests, s: System)
    requires Accounted(s) && Orderly(s) && Next(k, s, ClearQueue).Some?
    ensures Accounted(Next(k, s, ClearQueue).value)
  {
    var t := Next(k, s, ClearQueue).value;
    forall j: nat ensures Owed(t, j) == Owed(s, j) {
    }
    SameAccounts(s, t);
  }

  lemma EvaluateAccounted(k: G.Digests, s: System, a: Action)
    requires a.Evaluate? && Accounted(s) && Next(k, s, a).Some?
    ensures Accounted(Next(k, s, a).value)
  {
    var t := Next(k, s, a).value;
    hide G.EvaluateDomain, Acts;
    CarryAccounted(s, t, a.worker, t.workers[a.worker]);
  }

  lemma LoopAccounted(k: G.Digests, s: System, a: Action)
    requires (a.Leave? || a.CheckFlag?) && Accounted(s) && Next(k, s, a).Some?
    ensures Accounted(Next(k, s, a).value)
  {
    var t := Next(k, s, a).value;
    CarryAccounted(s, t, a.worker, t.workers[a.worker]);
  }

  lemma OtherAccounted(k: G.Digests, s: System, a: Action)
    requires (a.Admit? || a.Cancel? || a.CloseIntake? || a.Join?) && Accounted(s) && Next(k, s, a).Some?
    ensures Accounted(Next(k, s, a).value)
  {
    hide G.Persist;
    StillAccounts(s, Next(k, s, a).value);
  }

  lemma StepAccounted(k: G.Digests, s: System, a: Action)
    requires Accounted(s) && Orderly(s) && Next(k, s, a).Some?
    ensures Accounted(Next(k, s, a).value)
  {
    hide Next, Accounted;
    match a
    case Enqueue => EnqueueAccounted(k, s);
    case Pop(i) => PopAccounted(k, s, i);
    case Evaluate(_, _, _) => EvaluateAccounted(k, s, a);
    case Complete(i) => CompleteAccounted(k, s, i);
    case ClearQueue => ClearAccounted(k, s);
    case Abandon => AbandonAccounted(k, s);
    case Leave(_) => LoopAccounted(k, s, a);
    case CheckFlag(_) => LoopAccounted(k, s, a);
    case Admit(_) => OtherAccounted(k, s, a);
    case Cancel(_) => OtherAccounted(k, s, a);
    case CloseIntake => OtherAccounted(k, s, a);
    case Join(_) => OtherAccounted(k, s, a);
  }

  // ---------------------------------------------- cancelled jobs do not act

  /** An evaluation that changes anything but the clock does not report a cancellation, and one that
      finds the flag raised changes nothing else. */
  lemma CancelledEvaluationActsNot(k: G.Digests, w: G.World, domain: u64, tick: u64, flag: bool, wall: u64, io: G.Io)
    ensures var r := G.EvaluateDomain(k, w, domain, tick, flag, wall, io);
            && (flag ==> !Acts(w, r.world))
            && (r.status == CANCELLED ==> !Acts(w, r.world))
  {
    var w1 := w.(clock := G.EvaluationTick(w, tick));
    var (d, a) := G.DecideFor(k, w1, domain, w1.clock);
    StatusOfAppend(w1, G.RecordFor(k, w1, domain, d, a, wall), io);
    hide G.DecideFor, G.RecordFor, G.AppendJournal, G.Accepted;
  }

  lemma StatusOfAppend(w: G.World, r: AuditRecord, io: G.Io)
    ensures G.AppendJournal(w, r, io).status != CANCELLED
  {
    hide G.FrameFits;
  }

  /** A job one worker carries is nowhere else. */
  lemma OthersWait(s: System, i: nat, j: nat)
    requires Accounted(s) && i < |s.workers| && Carries(s.workers[i], j) == 1
    ensures j < |s.jobs| && !s.jobs[j].done && j !in s.queue && j !in s.abandoned
    ensures forall b :: 0 <= b < |s.workers| && b != i ==> Carries(s.workers[b], j) == 0
  {
    CarriedMember(s.workers, i, j);
    assert Balanced(s, j);
    if j in s.queue {
      var q :| 0 <= q < |s.queue| && s.queue[q] == j;
      CountMember(s.queue, q);
    }
    if j in s.abandoned {
      var q :| 0 <= q < |s.abandoned| && s.abandoned[q] == j;
      CountMember(s.abandoned, q);
    }
    forall b | 0 <= b < |s.workers| && b != i ensures Carries(s.workers[b], j) == 0 {
      if b < i {
        CarriedTwice(s.workers, b, i, j);
      } else {
        CarriedTwice(s.workers, i, b, j);
      }
    }
  }

  /** Marking a carried job changes nothing the others rely on. */
  lemma MarkCarried(s: System, t: System, i: nat, j: nat, job: Job, w: Worker)
    requires Accounted(s) && CancelledActedNot(s) && i < |s.workers| && Carries(s.workers[i], j) == 1
    requires j < |s.jobs| && t.jobs == s.jobs[j := job]
    requires t.workers == s.workers[i := w] && t.queue == s.queue && t.abandoned == s.abandoned
    requires Uncommitted(t.jobs, w) && (job.done && job.acted ==> job.status != CANCELLED)
    ensures CancelledActedNot(t)
  {
    OthersWait(s, i, j);
    forall b | 0 <= b < |t.workers| ensures Uncommitted(t.jobs, t.workers[b]) {
      assert Uncommitted(s.jobs, s.workers[b]);
      assert b != i ==> Carries(s.workers[b], j) == 0;
    }
  }

  lemma EvaluateKeepsPromise(k: G.Digests, s: System, a: Action)
    requires a.Evaluate? && Accounted(s) && CancelledActedNot(s) && Next(k, s, a).Some?
    ensures CancelledActedNot(Next(k, s, a).value)
  {
    var j := s.workers[a.worker].job;
    CancelledEvaluationActsNot(k, s.runtime, s.jobs[j].domain, s.jobs[j].tick, s.jobs[j].cancelFlag, a.wall, a.io);
    OthersWait(s, a.worker, j);
    hide G.EvaluateDomain, Acts;
    var t := Next(k, s, a).value;
    MarkCarried(s, t, a.worker, j, t.jobs[j], t.workers[a.worker]);
  }

  lemma CompleteKeepsPromise(k: G.Digests, s: System, a: Action)
    requires a.Complete? && Accounted(s) && CancelledActedNot(s) && Next(k, s, a).Some?
    ensures CancelledActedNot(Next(k, s, a).value)
  {
    var w := s.workers[a.worker];
    OthersWait(s, a.worker, w.job);
    assert Uncommitted(s.jobs, w);
    var t := Next(k, s, a).value;
    MarkCarried(s, t, a.worker, w.job, t.jobs[w.job], Idle);
  }

  lemma AbandonKeepsPromise(k: G.Digests, s: System)
    requires Accounted(s) && CancelledActedNot(s) && Next(k, s, Abandon).Some?
    ensures CancelledActedNot(Next(k, s, Abandon).value)
  {
    var t, j := Next(k, s, Abandon).value, s.abandoned[0];
    assert !s.jobs[j].acted;
    forall b | 0 <= b < |t.workers| ensures Uncommitted(t.jobs, t.workers[b]) {
      assert Uncommitted(s.jobs, s.workers[b]);
    }
    forall i | 0 <= i < |t.abandoned| ensures t.abandoned[i] < |t.jobs| && !t.jobs[t.abandoned[i]].acted {
      assert t.abandoned[i] == s.abandoned[i + 1];
    }
  }

  /** Raising flags does not touch what jobs have done. */
  lemma FlagsKeepPromise(s: System, t: System)
    requires CancelledActedNot(s) && |t.jobs| == |s.jobs| && t.workers == s.workers
    requires forall j :: 0 <= j < |s.jobs| ==> t.jobs[j] == s.jobs[j] || t.jobs[j] == s.jobs[j].(cancelFlag := true)
    requires (t.queue == s.queue && t.abandoned == s.abandoned) || (t.queue == [] && t.abandoned == s.queue)
    ensures CancelledActedNot(t)
  {
    forall b | 0 <= b < |t.workers| ensures Uncommitted(t.jobs, t.workers[b]) {
      assert Uncommitted(s.jobs, s.workers[b]);
    }
  }

  lemma MoveKeepsPromise(k: G.Digests, s: System, a: Action)
    requires a.Pop? || a.Leave? || a.CheckFlag? || a.Enqueue?
    requires Accounted(s) && CancelledActedNot(s) && Next(k, s, a).Some?
    ensures CancelledActedNot(Next(k, s, a).value)
  {
    var t := Next(k, s, a).value;
    if a.Pop? {
      assert !s.jobs[s.queue[0]].acted;
      forall i | 0 <= i < |t.queue| ensures t.queue[i] < |t.jobs| && !t.jobs[t.queue[i]].acted {
        assert t.queue[i] == s.queue[i + 1];
      }
    }
    forall b | 0 <= b < |t.workers| ensures Uncommitted(t.jobs, t.workers[b]) {
      assert Uncommitted(s.jobs, s.workers[b]);
      CarriedInRange(s, b);
    }
  }

  lemma FlagStepsKeepPromise(k: G.Digests, s: System, a: Action)
    requires a.Admit? || a.Cancel? || a.CloseIntake? || a.ClearQueue? || a.Join?
    requires CancelledActedNot(s) && Orderly(s) && Next(k, s, a).Some?
    ensures CancelledActedNot(Next(k, s, a).value)
  {
    hide G.Persist;
    FlagsKeepPromise(s, Next(k, s, a).value);
  }

  lemma StepKeepsPromise(k: G.Digests, s: System, a: Action)
    requires Sound(s) && Next(k, s, a).Some?
    ensures CancelledActedNot(Next(k, s, a).value)
  {
    hide Next, CancelledActedNot, Accounted;
    match a
    case Enqueue => MoveKeepsPromise(k, s, a);
    case Pop(_) => MoveKeepsPromise(k, s, a);
    case Leave(_) => MoveKeepsPromise(k, s, a);
    case CheckFlag(_) => MoveKeepsPromise(k, s, a);
    case Evaluate(_, _, _) => EvaluateKeepsPromise(k, s, a);
    case Complete(_) => CompleteKeepsPromise(k, s, a);
    case Abandon => AbandonKeepsPromise(k, s);
    case Admit(_) => FlagStepsKeepPromise(k, s, a);
    case Cancel(_) => FlagStepsKeepPromise(k, s, a);
    case CloseIntake => FlagStepsKeepPromise(k, s, a);
    case ClearQueue => FlagStepsKeepPromise(k, s, a);
    case Join(_) => FlagStepsKeepPromise(k, s, a);
  }

  // -------------------------------------------------------------- all runs

  lemma StepOrderly(k: G.Digests, s: System, a: Action)
    requires Orderly(s) && Next(k, s, a).Some?
    ensures Orderly(Next(k, s, a).value)
  {
    hide G.EvaluateDomain, Acts, G.Persist;
  }

  lemma StepSound(k: G.Digests, s: System, a: Action)
    requires Sound(s) && Next(k, s, a).Some?
    ensures Sound(Next(k, s, a).value)
  {
    StepAccounted(k, s, a);
    StepKeepsPromise(k, s, a);
    StepOrderly(k, s, a);
    hide Next;
  }

  /** A run takes the enabled ones of the given steps. */
  function Run(k: G.Digests, s: System, steps: seq<Action>): System {
    if steps == [] then s
    else
      var t := Run(k, s, steps[..|steps| - 1]);
      match Next(k, t, steps[|steps| - 1])
      case Some(u) => u
      case None => t
  }

  lemma {:induction false} RunSound(k: G.Digests, s: System, steps: seq<Action>)
    requires Sound(s)
    ensures Sound(Run(k, s, steps))
  {
    if steps != [] {
      var t, a := Run(k, s, steps[..|steps| - 1]), steps[|steps| - 1];
      RunSound(k, s, steps[..|steps| - 1]);
      hide Next, Sound;
      if Next(k, t, a).Some? {
        StepSound(k, t, a);
      }
    }
  }

  lemma StartSound(runtime: G.World, threads: nat, maxPending: nat)
    ensures Sound(Start(runtime, threads, maxPending))
  {
    var s := Start(runtime, threads, maxPending);
    forall j: nat ensures Balanced(s, j) {
      NobodyCarries(s.workers, j);
    }
  }

  /** Whatever the interleaving: no job is completed twice, completed is the same as done, a job that
      ended Cancelled never acted, and when shutdown returns every accepted job is done. */
  lemma JobsFinishExactlyOnce(k: G.Digests, runtime: G.World, threads: nat, maxPending: nat, steps: seq<Action>)
    ensures var s := Run(k, Start(runtime, threads, maxPending), steps);
            && (forall j :: 0 <= j < |s.jobs| ==>
                  && Count(s.completions, j) == (if s.jobs[j].done then 1 else 0)
                  && (s.jobs[j].done && s.jobs[j].status == CANCELLED ==> !s.jobs[j].acted))
            && (s.phase.Returned? ==> forall j :: 0 <= j < |s.jobs| ==> s.jobs[j].done)
  {
    var s := Run(k, Start(runtime, threads, maxPending), steps);
    StartSound(runtime, threads, maxPending);
    RunSound(k, Start(runtime, threads, maxPending), steps);
    hide Run, Start;
    forall j: nat | j < |s.jobs|
      ensures Count(s.completions, j) == (if s.jobs[j].done then 1 else 0)
      ensures s.phase.Returned? ==> s.jobs[j].done
    {
      assert Balanced(s, j);
      if s.phase.Returned? {
        NobodyCarries(s.workers, j);
      }
    }
  }

  // ------------------------------------------------- shutdown always finishes

  function Weight(w: Worker): nat {
    match w
    case Exited => 0
    case Idle => 1
    case Finishing(_, _) => 2
    case Evaluating(_) => 3
    case Holding(_) => 4
  }

  function Weights(ws: seq<Worker>): nat {
    if ws == [] then 0 else Weights(ws[..|ws| - 1]) + Weight(ws[|ws| - 1])
  }

  /** How much is left to do before shutdown returns. */
  function Remaining(s: System): nat {
    Weights(s.workers) + |s.abandoned| + (if s.phase.Abandoning? then 1 else 0)
  }

  lemma {:induction false} WeightsUpdate(ws: seq<Worker>, i: nat, w: Worker)
    requires i < |ws|
    ensures Weights(ws[i := w]) + Weight(ws[i]) == Weights(ws) + Weight(w)
  {
    if i < |ws| - 1 {
      assert ws[i := w][..|ws| - 1] == ws[..|ws| - 1][i := w];
      WeightsUpdate(ws[..|ws| - 1], i, w);
    } else {
      assert ws[i := w][..|ws| - 1] == ws[..|ws| - 1];
    }
  }

  /** A step of a worker or of shutdown itself, as opposed to one of a client. */
  predicate Drains(a: Action) {
    a.Leave? || a.CheckFlag? || a.Evaluate? || a.Complete? || a.Abandon? || a.Join?
  }

  /** Once the queue is cleared every step a client can take leaves the remaining work as it is and
      every other step shrinks it. */
  lemma DrainShrinks(k: G.Digests, s: System, a: Action)
    requires Orderly(s) && s.phase.Abandoning? && Next(k, s, a).Some?
    ensures var t := Next(k, s, a).value;
            if Drains(a) then Remaining(t) < Remaining(s) else Remaining(t) == Remaining(s) && t.phase == s.phase
  {
    hide G.EvaluateDomain, Acts, G.Persist, Weights;
    var t := Next(k, s, a).value;
    if a.Leave? || a.CheckFlag? || a.Evaluate? || a.Complete? {
      WeightsUpdate(s.workers, a.worker, t.workers[a.worker]);
    }
  }

  /** And as long as it has not returned some draining step is enabled: shutdown cannot get stuck. */
  lemma DrainNeverStuck(k: G.Digests, s: System) returns (a: Action)
    requires Sound(s) && s.phase.Abandoning?
    ensures Drains(a) && Next(k, s, a).Some?
  {
    var io := G.Io(true, true, true);
    hide G.EvaluateDomain, G.Persist;
    if s.abandoned != [] {
      return Abandon;
    }
    if i :| 0 <= i < |s.workers| && !s.workers[i].Exited? {
      CarriedInRange(s, i);
      match s.workers[i]
      case Idle => return Leave(i);
      case Holding(j) =>
        assert Carries(s.workers[i], j) == 1;
        return CheckFlag(i);
      case Evaluating(j) =>
        assert Carries(s.workers[i], j) == 1;
        return Evaluate(i, 0, io);
      case Finishing(_, _) => return Complete(i);
    }
    return Join(io);
  }
}
