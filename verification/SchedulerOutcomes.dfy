/** How tasks end, and what became of them, in every history of the scheduler: the causes are steps
    that the workers took. */
module SchedulerOutcomes {
  import opened Basics
  import opened ModuleKey
  import opened Scheduler

  // ----- histories

  /** States, and the actions that lead from each to the next. */
  datatype Trace = Trace(run: seq<State>, acts: seq<Action>)

  ghost predicate History(tr: Trace) {
    && |tr.run| == |tr.acts| + 1 && Init(tr.run[0])
    && forall i :: 0 <= i < |tr.acts| ==> Stepped(tr, i)
  }

  ghost predicate Stepped(tr: Trace, i: int)
    requires |tr.run| == |tr.acts| + 1
  {
    0 <= i < |tr.acts| && Enabled(tr.run[i], tr.acts[i]) && tr.run[i + 1] == Next(tr.run[i], tr.acts[i])
  }

  lemma {:induction false} HistoryRuns(tr: Trace)
    requires History(tr)
    ensures Run(tr.run)
  {
    forall i | 0 <= i < |tr.run| - 1 ensures Step(tr.run[i], tr.run[i + 1]) { assert Stepped(tr, i); }
  }

  ghost predicate Leads(s: State, a: Action, s': State) { Enabled(s, a) && s' == Next(s, a) }

  lemma {:induction false} SomeAction(s: State, s': State) returns (a: Action)
    requires Step(s, s')
    ensures Leads(s, a, s')
  {
    a :| Enabled(s, a) && s' == Next(s, a);
  }

  /** Every run has such a history. */
  lemma {:induction false} RunHasHistory(run: seq<State>) returns (tr: Trace)
    requires Run(run)
    ensures History(tr) && tr.run == run
  {
    var acts: seq<Action> := [];
    while |acts| < |run| - 1
      invariant |acts| < |run|
      invariant forall i :: 0 <= i < |acts| ==> Leads(run[i], acts[i], run[i + 1])
    {
      assert Step(run[|acts|], run[|acts| + 1]);
      var a := SomeAction(run[|acts|], run[|acts| + 1]);
      acts := acts + [a];
    }
    tr := Trace(run, acts);
    forall i | 0 <= i < |acts| ensures Stepped(tr, i) { assert Leads(run[i], acts[i], run[i + 1]); }
  }

  lemma {:induction false} Known(tr: Trace, i: nat)
    requires History(tr) && i < |tr.run|
    ensures Inv(tr.run[i])
  {
    HistoryRuns(tr);
    RunKeepsInv(tr.run, i);
  }

  // ----- how a task may end

  ghost predicate Moves(s: State, a: Action, pc: Pc) { a.Proceed? && a.w in s.workers && s.workers[a.w] == pc }

  /** The process answered the request of the task. */
  ghost predicate AnsweredBy(s: State, a: Action, t: TaskId) {
    a.Proceed? && a.w in s.workers && s.workers[a.w].Running? && s.workers[a.w].task == t && !a.c.failed
  }

  /** The task was too old when it was received, its flight gave no process, or the exchange with
      the process failed. */
  ghost predicate LostBy(s: State, a: Action, t: TaskId) {
    || (Moves(s, a, Received(t)) && a.c.expired)
    || Moves(s, a, Resolved(t, None))
    || (a.Proceed? && a.w in s.workers && s.workers[a.w].Running? && s.workers[a.w].task == t && a.c.failed)
  }

  ghost predicate Answered(tr: Trace, i: nat, t: TaskId)
    requires |tr.run| == |tr.acts| + 1
  {
    exists j: nat :: j < i && j < |tr.acts| && AnsweredBy(tr.run[j], tr.acts[j], t)
  }

  ghost predicate Lost(tr: Trace, i: nat, t: TaskId)
    requires |tr.run| == |tr.acts| + 1
  {
    exists j: nat :: j < i && j < |tr.acts| && LostBy(tr.run[j], tr.acts[j], t)
  }

  /** A task that is over ended as was decided, one that is not is undecided, or with the worker
      that is about to end it so. */
  ghost predicate Verdict(s: State, t: TaskId, answered: bool, lost: bool)
    requires t in s.tasks
  {
    var task := s.tasks[t];
    && !(answered && lost)
    && (task.phase == Succeeded ==> answered) && (task.phase == Failed ==> lost)
    && (!Terminal(task.phase) ==>
          match task.worker
          case None => !answered && !lost
          case Some(w) => w in s.workers && (answered <==> s.workers[w] == Completing(t, false)) && (lost <==> s.workers[w] == Completing(t, true)))
  }

  lemma {:induction false} WorkDecides(pc: Pc, w: Wid, task: Task, sh: Shared, c: Chance)
    requires CanWork(pc, task, sh, c) && PhaseFits(pc, task.phase)
    ensures var e, t := Work(pc, w, task, sh, c), pc.task;
      && (e.pc == Completing(t, false) <==> pc.Running? && !c.failed)
      && (e.pc == Completing(t, true) <==> (pc.Received? && c.expired) || (pc.Resolved? && pc.outcome == None) || (pc.Running? && c.failed))
      && (e.task.phase == Succeeded <==> pc == Completing(t, false))
      && (e.task.phase == Failed <==> pc == Completing(t, true))
  {
  }

  lemma {:induction false} VerdictProceed(s: State, w: Wid, c: Chance, t: TaskId, answered: bool, lost: bool)
    requires Life(s) && Enabled(s, Proceed(w, c)) && t in s.tasks && Verdict(s, t, answered, lost)
    ensures var a := Proceed(w, c);
      t in Next(s, a).tasks && Verdict(Next(s, a), t, answered || AnsweredBy(s, a, t), lost || LostBy(s, a, t))
  {
    assert TaskLife(s, t) && WorkerLife(s, w);
    var pc, task := s.workers[w], s.tasks[s.workers[w].task];
    WorkLife(pc, w, task, s.shared, c);
    if pc.task == t { WorkDecides(pc, w, task, s.shared, c); }
  }

  lemma {:induction false} VerdictOther(s: State, a: Action, t: TaskId, answered: bool, lost: bool)
    requires Life(s) && Enabled(s, a) && !a.Proceed? && t in s.tasks && Verdict(s, t, answered, lost)
    ensures t in Next(s, a).tasks && Verdict(Next(s, a), t, answered, lost) && !AnsweredBy(s, a, t) && !LostBy(s, a, t)
  {
    assert TaskLife(s, t);
    if a.Notify? { assert WorkerLife(s, a.w); }
  }

  lemma {:induction false} VerdictStep(s: State, a: Action, t: TaskId, answered: bool, lost: bool)
    requires Life(s) && Enabled(s, a) && t in s.tasks && Verdict(s, t, answered, lost)
    ensures t in Next(s, a).tasks && Verdict(Next(s, a), t, answered || AnsweredBy(s, a, t), lost || LostBy(s, a, t))
  {
    if a.Proceed? { VerdictProceed(s, a.w, a.c, t, answered, lost); } else { VerdictOther(s, a, t, answered, lost); }
  }

  lemma {:induction false} NewTask(s: State, a: Action, t: TaskId)
    requires Life(s) && Enabled(s, a) && t !in s.tasks && t in Next(s, a).tasks
    ensures Verdict(Next(s, a), t, false, false) && !AnsweredBy(s, a, t) && !LostBy(s, a, t)
  {
    assert a.Submit?;
  }

  lemma {:induction false} TasksStay(s: State, a: Action)
    requires Life(s) && Enabled(s, a)
    ensures s.tasks.Keys <= Next(s, a).tasks.Keys
    ensures forall t :: t !in s.tasks ==> !AnsweredBy(s, a, t) && !LostBy(s, a, t)
  {
    if a.Proceed? { assert WorkerLife(s, a.w); }
  }

  /** What happened before a task was submitted does not concern it. */
  lemma {:induction false} UnknownStep(tr: Trace, i: nat, t: TaskId)
    requires History(tr) && i < |tr.acts| && t !in tr.run[i].tasks
    ensures !AnsweredBy(tr.run[i], tr.acts[i], t) && !LostBy(tr.run[i], tr.acts[i], t)
  {
    assert Stepped(tr, i);
    Known(tr, i);
    TasksStay(tr.run[i], tr.acts[i]);
  }

  lemma {:induction false} UnknownBefore(tr: Trace, i: nat, t: TaskId)
    requires History(tr) && i < |tr.acts| && t !in tr.run[i + 1].tasks
    ensures t !in tr.run[i].tasks
  {
    assert Stepped(tr, i);
    Known(tr, i);
    TasksStay(tr.run[i], tr.acts[i]);
  }

  lemma {:induction false} Undecided(tr: Trace, i: nat, t: TaskId)
    requires History(tr) && i < |tr.run| && t !in tr.run[i].tasks
    ensures !Answered(tr, i, t) && !Lost(tr, i, t)
  {
    if i > 0 {
      UnknownBefore(tr, i - 1, t);
      UnknownStep(tr, i - 1, t);
      Undecided(tr, i - 1, t);
      DecidedMore(tr, i - 1, t);
    }
  }

  lemma {:induction false} DecidedMore(tr: Trace, i: nat, t: TaskId)
    requires |tr.run| == |tr.acts| + 1 && i < |tr.acts|
    ensures Answered(tr, i + 1, t) <==> Answered(tr, i, t) || AnsweredBy(tr.run[i], tr.acts[i], t)
    ensures Lost(tr, i + 1, t) <==> Lost(tr, i, t) || LostBy(tr.run[i], tr.acts[i], t)
  {
  }

  lemma {:induction false} VerdictNext(tr: Trace, i: nat, t: TaskId)
    requires History(tr) && i < |tr.acts| && t in tr.run[i].tasks && Verdict(tr.run[i], t, Answered(tr, i, t), Lost(tr, i, t))
    ensures t in tr.run[i + 1].tasks && Verdict(tr.run[i + 1], t, Answered(tr, i + 1, t), Lost(tr, i + 1, t))
  {
    assert Stepped(tr, i);
    Known(tr, i);
    VerdictStep(tr.run[i], tr.acts[i], t, Answered(tr, i, t), Lost(tr, i, t));
    DecidedMore(tr, i, t);
  }

  lemma {:induction false} VerdictFirst(tr: Trace, i: nat, t: TaskId)
    requires History(tr) && i < |tr.acts| && t !in tr.run[i].tasks && t in tr.run[i + 1].tasks
    ensures Verdict(tr.run[i + 1], t, Answered(tr, i + 1, t), Lost(tr, i + 1, t))
  {
    assert Stepped(tr, i);
    Known(tr, i);
    NewTask(tr.run[i], tr.acts[i], t);
    Undecided(tr, i, t);
    DecidedMore(tr, i, t);
  }

  lemma {:induction false} VerdictHolds(tr: Trace, i: nat, t: TaskId)
    requires History(tr) && i < |tr.run| && t in tr.run[i].tasks
    ensures Verdict(tr.run[i], t, Answered(tr, i, t), Lost(tr, i, t))
  {
    if i > 0 {
      if t in tr.run[i - 1].tasks {
        VerdictHolds(tr, i - 1, t);
        VerdictNext(tr, i - 1, t);
      } else {
        VerdictFirst(tr, i - 1, t);
      }
    }
  }

  /** A task that is over has succeeded if and only if its process answered, and failed if and only
      if it had expired, its flight gave no process, or the exchange failed; never both. */
  lemma {:induction false} EndsAsDecided(tr: Trace, i: nat, t: TaskId)
    requires History(tr) && i < |tr.run| && t in tr.run[i].tasks
    ensures var phase := tr.run[i].tasks[t].phase;
      && (phase == Succeeded <==> Terminal(phase) && Answered(tr, i, t))
      && (phase == Failed <==> Terminal(phase) && Lost(tr, i, t))
    ensures !(Answered(tr, i, t) && Lost(tr, i, t))
    ensures tr.run[i].tasks[t].phase == Succeeded ==> tr.run[i].tasks[t].pid.Some?
  {
    VerdictHolds(tr, i, t);
    if tr.run[i].tasks[t].phase == Succeeded {
      var j: nat :| j < i && j < |tr.acts| && AnsweredBy(tr.run[j], tr.acts[j], t);
      RanBefore(tr, j, i, t);
    }
  }

  /** A task whose process answered had reached Executing with that process, and keeps its id. */
  lemma {:induction false} RanBefore(tr: Trace, j: nat, i: nat, t: TaskId)
    requires History(tr) && j < i < |tr.run| && j < |tr.acts| && AnsweredBy(tr.run[j], tr.acts[j], t)
    ensures t in tr.run[j].tasks && tr.run[j].tasks[t].phase == Executing && tr.run[j].tasks[t].pid.Some?
    ensures t in tr.run[i].tasks && tr.run[i].tasks[t].pid == tr.run[j].tasks[t].pid
  {
    Known(tr, j);
    var s, w := tr.run[j], tr.acts[j].w;
    assert WorkerLife(s, w) && WorkerOk(s, w) && TaskPid(s, t);
    HistoryRuns(tr);
    TasksMoveForward(tr.run, j, i, t);
  }

  // ----- where processes come from

  /** The leader of the flight could not start a process, or did not find the one it started. */
  ghost predicate FailedBy(s: State, a: Action, f: Fid) {
    a.Proceed? && a.w in s.workers && s.workers[a.w].Leading? && s.workers[a.w].flight == f &&
    match s.workers[a.w].stage
    case Starting => a.c.startFails
    case Checking(p) => p !in s.shared.live
    case _ => false
  }

  /** The leader of the flight found the process alive, one recorded before or one it started. */
  ghost predicate GaveBy(s: State, a: Action, f: Fid, p: Pid) {
    a.Proceed? && a.w in s.workers && s.workers[a.w].Leading? && s.workers[a.w].flight == f &&
    (s.workers[a.w].stage == Looking(p) || s.workers[a.w].stage == Checking(p)) && p in s.shared.live
  }

  ghost predicate OutcomeBy(s: State, a: Action, f: Fid, o: Outcome) {
    match o case None => FailedBy(s, a, f) case Some(p) => GaveBy(s, a, f, p)
  }

  /** The flight came to this outcome. */
  ghost predicate Came(tr: Trace, i: nat, f: Fid, o: Outcome)
    requires |tr.run| == |tr.acts| + 1
  {
    exists j: nat :: j < i && j < |tr.acts| && OutcomeBy(tr.run[j], tr.acts[j], f, o)
  }

  ghost predicate InFlight(s: State, w: Wid, t: TaskId, f: Fid) {
    w in s.workers && (s.workers[w].Leading? || s.workers[w].Following?) && s.workers[w].task == t && s.workers[w].flight == f
  }

  /** The task led the flight or followed it. */
  ghost predicate Joined(tr: Trace, i: nat, t: TaskId, f: Fid) {
    exists j: nat, w :: j <= i && j < |tr.run| && InFlight(tr.run[j], w, t, f)
  }

  /** A flight that the task joined came to this outcome. */
  ghost predicate Backed(tr: Trace, i: nat, t: TaskId, o: Outcome)
    requires |tr.run| == |tr.acts| + 1
  {
    exists f :: Joined(tr, i, t, f) && Came(tr, i, f, o)
  }

  lemma {:induction false} BackedLater(tr: Trace, i: nat, j: nat, t: TaskId, o: Outcome)
    requires |tr.run| == |tr.acts| + 1 && i <= j && Backed(tr, i, t, o)
    ensures Backed(tr, j, t, o)
  {
    var f :| Joined(tr, i, t, f) && Came(tr, i, f, o);
    CameLater(tr, i, j, f, o);
    var k: nat, w :| k <= i && k < |tr.run| && InFlight(tr.run[k], w, t, f);
    assert Joined(tr, j, t, f);
  }

  lemma {:induction false} CameLater(tr: Trace, i: nat, j: nat, f: Fid, o: Outcome)
    requires |tr.run| == |tr.acts| + 1 && i <= j && Came(tr, i, f, o)
    ensures Came(tr, j, f, o)
  {
    var k: nat :| k < i && k < |tr.acts| && OutcomeBy(tr.run[k], tr.acts[k], f, o);
  }

  /** What a worker has is backed by the flight it was in. */
  ghost predicate WorkerBacked(tr: Trace, i: nat, w: Wid)
    requires |tr.run| == |tr.acts| + 1 && i < |tr.run| && w in tr.run[i].workers
  {
    match tr.run[i].workers[w]
    case Leading(_, f, Returning(o)) => Came(tr, i, f, o)
    case Leading(_, f, Recording(p)) => Came(tr, i, f, Some(p))
    case Resolved(t, o) => Backed(tr, i, t, o)
    case Running(t, p) => Backed(tr, i, t, Some(p))
    case _ => true
  }

  ghost predicate FlightBacked(tr: Trace, i: nat, f: Fid)
    requires |tr.run| == |tr.acts| + 1 && i < |tr.run|
  {
    f in tr.run[i].shared.flights && tr.run[i].shared.flights[f].outcome.Some? ==> Came(tr, i, f, tr.run[i].shared.flights[f].outcome.value)
  }

  ghost predicate TaskBacked(tr: Trace, i: nat, t: TaskId)
    requires |tr.run| == |tr.acts| + 1 && i < |tr.run|
  {
    t in tr.run[i].tasks && tr.run[i].tasks[t].pid.Some? ==> Backed(tr, i, t, tr.run[i].tasks[t].pid)
  }

  ghost predicate AllBacked(tr: Trace, i: nat)
    requires |tr.run| == |tr.acts| + 1 && i < |tr.run|
  {
    && (forall w :: w in tr.run[i].workers ==> WorkerBacked(tr, i, w))
    && (forall f :: FlightBacked(tr, i, f))
    && (forall t :: TaskBacked(tr, i, t))
  }

  /** Where the outcomes that a worker handles come from, step by step. */
  lemma {:induction false} WorkHands(pc: Pc, w: Wid, task: Task, sh: Shared, c: Chance)
    requires CanWork(pc, task, sh, c)
    ensures var e := Work(pc, w, task, sh, c);
      && (e.pc.Leading? && e.pc.stage == Returning(None) ==>
            pc.Leading? && pc.flight == e.pc.flight &&
            ((pc.stage.Starting? && c.startFails) || (pc.stage.Checking? && pc.stage.pid !in sh.live)))
      && (forall p :: e.pc.Leading? && (e.pc.stage == Returning(Some(p)) || e.pc.stage == Recording(p)) ==>
            pc.Leading? && pc.flight == e.pc.flight &&
            (pc.stage == Recording(p) || ((pc.stage == Looking(p) || pc.stage == Checking(p)) && p in sh.live)))
      && (e.pc.Resolved? ==>
            || (pc.Leading? && pc.task == e.pc.task && pc.stage == Returning(e.pc.outcome))
            || (pc.Following? && pc.task == e.pc.task && pc.flight in sh.flights && sh.flights[pc.flight].outcome == Some(e.pc.outcome)))
      && (e.pc.Running? ==> pc == Resolved(e.pc.task, Some(e.pc.pid)))
      && (e.task.pid != task.pid ==> pc == Resolved(pc.task, e.task.pid))
  {
  }

  lemma {:induction false} WorkFlights(pc: Pc, w: Wid, task: Task, sh: Shared, c: Chance, f: Fid)
    requires CanWork(pc, task, sh, c) && f in Work(pc, w, task, sh, c).shared.flights
    ensures var e := Work(pc, w, task, sh, c);
      && (e.shared.flights[f].outcome.Some? ==>
            || (f in sh.flights && sh.flights[f].outcome == e.shared.flights[f].outcome)
            || (pc.Leading? && pc.flight == f && pc.stage == Returning(e.shared.flights[f].outcome.value)))
  {
  }

  lemma {:induction false} StepCame(tr: Trace, i: nat, f: Fid, o: Outcome)
    requires |tr.run| == |tr.acts| + 1 && i < |tr.acts| && OutcomeBy(tr.run[i], tr.acts[i], f, o)
    ensures Came(tr, i + 1, f, o)
  {
  }

  /** A worker that takes no step of its own keeps its place, or is given a task, or is done with
      its task. */
  lemma {:induction false} PcStays(s: State, a: Action, w: Wid)
    requires Enabled(s, a) && w in Next(s, a).workers && !(a.Proceed? && a.w == w)
    ensures w in s.workers
    ensures var pc := Next(s, a).workers[w]; pc == s.workers[w] || pc.Received? || pc.Waiting?
  {
    WorkersStay(s, a);
  }

  lemma {:induction false} StillBacked(tr: Trace, i: nat, w: Wid)
    requires |tr.run| == |tr.acts| + 1 && i < |tr.acts| && w in tr.run[i].workers && w in tr.run[i + 1].workers
    requires tr.run[i + 1].workers[w] == tr.run[i].workers[w] && WorkerBacked(tr, i, w)
    ensures WorkerBacked(tr, i + 1, w)
  {
    match tr.run[i].workers[w]
    case Leading(_, f, Returning(o)) => CameLater(tr, i, i + 1, f, o);
    case Leading(_, f, Recording(p)) => CameLater(tr, i, i + 1, f, Some(p));
    case Resolved(t, o) => BackedLater(tr, i, i + 1, t, o);
    case Running(t, p) => BackedLater(tr, i, i + 1, t, Some(p));
    case _ =>
  }

  lemma {:induction false} WorkerStep(tr: Trace, i: nat, w: Wid)
    requires |tr.run| == |tr.acts| + 1 && Stepped(tr, i) && AllBacked(tr, i) && Life(tr.run[i]) && w in tr.run[i + 1].workers
    ensures WorkerBacked(tr, i + 1, w)
  {
    if tr.acts[i].Proceed? && tr.acts[i].w == w {
      OwnStep(tr, i, w);
    } else {
      PcStays(tr.run[i], tr.acts[i], w);
      if tr.run[i].workers[w] == tr.run[i + 1].workers[w] { StillBacked(tr, i, w); }
    }
  }

  lemma {:induction false} OwnStep(tr: Trace, i: nat, w: Wid)
    requires |tr.run| == |tr.acts| + 1 && Stepped(tr, i) && AllBacked(tr, i) && Life(tr.run[i]) && tr.acts[i].Proceed? && tr.acts[i].w == w
    ensures w in tr.run[i + 1].workers && WorkerBacked(tr, i + 1, w)
  {
    var s, c := tr.run[i], tr.acts[i].c;
    var pc, task := s.workers[w], s.tasks[s.workers[w].task];
    assert WorkerBacked(tr, i, w) && WorkerLife(s, w);
    var e := Work(pc, w, task, s.shared, c);
    WorkLife(pc, w, task, s.shared, c);
    WorkHands(pc, w, task, s.shared, c);
    assert tr.run[i + 1].workers[w] == e.pc;
    match e.pc
    case Leading(_, f, Returning(o)) => LeaderStep(tr, i, w, f, o);
    case Leading(_, f, Recording(p)) => LeaderStep(tr, i, w, f, Some(p));
    case Resolved(t, o) => ResolvedStep(tr, i, w, t, o);
    case Running(t, p) => BackedLater(tr, i, i + 1, t, Some(p));
    case _ =>
  }

  lemma {:induction false} LeaderStep(tr: Trace, i: nat, w: Wid, f: Fid, o: Outcome)
    requires |tr.run| == |tr.acts| + 1 && i < |tr.acts| && tr.acts[i].Proceed? && tr.acts[i].w == w
    requires w in tr.run[i].workers && WorkerBacked(tr, i, w)
    requires var pc := tr.run[i].workers[w];
      pc.Leading? && pc.flight == f && match o
      case None => (pc.stage.Starting? && tr.acts[i].c.startFails) || (pc.stage.Checking? && pc.stage.pid !in tr.run[i].shared.live)
      case Some(p) => pc.stage == Recording(p) || ((pc.stage == Looking(p) || pc.stage == Checking(p)) && p in tr.run[i].shared.live)
    ensures Came(tr, i + 1, f, o)
  {
    if o.Some? && tr.run[i].workers[w].stage.Recording? {
      CameLater(tr, i, i + 1, f, o);
    } else {
      assert OutcomeBy(tr.run[i], tr.acts[i], f, o);
      StepCame(tr, i, f, o);
    }
  }

  lemma {:induction false} ResolvedStep(tr: Trace, i: nat, w: Wid, t: TaskId, o: Outcome)
    requires |tr.run| == |tr.acts| + 1 && i < |tr.acts| && w in tr.run[i].workers && AllBacked(tr, i)
    requires var pc, sh := tr.run[i].workers[w], tr.run[i].shared;
      || (pc.Leading? && pc.task == t && pc.stage == Returning(o))
      || (pc.Following? && pc.task == t && pc.flight in sh.flights && sh.flights[pc.flight].outcome == Some(o))
    ensures Backed(tr, i + 1, t, o)
  {
    var f := tr.run[i].workers[w].flight;
    assert WorkerBacked(tr, i, w) && FlightBacked(tr, i, f);
    assert Came(tr, i, f, o);
    CameLater(tr, i, i + 1, f, o);
    assert InFlight(tr.run[i], w, t, f);
    assert Joined(tr, i + 1, t, f);
  }

  lemma {:induction false} FlightStep(tr: Trace, i: nat, f: Fid)
    requires |tr.run| == |tr.acts| + 1 && Stepped(tr, i) && AllBacked(tr, i)
    ensures FlightBacked(tr, i + 1, f)
  {
    var s, a, sh' := tr.run[i], tr.acts[i], tr.run[i + 1].shared;
    assert FlightBacked(tr, i, f);
    if f in sh'.flights && sh'.flights[f].outcome.Some? {
      if a.Proceed? {
        WorkFlights(s.workers[a.w], a.w, s.tasks[s.workers[a.w].task], s.shared, a.c, f);
        assert WorkerBacked(tr, i, a.w);
      }
      CameLater(tr, i, i + 1, f, sh'.flights[f].outcome.value);
    }
  }

  /** The id of a process comes to a task from what its worker resolved. */
  lemma {:induction false} PidComes(s: State, a: Action, t: TaskId)
    requires Life(s) && Enabled(s, a) && t in Next(s, a).tasks && Next(s, a).tasks[t].pid.Some?
    ensures var o := Next(s, a).tasks[t].pid;
      (t in s.tasks && s.tasks[t].pid == o) || (a.Proceed? && a.w in s.workers && s.workers[a.w] == Resolved(t, o))
  {
    if a.Proceed? {
      assert WorkerLife(s, a.w);
      WorkHands(s.workers[a.w], a.w, s.tasks[s.workers[a.w].task], s.shared, a.c);
      WorkLife(s.workers[a.w], a.w, s.tasks[s.workers[a.w].task], s.shared, a.c);
    }
  }

  lemma {:induction false} PidStep(tr: Trace, i: nat, t: TaskId)
    requires |tr.run| == |tr.acts| + 1 && Stepped(tr, i) && AllBacked(tr, i) && Life(tr.run[i])
    ensures TaskBacked(tr, i + 1, t)
  {
    var s, a, s' := tr.run[i], tr.acts[i], tr.run[i + 1];
    if t in s'.tasks && s'.tasks[t].pid.Some? {
      var o := s'.tasks[t].pid;
      PidComes(s, a, t);
      assert Backed(tr, i, t, o) by {
        if t in s.tasks && s.tasks[t].pid == o { assert TaskBacked(tr, i, t); } else { assert WorkerBacked(tr, i, a.w); }
      }
      BackedLater(tr, i, i + 1, t, o);
    }
  }

  lemma {:induction false} BackedStep(tr: Trace, i: nat)
    requires |tr.run| == |tr.acts| + 1 && Stepped(tr, i) && AllBacked(tr, i) && Life(tr.run[i])
    ensures AllBacked(tr, i + 1)
  {
    var j := i + 1;
    forall w | w in tr.run[j].workers ensures WorkerBacked(tr, j, w) { WorkerStep(tr, i, w); }
    forall f ensures FlightBacked(tr, j, f) { FlightStep(tr, i, f); }
    forall t ensures TaskBacked(tr, j, t) { PidStep(tr, i, t); }
  }

  lemma {:induction false} HistoryBacked(tr: Trace, i: nat)
    requires History(tr) && i < |tr.run|
    ensures AllBacked(tr, i)
  {
    if i > 0 {
      HistoryBacked(tr, i - 1);
      Known(tr, i - 1);
      assert Stepped(tr, i - 1);
      BackedStep(tr, i - 1);
    }
  }

  /** The process of a task is one that the leader of a flight it joined found alive; and a task
      lost for want of a process joined a flight whose leader could not start one or did not find
      the one it started. */
  lemma {:induction false} ProcessesAreFound(tr: Trace, i: nat, t: TaskId)
    requires History(tr) && i < |tr.run| && t in tr.run[i].tasks
    ensures tr.run[i].tasks[t].pid.Some? ==> Backed(tr, i, t, tr.run[i].tasks[t].pid)
    ensures i < |tr.acts| && Moves(tr.run[i], tr.acts[i], Resolved(t, None)) ==> Backed(tr, i, t, None)
  {
    HistoryBacked(tr, i);
    assert TaskBacked(tr, i, t);
    if i < |tr.acts| && Moves(tr.run[i], tr.acts[i], Resolved(t, None)) { assert WorkerBacked(tr, i, tr.acts[i].w); }
  }

  // ----- which processes are alive

  /** A process starts, for the task of a worker or on its own. */
  ghost predicate BornBy(s: State, a: Action, p: Pid) {
    a == Spawn(p) ||
    (a.Proceed? && a.w in s.workers && s.workers[a.w].Leading? && s.workers[a.w].stage.Starting? && !a.c.startFails && a.c.newId == p)
  }

  ghost predicate Born(tr: Trace, i: nat, p: Pid)
    requires |tr.run| == |tr.acts| + 1
  {
    p in tr.run[0].shared.live || exists j: nat :: j < i && j < |tr.acts| && BornBy(tr.run[j], tr.acts[j], p)
  }

  ghost predicate Died(tr: Trace, i: nat, p: Pid) { exists j: nat :: j < i && j < |tr.acts| && tr.acts[j] == Die(p) }

  lemma {:induction false} WorkStarts(pc: Pc, w: Wid, task: Task, sh: Shared, c: Chance)
    requires CanWork(pc, task, sh, c)
    ensures var e, born := Work(pc, w, task, sh, c), if pc.Leading? && pc.stage.Starting? && !c.startFails then {c.newId} else {};
      e.shared.live == sh.live + born && e.shared.used == sh.used + born && sh.used !! born
  {
  }

  lemma {:induction false} LivesStep(s: State, a: Action, p: Pid)
    requires Enabled(s, a)
    ensures p in Next(s, a).shared.used <==> p in s.shared.used || BornBy(s, a, p)
    ensures p in Next(s, a).shared.live <==> (p in s.shared.live || BornBy(s, a, p)) && a != Die(p)
    ensures BornBy(s, a, p) ==> p !in s.shared.used
    ensures a == Die(p) ==> p in s.shared.live
  {
    if a.Proceed? { WorkStarts(s.workers[a.w], a.w, s.tasks[s.workers[a.w].task], s.shared, a.c); }
  }

  lemma {:induction false} LivesMore(tr: Trace, i: nat, p: Pid)
    requires |tr.run| == |tr.acts| + 1 && i < |tr.acts|
    ensures Born(tr, i + 1, p) <==> Born(tr, i, p) || BornBy(tr.run[i], tr.acts[i], p)
    ensures Died(tr, i + 1, p) <==> Died(tr, i, p) || tr.acts[i] == Die(p)
  {
  }

  /** The processes alive are those that started and did not die; ids are those of processes that
      started, and none starts twice. */
  lemma {:induction false} Alive(tr: Trace, i: nat, p: Pid)
    requires History(tr) && i < |tr.run|
    ensures p in tr.run[i].shared.live <==> Born(tr, i, p) && !Died(tr, i, p)
    ensures p in tr.run[i].shared.used <==> Born(tr, i, p)
    ensures Died(tr, i, p) ==> Born(tr, i, p)
    ensures i < |tr.acts| && BornBy(tr.run[i], tr.acts[i], p) ==> !Born(tr, i, p)
  {
    if i > 0 {
      assert Stepped(tr, i - 1);
      Known(tr, i - 1);
      Alive(tr, i - 1, p);
      LivesStep(tr.run[i - 1], tr.acts[i - 1], p);
      LivesMore(tr, i - 1, p);
    }
    if i < |tr.acts| {
      assert Stepped(tr, i);
      LivesStep(tr.run[i], tr.acts[i], p);
    }
  }

  // ----- completion notices

  ghost predicate NotifiedBy(s: State, a: Action, t: TaskId) {
    a.Notify? && a.delivered && a.w in s.workers && s.workers[a.w] == Notifying(t) && t in s.tasks && s.tasks[t].notify
  }

  ghost predicate Notified(tr: Trace, i: nat, t: TaskId)
    requires |tr.run| == |tr.acts| + 1
  {
    exists j: nat :: j < i && j < |tr.acts| && NotifiedBy(tr.run[j], tr.acts[j], t)
  }

  lemma {:induction false} NoticeStep(s: State, a: Action, t: TaskId)
    requires Life(s) && Enabled(s, a)
    ensures Next(s, a).notices[t] == s.notices[t] + Bit(NotifiedBy(s, a, t))
    ensures NotifiedBy(s, a, t) ==> s.notices[t] == 0
  {
    if a.Notify? { assert WorkerLife(s, a.w) && TaskLife(s, s.workers[a.w].task); }
  }

  /** There is exactly one notice for a task whose worker delivered it, and none for others. */
  lemma {:induction false} NoticesAreDelivered(tr: Trace, i: nat, t: TaskId)
    requires History(tr) && i < |tr.run|
    ensures tr.run[i].notices[t] == Bit(Notified(tr, i, t))
  {
    if i > 0 {
      assert Stepped(tr, i - 1);
      Known(tr, i - 1);
      NoticesAreDelivered(tr, i - 1, t);
      NoticeStep(tr.run[i - 1], tr.acts[i - 1], t);
      assert Notified(tr, i, t) <==> Notified(tr, i - 1, t) || NotifiedBy(tr.run[i - 1], tr.acts[i - 1], t);
    }
  }

  // ----- what can be looked up

  ghost predicate SubmittedBy(a: Action, t: TaskId, task: Task, group: Option<Gid>) {
    a.Submit? && a.t == t && a.spec == task.spec && a.notify == task.notify && a.group == group
  }

  ghost predicate DiscardedBy(s: State, a: Action, t: TaskId) {
    t in s.tasks && (a == Discard(t) || (a.GroupDiscard? && a.t == t && a.g in s.groups && t in s.groups[a.g]))
  }

  ghost predicate Discarded(tr: Trace, i: nat, t: TaskId)
    requires |tr.run| == |tr.acts| + 1
  {
    exists j: nat :: j < i && j < |tr.acts| && DiscardedBy(tr.run[j], tr.acts[j], t)
  }

  function OriginOf(s: State, t: TaskId): Option<Gid> { if t in s.origin then Some(s.origin[t]) else None }

  /** What a step does to a task that is known: nothing to how it was submitted, and it can still
      be looked up unless it is discarded. */
  ghost predicate StaysRegistered(s: State, a: Action, s': State, t: TaskId) {
    t in s.tasks ==>
      && t in s'.tasks && s'.tasks[t].spec == s.tasks[t].spec && s'.tasks[t].notify == s.tasks[t].notify && OriginOf(s', t) == OriginOf(s, t)
      && (t in s'.registry <==> t in s.registry && !DiscardedBy(s, a, t))
  }

  ghost predicate GetsRegistered(s: State, a: Action, s': State, t: TaskId) {
    t in s'.tasks && t !in s.tasks ==> t in s'.registry && SubmittedBy(a, t, s'.tasks[t], OriginOf(s', t))
  }

  lemma {:induction false} ProceedRegisters(s: State, w: Wid, c: Chance, t: TaskId)
    requires WorkersLive(s) && Enabled(s, Proceed(w, c))
    ensures var a := Proceed(w, c); StaysRegistered(s, a, Next(s, a), t) && GetsRegistered(s, a, Next(s, a), t)
  {
    assert WorkerLife(s, w);
    WorkLife(s.workers[w], w, s.tasks[s.workers[w].task], s.shared, c);
  }

  lemma {:induction false} OtherRegisters(s: State, a: Action, t: TaskId)
    requires WorkersLive(s) && Origins(s) && Enabled(s, a) && !a.Proceed?
    ensures StaysRegistered(s, a, Next(s, a), t) && GetsRegistered(s, a, Next(s, a), t)
  {
    assert t !in s.tasks ==> t !in s.origin;
    if a.Notify? { assert WorkerLife(s, a.w); }
  }

  lemma {:induction false} RegistryStep(tr: Trace, i: nat, t: TaskId)
    requires History(tr) && i < |tr.acts|
    ensures StaysRegistered(tr.run[i], tr.acts[i], tr.run[i + 1], t) && GetsRegistered(tr.run[i], tr.acts[i], tr.run[i + 1], t)
  {
    assert Stepped(tr, i);
    Known(tr, i);
    var s, a := tr.run[i], tr.acts[i];
    if a.Proceed? { ProceedRegisters(s, a.w, a.c, t); } else { OtherRegisters(s, a, t); }
  }

  lemma {:induction false} DiscardedMore(tr: Trace, i: nat, t: TaskId)
    requires |tr.run| == |tr.acts| + 1 && i < |tr.acts|
    ensures Discarded(tr, i + 1, t) <==> Discarded(tr, i, t) || DiscardedBy(tr.run[i], tr.acts[i], t)
  {
  }

  ghost predicate Submitted(tr: Trace, i: nat, t: TaskId, task: Task, group: Option<Gid>) {
    exists j: nat :: j < i && j < |tr.acts| && SubmittedBy(tr.acts[j], t, task, group)
  }

  /** The tasks are those submitted, as they were submitted, and those that can be looked up are the
      ones not discarded since. */
  lemma {:induction false} Registered(tr: Trace, i: nat, t: TaskId)
    requires History(tr) && i < |tr.run| && t in tr.run[i].tasks
    ensures t in tr.run[i].registry <==> !Discarded(tr, i, t)
    ensures Submitted(tr, i, t, tr.run[i].tasks[t], OriginOf(tr.run[i], t))
    decreases i
  {
    if i > 0 {
      RegistryStep(tr, i - 1, t);
      DiscardedMore(tr, i - 1, t);
      if t in tr.run[i - 1].tasks {
        Registered(tr, i - 1, t);
        var j: nat :| j < i - 1 && j < |tr.acts| && SubmittedBy(tr.acts[j], t, tr.run[i - 1].tasks[t], OriginOf(tr.run[i - 1], t));
        assert SubmittedBy(tr.acts[j], t, tr.run[i].tasks[t], OriginOf(tr.run[i], t));
      } else {
        NotYetDiscarded(tr, i - 1, t);
      }
    }
  }

  lemma {:induction false} NotYetDiscarded(tr: Trace, i: nat, t: TaskId)
    requires History(tr) && i < |tr.run| && t !in tr.run[i].tasks
    ensures !Discarded(tr, i, t)
  {
    if i > 0 {
      UnknownBefore(tr, i - 1, t);
      NotYetDiscarded(tr, i - 1, t);
      DiscardedMore(tr, i - 1, t);
    }
  }

  /** A group finds what was recorded in it until it is discarded, and then no longer; what other
      groups find is not affected. */
  lemma {:induction false} GroupFinds(s: State, g: Gid, t: TaskId)
    requires Origins(s)
    ensures Enabled(s, GroupRecord(g, t)) ==>
      GroupLookup(Next(s, GroupRecord(g, t)), g, t) == if t in s.registry then Some(s.tasks[t]) else None
    ensures Enabled(s, GroupDiscard(g, t)) ==>
      GroupLookup(Next(s, GroupDiscard(g, t)), g, t) == None && GroupTasks(Next(s, GroupDiscard(g, t)), g) == GroupTasks(s, g) - {t}
    ensures Enabled(s, GroupDiscard(g, t)) ==> forall u :: u != t ==>
      GroupLookup(Next(s, GroupDiscard(g, t)), g, u) == GroupLookup(s, g, u)
    ensures Enabled(s, GroupDiscard(g, t)) ==> forall h, u :: h != g ==>
      GroupLookup(Next(s, GroupDiscard(g, t)), h, u) == GroupLookup(s, h, u)
  {
    if Enabled(s, GroupDiscard(g, t)) {
      forall h, u | h != g ensures GroupLookup(Next(s, GroupDiscard(g, t)), h, u) == GroupLookup(s, h, u) { OtherGroupFinds(s, g, t, h, u); }
    }
  }

  lemma {:induction false} OtherGroupFinds(s: State, g: Gid, t: TaskId, h: Gid, u: TaskId)
    requires Origins(s) && h != g && Enabled(s, GroupDiscard(g, t))
    ensures GroupLookup(Next(s, GroupDiscard(g, t)), h, u) == GroupLookup(s, h, u)
  {
    assert GroupTasks(Next(s, GroupDiscard(g, t)), h) == GroupTasks(s, h);
    assert t in s.groups[g] ==> t in s.origin && s.origin[t] == g;
  }

  // ----- nothing is stuck

  /** A flight without an outcome is the one of its key. */
  ghost predicate OpenFlight(sh: Shared, f: Fid) {
    f in sh.flights && sh.flights[f].outcome.None? ==> sh.flights[f].key in sh.inflight && sh.inflight[sh.flights[f].key] == f
  }

  lemma {:induction false} WorkKeepsOpen(pc: Pc, w: Wid, task: Task, sh: Shared, c: Chance, f: Fid)
    requires Ready(pc, w, task, sh, c) && OpenFlight(sh, f)
    ensures OpenFlight(Work(pc, w, task, sh, c).shared, f)
  {
  }

  lemma {:induction false} StepKeepsOpen(s: State, a: Action, f: Fid)
    requires Procs(s) && Enabled(s, a) && OpenFlight(s.shared, f)
    ensures OpenFlight(Next(s, a).shared, f)
  {
    if a.Proceed? {
      GetReady(s, a.w, a.c);
      WorkKeepsOpen(s.workers[a.w], a.w, s.tasks[s.workers[a.w].task], s.shared, a.c, f);
    }
  }

  lemma {:induction false} OpenNext(tr: Trace, i: nat, f: Fid)
    requires History(tr) && i < |tr.acts| && OpenFlight(tr.run[i].shared, f)
    ensures OpenFlight(tr.run[i + 1].shared, f)
  {
    assert Stepped(tr, i);
    Known(tr, i);
    StepKeepsOpen(tr.run[i], tr.acts[i], f);
  }

  lemma {:induction false} OpenFlights(tr: Trace, i: nat, f: Fid)
    requires History(tr) && i < |tr.run|
    ensures OpenFlight(tr.run[i].shared, f)
  {
    if i > 0 {
      OpenFlights(tr, i - 1, f);
      OpenNext(tr, i - 1, f);
    }
  }

  /** A chance that offers a new id leaves all other outcomes open. */
  ghost predicate Offers(sh: Shared, c: Chance) { c.newId !in sh.used && c.newId !in sh.flights }

  lemma {:induction false} WorkerGoesOn(s: State, w: Wid, c: Chance)
    requires Life(s) && Procs(s) && w in s.workers && !s.workers[w].Waiting? && Offers(s.shared, c)
    requires s.workers[w].Following? ==> OpenFlight(s.shared, s.workers[w].flight)
    ensures match s.workers[w]
      case Notifying(_) => Enabled(s, Notify(w, true)) && Enabled(s, Notify(w, false))
      case Following(_, f) => Enabled(s, Proceed(w, c)) || LeaderGoesOn(s, f, c)
      case _ => Enabled(s, Proceed(w, c))
  {
    assert WorkerLife(s, w) && WorkerOk(s, w);
    if s.workers[w].Following? {
      var f := s.workers[w].flight;
      if s.shared.flights[f].outcome.None? {
        assert InflightFits(s, s.shared.flights[f].key);
        var l := s.shared.flights[f].leader;
        assert WorkerLife(s, l);
        assert LedBy(s, f, l, c);
      }
    }
  }

  ghost predicate LedBy(s: State, f: Fid, l: Wid, c: Chance) {
    l in s.workers && s.workers[l].Leading? && s.workers[l].flight == f && Enabled(s, Proceed(l, c))
  }

  ghost predicate LeaderGoesOn(s: State, f: Fid, c: Chance) { exists l :: LedBy(s, f, l, c) }

  /** What a worker can do next. */
  ghost predicate CanGoOn(s: State, w: Wid, c: Chance)
    requires w in s.workers
  {
    match s.workers[w]
    case Waiting => forall t :: t in s.sending ==> Enabled(s, Receive(w, t))
    case Notifying(_) => Enabled(s, Notify(w, true)) && Enabled(s, Notify(w, false))
    case Following(_, f) => Enabled(s, Proceed(w, c)) || LeaderGoesOn(s, f, c)
    case _ => Enabled(s, Proceed(w, c))
  }

  lemma {:induction false} SubmitsGoOn(s: State, t: TaskId, spec: ModuleSpec, notify: bool, group: Option<Gid>)
    ensures t !in s.tasks ==> Enabled(s, Submit(t, spec, notify, group))
    ensures Enabled(s, Discard(t))
    ensures group.Some? && t in s.origin && s.origin[t] == group.value && t !in s.sending ==> Enabled(s, GroupRecord(group.value, t))
    ensures group.Some? && group.value in s.groups ==> Enabled(s, GroupDiscard(group.value, t))
  {
  }

  /** At every point of every history each worker that has a task can go on, whatever the chances,
      or waits for the leader of its flight, who can; and one that has none can take any task that
      waits. */
  lemma {:induction false} NothingIsStuck(tr: Trace, i: nat, w: Wid, c: Chance)
    requires History(tr) && i < |tr.run| && w in tr.run[i].workers && Offers(tr.run[i].shared, c)
    ensures CanGoOn(tr.run[i], w, c)
  {
    Known(tr, i);
    if !tr.run[i].workers[w].Waiting? {
      if tr.run[i].workers[w].Following? { OpenFlights(tr, i, tr.run[i].workers[w].flight); }
      WorkerGoesOn(tr.run[i], w, c);
    }
  }
}
