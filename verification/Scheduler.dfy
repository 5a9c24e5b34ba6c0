/** The task scheduler (internal/timecraft/task.go) as a transition system.

    Worker threads take tasks from a rendezvous queue, find or start one process per module
    key under single-flight, run the task on it and report completion.  Processes may die,
    tasks may be discarded and groups may act at any point between two steps. */
module Scheduler {
  import opened Basics
  import opened ModuleKey

  type TaskId = nat
  type Wid = nat
  type Pid = nat
  type Fid = nat
  type Gid = nat

  datatype Phase = Queued | Initializing | Executing | Failed | Succeeded

  /** `worker` is the thread that has the task, from dequeue until it is done with it. */
  datatype Task = Task(spec: ModuleSpec, phase: Phase, pid: Option<Pid>, notify: bool, worker: Option<Wid>)

  /** What a flight gives its leader and followers: a process, or an error. */
  type Outcome = Option<Pid>

  datatype Flight = Flight(key: string, leader: Wid, outcome: Option<Outcome>)

  /** Where the leader of a flight is inside the function given to single-flight. */
  datatype Stage = Reading | Looking(pid: Pid) | Starting | Checking(pid: Pid) | Recording(pid: Pid) | Returning(outcome: Outcome)

  datatype Pc =
    | Waiting
    | Received(task: TaskId)
    | Marked(task: TaskId)
    | Leading(task: TaskId, flight: Fid, stage: Stage)
    | Following(task: TaskId, flight: Fid)
    | Resolved(task: TaskId, outcome: Outcome)
    | Running(task: TaskId, pid: Pid)
    | Completing(task: TaskId, failed: bool)
    | Notifying(task: TaskId)

  /** What the workers share apart from the tasks. */
  datatype Shared = Shared(
    processes: map<string, Pid>,     // process recorded for a key
    flights: map<Fid, Flight>,
    inflight: map<string, Fid>,
    live: set<Pid>,                  // processes the manager knows
    used: set<Pid>,                  // ids never given again
    started: map<Pid, ModuleSpec>)   // processes started for tasks

  datatype State = State(
    tasks: map<TaskId, Task>,        // every task ever submitted
    registry: set<TaskId>,           // ids that Lookup and Discard know
    sending: set<TaskId>,            // submitters blocked on the queue
    workers: map<Wid, Pc>,
    shared: Shared,
    notices: multiset<TaskId>,       // completions delivered
    origin: map<TaskId, Gid>,        // the group a task was submitted through
    groups: map<Gid, set<TaskId>>)

  // ----- what one worker does with its task

  /** Outcomes the scheduler does not control: elapsed time, fresh ids, failures. */
  datatype Chance = Chance(expired: bool, newId: nat, startFails: bool, failed: bool)

  datatype Effect = Effect(pc: Pc, task: Task, shared: Shared)

  predicate CanWork(pc: Pc, task: Task, sh: Shared, c: Chance) {
    match pc
    case Waiting => false
    case Marked(_) => KeyOf(task.spec) in sh.inflight || c.newId !in sh.flights
    case Leading(_, f, stage) =>
      f in sh.flights && (stage.Starting? ==> c.startFails || c.newId !in sh.used)
    case Following(_, f) => f in sh.flights && sh.flights[f].outcome.Some?
    case Notifying(_) => false
    case _ => true
  }

  function Work(pc: Pc, w: Wid, task: Task, sh: Shared, c: Chance): Effect
    requires CanWork(pc, task, sh, c)
  {
    var key := KeyOf(task.spec);
    match pc
    case Received(t) =>
      if c.expired then Effect(Completing(t, true), task, sh)
      else Effect(Marked(t), task.(phase := Initializing), sh)
    case Marked(t) =>
      if key in sh.inflight then Effect(Following(t, sh.inflight[key]), task, sh)
      else Effect(Leading(t, c.newId, Reading), task,
        sh.(flights := sh.flights[c.newId := Flight(key, w, None)], inflight := sh.inflight[key := c.newId]))
    case Leading(t, f, stage) => Lead(t, f, stage, task, sh, c)
    case Following(t, f) => Effect(Resolved(t, sh.flights[f].outcome.value), task, sh)
    case Resolved(t, outcome) =>
      if outcome.None? then Effect(Completing(t, true), task, sh)
      else Effect(Running(t, outcome.value), task.(phase := Executing, pid := outcome), sh)
    case Running(t, _) => Effect(Completing(t, c.failed), task, sh)
    case Completing(t, failed) => Effect(Notifying(t), task.(phase := if failed then Failed else Succeeded), sh)
  }

  /** The function that single-flight runs once per key at a time. */
  function Lead(t: TaskId, f: Fid, stage: Stage, task: Task, sh: Shared, c: Chance): Effect
    requires f in sh.flights
    requires stage.Starting? ==> c.startFails || c.newId !in sh.used
  {
    var key := KeyOf(task.spec);
    match stage
    case Reading =>
      Effect(Leading(t, f, if key in sh.processes then Looking(sh.processes[key]) else Starting), task.(phase := Initializing), sh)
    case Looking(p) => Effect(Leading(t, f, if p in sh.live then Returning(Some(p)) else Starting), task, sh)
    case Starting =>
      if c.startFails then Effect(Leading(t, f, Returning(None)), task, sh)
      else Effect(Leading(t, f, Checking(c.newId)), task,
        sh.(live := sh.live + {c.newId}, used := sh.used + {c.newId}, started := sh.started[c.newId := task.spec]))
    case Checking(p) => Effect(Leading(t, f, if p in sh.live then Recording(p) else Returning(None)), task, sh)
    case Recording(p) => Effect(Leading(t, f, Returning(Some(p))), task, sh.(processes := sh.processes[key := p]))
    case Returning(outcome) =>
      Effect(Resolved(t, outcome), task,
        sh.(inflight := sh.inflight - {key}, flights := sh.flights[f := sh.flights[f].(outcome := Some(outcome))]))
  }

  // ----- steps of the whole system

  datatype Action =
    | Submit(t: TaskId, spec: ModuleSpec, notify: bool, group: Option<Gid>)
    | Receive(w: Wid, t: TaskId)
    | Proceed(w: Wid, c: Chance)
    | Notify(w: Wid, delivered: bool)
    | Die(p: Pid)
    | Spawn(p: Pid)
    | Discard(t: TaskId)
    | GroupRecord(g: Gid, t: TaskId)
    | GroupDiscard(g: Gid, t: TaskId)

  predicate Has(s: State, w: Wid) { w in s.workers && !s.workers[w].Waiting? && s.workers[w].task in s.tasks }

  predicate Enabled(s: State, a: Action) {
    match a
    case Submit(t, _, _, _) => t !in s.tasks
    case Receive(w, t) => w in s.workers && s.workers[w].Waiting? && t in s.sending && t in s.tasks
    case Proceed(w, c) => Has(s, w) && CanWork(s.workers[w], s.tasks[s.workers[w].task], s.shared, c)
    case Notify(w, _) => Has(s, w) && s.workers[w].Notifying?
    case Die(p) => p in s.shared.live
    case Spawn(p) => p !in s.shared.used
    case Discard(t) => true
    case GroupRecord(g, t) => t in s.origin && s.origin[t] == g && t !in s.sending
    case GroupDiscard(g, t) => g in s.groups
  }

  function GroupTasks(s: State, g: Gid): set<TaskId> { if g in s.groups then s.groups[g] else {} }

  function Next(s: State, a: Action): State
    requires Enabled(s, a)
  {
    match a
    case Submit(t, spec, notify, group) =>
      s.(tasks := s.tasks[t := Task(spec, Queued, None, notify, None)], registry := s.registry + {t}, sending := s.sending + {t},
         origin := if group.Some? then s.origin[t := group.value] else s.origin)
    case Receive(w, t) =>
      s.(workers := s.workers[w := Received(t)], sending := s.sending - {t}, tasks := s.tasks[t := s.tasks[t].(worker := Some(w))])
    case Proceed(w, c) =>
      var t := s.workers[w].task;
      var e := Work(s.workers[w], w, s.tasks[t], s.shared, c);
      s.(workers := s.workers[w := e.pc], tasks := s.tasks[t := e.task], shared := e.shared)
    case Notify(w, delivered) =>
      var t := s.workers[w].task;
      s.(workers := s.workers[w := Waiting], tasks := s.tasks[t := s.tasks[t].(worker := None)],
         notices := if s.tasks[t].notify && delivered then s.notices + multiset{t} else s.notices)
    case Die(p) => s.(shared := s.shared.(live := s.shared.live - {p}))
    case Spawn(p) => s.(shared := s.shared.(live := s.shared.live + {p}, used := s.shared.used + {p}))
    case Discard(t) => s.(registry := s.registry - {t})
    case GroupRecord(g, t) => s.(groups := s.groups[g := GroupTasks(s, g) + {t}])
    case GroupDiscard(g, t) =>
      if t in s.groups[g] then s.(registry := s.registry - {t}, groups := s.groups[g := s.groups[g] - {t}]) else s
  }

  const THREAD_COUNT: nat := 8

  ghost predicate Init(s: State) {
    && s.tasks == map[] && s.registry == {} && s.sending == {} && s.notices == multiset{} && s.origin == map[]
    && (exists live: set<Pid> :: s.shared == Shared(map[], map[], map[], live, live, map[]))
    && |s.workers| == THREAD_COUNT && (forall w :: w in s.workers ==> s.workers[w] == Waiting)
    && (forall g :: g in s.groups ==> s.groups[g] == {})
  }

  ghost predicate Step(s: State, s': State) { exists a :: Enabled(s, a) && s' == Next(s, a) }

  ghost predicate Run(run: seq<State>) {
    && run != [] && Init(run[0])
    && forall i :: 0 <= i < |run| - 1 ==> Step(run[i], run[i + 1])
  }

  // ----- life of a task

  predicate Terminal(p: Phase) { p == Failed || p == Succeeded }

  function Rank(p: Phase): nat {
    match p case Queued => 0 case Initializing => 1 case Executing => 2 case _ => 3
  }

  predicate PhaseFits(pc: Pc, p: Phase) {
    match pc
    case Waiting => true
    case Received(_) => p == Queued
    case Marked(_) => p == Initializing
    case Leading(_, _, _) => p == Initializing
    case Following(_, _) => p == Initializing
    case Resolved(_, _) => p == Initializing
    case Running(_, _) => p == Executing
    case Completing(_, _) => !Terminal(p)
    case Notifying(_) => Terminal(p)
  }

  /** A worker keeps its task, and moves its phase forward only. */
  lemma {:induction false} WorkLife(pc: Pc, w: Wid, task: Task, sh: Shared, c: Chance)
    requires CanWork(pc, task, sh, c) && PhaseFits(pc, task.phase)
    ensures var e := Work(pc, w, task, sh, c);
      && !e.pc.Waiting? && e.pc.task == pc.task && PhaseFits(e.pc, e.task.phase)
      && Rank(task.phase) <= Rank(e.task.phase) && !Terminal(task.phase)
      && e.task == task.(phase := e.task.phase, pid := e.task.pid)
  {
  }

  ghost predicate WorkerLife(s: State, w: Wid)
    requires w in s.workers
  {
    !s.workers[w].Waiting? ==>
      && s.workers[w].task in s.tasks && s.tasks[s.workers[w].task].worker == Some(w)
      && PhaseFits(s.workers[w], s.tasks[s.workers[w].task].phase)
  }

  /** A task is waiting to be received, or with one worker, or done; it is reported at most
      once, and only when done. */
  ghost predicate TaskLife(s: State, t: TaskId)
    requires t in s.tasks
  {
    match s.tasks[t].worker
    case Some(w) =>
      w in s.workers && !s.workers[w].Waiting? && s.workers[w].task == t && t !in s.sending && s.notices[t] == 0
    case None =>
      if t in s.sending then s.tasks[t].phase == Queued && s.notices[t] == 0
      else Terminal(s.tasks[t].phase) && s.notices[t] <= 1
  }

  ghost predicate WorkersLive(s: State) { forall w :: w in s.workers ==> WorkerLife(s, w) }

  ghost predicate Life(s: State) {
    && WorkersLive(s)
    && (forall t :: t in s.tasks ==> TaskLife(s, t))
    && (forall t :: t in s.sending || t in s.notices ==> t in s.tasks)
  }

  lemma {:induction false} LifeKept(s: State, a: Action)
    requires Life(s) && Enabled(s, a)
    ensures Life(Next(s, a))
  {
    match a
    case Proceed(w, c) =>
      assert WorkerLife(s, w);
      WorkLife(s.workers[w], w, s.tasks[s.workers[w].task], s.shared, c);
      ProceedLife(s, w, Work(s.workers[w], w, s.tasks[s.workers[w].task], s.shared, c));
    case _ => OtherLife(s, a);
  }

  lemma {:induction false} ProceedLife(s: State, w: Wid, e: Effect)
    requires Life(s) && Has(s, w) && !e.pc.Waiting? && e.pc.task == s.workers[w].task
    requires PhaseFits(e.pc, e.task.phase) && e.task.worker == s.tasks[e.pc.task].worker
    ensures Life(s.(workers := s.workers[w := e.pc], tasks := s.tasks[e.pc.task := e.task], shared := e.shared))
  {
    var s' := s.(workers := s.workers[w := e.pc], tasks := s.tasks[e.pc.task := e.task], shared := e.shared);
    assert WorkerLife(s, w);
    forall v | v in s'.workers ensures WorkerLife(s', v) { assert WorkerLife(s, v); }
    forall t | t in s'.tasks ensures TaskLife(s', t) { assert TaskLife(s, t); }
  }

  lemma {:induction false} OtherLife(s: State, a: Action)
    requires Life(s) && Enabled(s, a) && !a.Proceed?
    ensures Life(Next(s, a))
  {
    var s' := Next(s, a);
    forall v | v in s'.workers ensures WorkerLife(s', v) { assert v in s.workers && WorkerLife(s, v); }
    forall t | t in s'.tasks ensures TaskLife(s', t) { assert t in s.tasks ==> TaskLife(s, t); }
  }

  // ----- flights and processes

  ghost predicate StartedFor(sh: Shared, p: Pid, key: string) {
    p in sh.started && KeyOf(sh.started[p]) == key
  }

  ghost predicate NoneAlive(sh: Shared, key: string) {
    forall p :: p in sh.live ==> !StartedFor(sh, p, key)
  }

  ghost predicate OnlyAlive(sh: Shared, key: string, p: Pid) {
    StartedFor(sh, p, key) && forall q :: q in sh.live && StartedFor(sh, q, key) ==> q == p
  }

  function KeyAt(s: State, w: Wid): string
    requires Has(s, w)
  {
    KeyOf(s.tasks[s.workers[w].task].spec)
  }

  /** A worker inside single-flight is the leader of its key's flight, or follows a flight
      of its key. */
  ghost predicate FlightFits(pc: Pc, w: Wid, key: string, sh: Shared) {
    match pc
    case Leading(_, f, _) => key in sh.inflight && sh.inflight[key] == f && f in sh.flights && sh.flights[f] == Flight(key, w, None)
    case Following(_, f) => f in sh.flights && sh.flights[f].key == key
    case _ => true
  }

  /** What a worker knows of the processes of its key. */
  ghost predicate ProcessFits(pc: Pc, key: string, sh: Shared) {
    match pc
    case Leading(_, _, stage) => (
      match stage
      case Reading => true
      case Looking(p) => key in sh.processes && sh.processes[key] == p
      case Starting => NoneAlive(sh, key)
      case Checking(p) => OnlyAlive(sh, key, p)
      case Recording(p) => OnlyAlive(sh, key, p)
      case Returning(o) => o.Some? ==> StartedFor(sh, o.value, key))
    case Resolved(_, o) => o.Some? ==> StartedFor(sh, o.value, key)
    case Running(_, p) => StartedFor(sh, p, key)
    case _ => true
  }

  ghost predicate InflightFits(s: State, key: string)
    requires key in s.shared.inflight
  {
    var f := s.shared.inflight[key];
    && f in s.shared.flights && s.shared.flights[f].key == key && s.shared.flights[f].outcome.None?
    && var l := s.shared.flights[f].leader;
    l in s.workers && s.workers[l].Leading? && s.workers[l].flight == f && Has(s, l) && KeyAt(s, l) == key
  }

  ghost predicate OutcomeFits(sh: Shared, f: Fid)
    requires f in sh.flights
  {
    sh.flights[f].outcome.Some? && sh.flights[f].outcome.value.Some? ==>
      StartedFor(sh, sh.flights[f].outcome.value.value, sh.flights[f].key)
  }

  /** A live process started for a key is the recorded one, or in the hands of the leader. */
  ghost predicate Owned(s: State, p: Pid)
    requires p in s.shared.started
  {
    var sh, key := s.shared, KeyOf(s.shared.started[p]);
    || (key in sh.processes && sh.processes[key] == p)
    || (key in sh.inflight && sh.inflight[key] in sh.flights &&
        var l := sh.flights[sh.inflight[key]].leader;
        l in s.workers && s.workers[l].Leading? && (s.workers[l].stage == Checking(p) || s.workers[l].stage == Recording(p)))
  }

  ghost predicate TaskPid(s: State, t: TaskId)
    requires t in s.tasks
  {
    && (s.tasks[t].phase == Executing ==> s.tasks[t].pid.Some?)
    && (s.tasks[t].pid.Some? ==> StartedFor(s.shared, s.tasks[t].pid.value, KeyOf(s.tasks[t].spec)))
  }

  ghost predicate WorkerOk(s: State, w: Wid)
    requires w in s.workers
  {
    !s.workers[w].Waiting? ==> Has(s, w) && FlightFits(s.workers[w], w, KeyAt(s, w), s.shared) && ProcessFits(s.workers[w], KeyAt(s, w), s.shared)
  }

  ghost predicate Procs(s: State) {
    && (forall w :: w in s.workers ==> WorkerOk(s, w))
    && (forall k :: k in s.shared.inflight ==> InflightFits(s, k))
    && (forall f :: f in s.shared.flights ==> OutcomeFits(s.shared, f))
    && (forall k :: k in s.shared.processes ==> StartedFor(s.shared, s.shared.processes[k], k))
    && (forall p :: p in s.shared.live && p in s.shared.started ==> Owned(s, p))
    && (forall p :: p in s.shared.live || p in s.shared.started ==> p in s.shared.used)
    && (forall t :: t in s.tasks ==> TaskPid(s, t))
  }

  ghost predicate LeaderOk(s: State, key: string) {
    key in s.shared.inflight ==> InflightFits(s, key) && WorkerOk(s, s.shared.flights[s.shared.inflight[key]].leader)
  }

  lemma {:induction false} OwnersAgree(s: State, p: Pid, q: Pid)
    requires p in s.shared.live && q in s.shared.live && p in s.shared.started && q in s.shared.started
    requires KeyOf(s.shared.started[p]) == KeyOf(s.shared.started[q])
    requires Owned(s, p) && Owned(s, q) && LeaderOk(s, KeyOf(s.shared.started[p]))
    ensures p == q
  {
  }

  /** At most one process started for a key is alive. */
  lemma {:induction false} OneProcess(s: State, p: Pid, q: Pid)
    requires Procs(s) && p in s.shared.live && q in s.shared.live
    requires p in s.shared.started && q in s.shared.started && KeyOf(s.shared.started[p]) == KeyOf(s.shared.started[q])
    ensures p == q
  {
    assert LeaderOk(s, KeyOf(s.shared.started[p]));
    OwnersAgree(s, p, q);
  }

  lemma {:induction false} NotOwned(s: State, w: Wid, p: Pid)
    requires Has(s, w) && s.workers[w].Leading? && !s.workers[w].stage.Checking? && !s.workers[w].stage.Recording?
    requires WorkerOk(s, w) && p in s.shared.live && (p in s.shared.started ==> Owned(s, p))
    requires KeyAt(s, w) in s.shared.processes ==> s.shared.processes[KeyAt(s, w)] !in s.shared.live
    ensures !StartedFor(s.shared, p, KeyAt(s, w))
  {
  }

  /** When the recorded process of a key is dead and its leader holds none, none is alive. */
  lemma {:induction false} NoneLeft(s: State, w: Wid)
    requires Procs(s) && Has(s, w) && s.workers[w].Leading? && !s.workers[w].stage.Checking? && !s.workers[w].stage.Recording?
    requires KeyAt(s, w) in s.shared.processes ==> s.shared.processes[KeyAt(s, w)] !in s.shared.live
    ensures NoneAlive(s.shared, KeyAt(s, w))
  {
    assert WorkerOk(s, w);
    forall p | p in s.shared.live ensures !StartedFor(s.shared, p, KeyAt(s, w)) {
      NotOwned(s, w, p);
    }
  }

  // ----- steps keep what is known of flights and processes

  ghost predicate RecordedDead(sh: Shared, key: string) { key in sh.processes ==> sh.processes[key] !in sh.live }

  /** What a worker needs to know of its key before a step. */
  ghost predicate Ready(pc: Pc, w: Wid, task: Task, sh: Shared, c: Chance) {
    var key := KeyOf(task.spec);
    && CanWork(pc, task, sh, c) && FlightFits(pc, w, key, sh) && ProcessFits(pc, key, sh)
    && (forall p :: p in sh.live || p in sh.started ==> p in sh.used)
    && (key in sh.inflight ==> sh.inflight[key] in sh.flights && sh.flights[sh.inflight[key]].key == key)
    && (pc.Following? ==> OutcomeFits(sh, pc.flight))
    && (key in sh.processes ==> StartedFor(sh, sh.processes[key], key))
    && (pc.Leading? && (pc.stage.Reading? || pc.stage.Looking?) && RecordedDead(sh, key) ==> NoneAlive(sh, key))
  }

  lemma {:induction false} SelfStep(pc: Pc, w: Wid, task: Task, sh: Shared, c: Chance)
    requires Ready(pc, w, task, sh, c)
    ensures var e := Work(pc, w, task, sh, c);
      FlightFits(e.pc, w, KeyOf(task.spec), e.shared) && ProcessFits(e.pc, KeyOf(task.spec), e.shared)
  {
  }

  /** Nothing that other keys' leaders rely on changes. */
  ghost predicate KeepsFor(a: Shared, b: Shared, key: string) {
    && (key in a.inflight ==> key in b.inflight && a.inflight[key] == b.inflight[key])
    && (key in a.processes ==> key in b.processes && a.processes[key] == b.processes[key])
    && (forall p :: p in b.live && StartedFor(b, p, key) ==> p in a.live && StartedFor(a, p, key))
  }

  ghost predicate Extends(a: Shared, b: Shared) {
    && (forall p :: p in a.started ==> p in b.started && a.started[p] == b.started[p])
    && (forall f :: f in a.flights ==> f in b.flights && a.flights[f].key == b.flights[f].key)
  }

  lemma {:induction false} SharedStep(pc: Pc, w: Wid, task: Task, sh: Shared, c: Chance)
    requires Ready(pc, w, task, sh, c)
    ensures var e := Work(pc, w, task, sh, c);
      && Extends(sh, e.shared)
      && (forall f :: f in sh.flights && (pc.Leading? ==> f != pc.flight) ==> e.shared.flights[f] == sh.flights[f])
  {
  }

  lemma {:induction false} OtherKeys(pc: Pc, w: Wid, task: Task, sh: Shared, c: Chance, key: string)
    requires Ready(pc, w, task, sh, c) && (key != KeyOf(task.spec) || (!pc.Leading? && key in sh.inflight))
    ensures KeepsFor(sh, Work(pc, w, task, sh, c).shared, key)
  {
  }

  lemma {:induction false} OtherWorker(pc: Pc, v: Wid, key: string, a: Shared, b: Shared)
    requires FlightFits(pc, v, key, a) && ProcessFits(pc, key, a) && Extends(a, b)
    requires pc.Leading? ==> KeepsFor(a, b, key) && b.flights[pc.flight] == a.flights[pc.flight]
    ensures FlightFits(pc, v, key, b) && ProcessFits(pc, key, b)
  {
  }

  ghost predicate Books(sh: Shared) {
    && (forall f :: f in sh.flights ==> OutcomeFits(sh, f))
    && (forall k :: k in sh.processes ==> StartedFor(sh, sh.processes[k], k))
    && (forall p :: p in sh.live || p in sh.started ==> p in sh.used)
  }

  lemma {:induction false} OutcomeStep(pc: Pc, w: Wid, task: Task, sh: Shared, c: Chance, f: Fid)
    requires Ready(pc, w, task, sh, c) && (f in sh.flights ==> OutcomeFits(sh, f))
    ensures var e := Work(pc, w, task, sh, c); f in e.shared.flights ==> OutcomeFits(e.shared, f)
  {
  }

  lemma {:induction false} RecordStep(pc: Pc, w: Wid, task: Task, sh: Shared, c: Chance, k: string)
    requires Ready(pc, w, task, sh, c) && (k in sh.processes ==> StartedFor(sh, sh.processes[k], k))
    ensures var e := Work(pc, w, task, sh, c); k in e.shared.processes ==> StartedFor(e.shared, e.shared.processes[k], k)
  {
  }

  lemma {:induction false} BooksKept(pc: Pc, w: Wid, task: Task, sh: Shared, c: Chance)
    requires Ready(pc, w, task, sh, c) && Books(sh)
    ensures Books(Work(pc, w, task, sh, c).shared)
  {
    var e := Work(pc, w, task, sh, c);
    forall f | f in e.shared.flights ensures OutcomeFits(e.shared, f) { OutcomeStep(pc, w, task, sh, c, f); }
    forall k | k in e.shared.processes ensures StartedFor(e.shared, e.shared.processes[k], k) { RecordStep(pc, w, task, sh, c, k); }
    assert e.shared == sh || e.shared.used == sh.used || e.shared.used == sh.used + {c.newId};
  }

  lemma {:induction false} PidStep(pc: Pc, w: Wid, task: Task, sh: Shared, c: Chance)
    requires Ready(pc, w, task, sh, c) && (task.phase == Executing ==> task.pid.Some?)
    requires task.pid.Some? ==> StartedFor(sh, task.pid.value, KeyOf(task.spec))
    ensures var e := Work(pc, w, task, sh, c);
      && (e.task.phase == Executing ==> e.task.pid.Some?)
      && (e.task.pid.Some? ==> StartedFor(e.shared, e.task.pid.value, KeyOf(task.spec)))
  {
  }

  lemma {:induction false} GetReady(s: State, w: Wid, c: Chance)
    requires Procs(s) && Enabled(s, Proceed(w, c))
    ensures Ready(s.workers[w], w, s.tasks[s.workers[w].task], s.shared, c)
  {
    assert WorkerOk(s, w);
    var key := KeyAt(s, w);
    assert key in s.shared.inflight ==> InflightFits(s, key);
    if s.workers[w].Leading? && (s.workers[w].stage.Reading? || s.workers[w].stage.Looking?) && RecordedDead(s.shared, key) {
      NoneLeft(s, w);
    }
  }

  lemma {:induction false} WorkersKept(s: State, w: Wid, c: Chance, v: Wid)
    requires Life(s) && Procs(s) && Enabled(s, Proceed(w, c)) && v in s.workers
    ensures WorkerOk(Next(s, Proceed(w, c)), v)
  {
    var pc, task := s.workers[w], s.tasks[s.workers[w].task];
    var s', e := Next(s, Proceed(w, c)), Work(pc, w, task, s.shared, c);
    GetReady(s, w, c);
    assert WorkerLife(s, w) && WorkerLife(s, v) && WorkerOk(s, w) && WorkerOk(s, v);
    WorkLife(pc, w, task, s.shared, c);
    if v == w {
      SelfStep(pc, w, task, s.shared, c);
    } else if !s.workers[v].Waiting? {
      assert KeyAt(s', v) == KeyAt(s, v);
      SharedStep(pc, w, task, s.shared, c);
      if s.workers[v].Leading? {
        assert pc.Leading? ==> KeyAt(s, v) != KeyAt(s, w);
        OtherKeys(pc, w, task, s.shared, c, KeyAt(s, v));
      }
      OtherWorker(s.workers[v], v, KeyAt(s, v), s.shared, e.shared);
    }
  }

  /** Worker `w` before a step, without the rest of the invariant. */
  ghost predicate Poised(s: State, w: Wid, c: Chance) {
    Enabled(s, Proceed(w, c)) && WorkerLife(s, w) && Ready(s.workers[w], w, s.tasks[s.workers[w].task], s.shared, c)
  }

  lemma {:induction false} InflightKept(s: State, w: Wid, c: Chance, k: string)
    requires Poised(s, w, c) && k in Next(s, Proceed(w, c)).shared.inflight && (k in s.shared.inflight ==> InflightFits(s, k))
    ensures InflightFits(Next(s, Proceed(w, c)), k)
  {
    var pc, task := s.workers[w], s.tasks[s.workers[w].task];
    var e, s' := Work(pc, w, task, s.shared, c), Next(s, Proceed(w, c));
    WorkLife(pc, w, task, s.shared, c);
    SharedStep(pc, w, task, s.shared, c);
    if k in s.shared.inflight {
      var l := s.shared.flights[s.shared.inflight[k]].leader;
      if l == w { InflightSelf(pc, w, task, s.shared, c); } else { InflightOther(pc, w, task, s.shared, c, k); }
    } else {
      InflightNew(pc, w, task, s.shared, c, k);
    }
  }

  lemma {:induction false} InflightSelf(pc: Pc, w: Wid, task: Task, sh: Shared, c: Chance)
    requires Ready(pc, w, task, sh, c) && pc.Leading? && KeyOf(task.spec) in Work(pc, w, task, sh, c).shared.inflight
    ensures var e := Work(pc, w, task, sh, c);
      e.pc.Leading? && e.pc.flight == pc.flight && e.shared.inflight == sh.inflight && e.shared.flights == sh.flights
  {
  }

  lemma {:induction false} InflightOther(pc: Pc, w: Wid, task: Task, sh: Shared, c: Chance, k: string)
    requires Ready(pc, w, task, sh, c) && k in sh.inflight && k in Work(pc, w, task, sh, c).shared.inflight
    requires sh.inflight[k] in sh.flights && sh.flights[sh.inflight[k]].key == k && sh.flights[sh.inflight[k]].leader != w
    ensures var e := Work(pc, w, task, sh, c);
      e.shared.inflight[k] == sh.inflight[k] && sh.inflight[k] in e.shared.flights &&
      e.shared.flights[sh.inflight[k]] == sh.flights[sh.inflight[k]]
  {
  }

  lemma {:induction false} InflightNew(pc: Pc, w: Wid, task: Task, sh: Shared, c: Chance, k: string)
    requires Ready(pc, w, task, sh, c) && k !in sh.inflight && k in Work(pc, w, task, sh, c).shared.inflight
    ensures var e := Work(pc, w, task, sh, c);
      k == KeyOf(task.spec) && e.pc.Leading? && e.shared.inflight[k] == e.pc.flight &&
      e.pc.flight in e.shared.flights && e.shared.flights[e.pc.flight] == Flight(k, w, None)
  {
  }

  /** The ways a step can touch the process that a key's leader or record stands for. */
  lemma {:induction false} LiveStep(pc: Pc, w: Wid, task: Task, sh: Shared, c: Chance, p: Pid)
    requires Ready(pc, w, task, sh, c)
    requires var e := Work(pc, w, task, sh, c); p in e.shared.live && p in e.shared.started
    ensures var e := Work(pc, w, task, sh, c);
      || (p in sh.live && p in sh.started && e.shared.started[p] == sh.started[p])
      || (e.shared.started[p] == task.spec && e.pc.Leading? && e.pc.stage == Checking(p) &&
          e.shared.inflight == sh.inflight && e.shared.flights == sh.flights)
  {
  }

  lemma {:induction false} LeaderLiveStep(pc: Pc, w: Wid, task: Task, sh: Shared, c: Chance, p: Pid)
    requires Ready(pc, w, task, sh, c) && pc.Leading? && (pc.stage == Checking(p) || pc.stage == Recording(p)) && p in sh.live
    ensures var e := Work(pc, w, task, sh, c);
      || (e.pc.Leading? && e.pc.stage == Recording(p) && e.shared == sh)
      || (KeyOf(task.spec) in e.shared.processes && e.shared.processes[KeyOf(task.spec)] == p)
  {
  }

  lemma {:induction false} RecordedStep(pc: Pc, w: Wid, task: Task, sh: Shared, c: Chance, k: string, p: Pid)
    requires Ready(pc, w, task, sh, c) && k in sh.processes && sh.processes[k] == p && p in sh.live && StartedFor(sh, p, k)
    ensures var e := Work(pc, w, task, sh, c); k in e.shared.processes && e.shared.processes[k] == p
  {
  }

  lemma {:induction false} OwnedKept(s: State, w: Wid, c: Chance, p: Pid)
    requires Poised(s, w, c) && (p in s.shared.live && p in s.shared.started ==> Owned(s, p))
    requires var sh := Next(s, Proceed(w, c)).shared; p in sh.live && p in sh.started
    requires p in s.shared.started && KeyOf(s.shared.started[p]) in s.shared.inflight ==>
      InflightFits(s, KeyOf(s.shared.started[p]))
    ensures Owned(Next(s, Proceed(w, c)), p)
  {
    var pc, task, sh := s.workers[w], s.tasks[s.workers[w].task], s.shared;
    LiveStep(pc, w, task, sh, c, p);
    if p in sh.live && p in sh.started {
      var key := KeyOf(sh.started[p]);
      if key in sh.processes && sh.processes[key] == p {
        RecordedStep(pc, w, task, sh, c, key, p);
      } else {
        var l := sh.flights[sh.inflight[key]].leader;
        if l == w {
          LeaderLiveStep(pc, w, task, sh, c, p);
        } else {
          OtherKeys(pc, w, task, sh, c, key);
          InflightOther(pc, w, task, sh, c, key);
        }
      }
    }
  }

  lemma {:induction false} PidKept(s: State, w: Wid, c: Chance, t: TaskId)
    requires Poised(s, w, c) && t in s.tasks && TaskPid(s, t)
    ensures var s' := Next(s, Proceed(w, c)); t in s'.tasks && TaskPid(s', t)
  {
    var pc, task := s.workers[w], s.tasks[s.workers[w].task];
    WorkLife(pc, w, task, s.shared, c);
    if t == pc.task { PidStep(pc, w, task, s.shared, c); } else { SharedStep(pc, w, task, s.shared, c); }
  }

  lemma {:induction false} GetPoised(s: State, w: Wid, c: Chance)
    requires Life(s) && Procs(s) && Enabled(s, Proceed(w, c))
    ensures Poised(s, w, c)
  {
    GetReady(s, w, c);
    assert WorkerLife(s, w);
  }

  /** What each part of the invariant needs of a step, without the other parts. */
  lemma {:induction false} TablesKept(s: State, w: Wid, c: Chance)
    requires Poised(s, w, c)
    requires forall k :: k in s.shared.inflight ==> InflightFits(s, k)
    requires forall p :: p in s.shared.live && p in s.shared.started ==> Owned(s, p)
    ensures var s' := Next(s, Proceed(w, c));
      && (forall k :: k in s'.shared.inflight ==> InflightFits(s', k))
      && (forall p :: p in s'.shared.live && p in s'.shared.started ==> Owned(s', p))
  {
    var s' := Next(s, Proceed(w, c));
    forall k | k in s'.shared.inflight ensures InflightFits(s', k) { InflightKept(s, w, c, k); }
    forall p | p in s'.shared.live && p in s'.shared.started ensures Owned(s', p) { OwnedKept(s, w, c, p); }
  }

  lemma {:induction false} PidsKept(s: State, w: Wid, c: Chance)
    requires Poised(s, w, c) && forall t :: t in s.tasks ==> TaskPid(s, t)
    ensures var s' := Next(s, Proceed(w, c)); forall t :: t in s'.tasks ==> TaskPid(s', t)
  {
    var s' := Next(s, Proceed(w, c));
    forall t | t in s'.tasks ensures TaskPid(s', t) { PidKept(s, w, c, t); }
  }

  lemma {:induction false} ProceedBooks(s: State, w: Wid, c: Chance)
    requires Poised(s, w, c) && Books(s.shared)
    ensures Books(Next(s, Proceed(w, c)).shared)
  {
    BooksKept(s.workers[w], w, s.tasks[s.workers[w].task], s.shared, c);
  }

  lemma {:induction false} ProceedWorkers(s: State, w: Wid, c: Chance)
    requires Life(s) && Procs(s) && Enabled(s, Proceed(w, c))
    ensures var s' := Next(s, Proceed(w, c)); forall v :: v in s'.workers ==> WorkerOk(s', v)
  {
    var s' := Next(s, Proceed(w, c));
    forall v | v in s'.workers ensures WorkerOk(s', v) { WorkersKept(s, w, c, v); }
  }

  lemma {:induction false} ProceedKeepsProcs(s: State, w: Wid, c: Chance)
    requires Life(s) && Procs(s) && Enabled(s, Proceed(w, c))
    ensures Procs(Next(s, Proceed(w, c)))
  {
    GetPoised(s, w, c);
    ProceedWorkers(s, w, c);
    TablesKept(s, w, c);
    ProceedBooks(s, w, c);
    PidsKept(s, w, c);
  }

  /** Actions that leave the shared tables alone, or only let processes come and go. */
  lemma {:induction false} OthersKeepProcs(s: State, a: Action)
    requires Life(s) && Procs(s) && Enabled(s, a) && !a.Proceed?
    ensures Procs(Next(s, a))
  {
    var s' := Next(s, a);
    forall v | v in s'.workers ensures WorkerOk(s', v) {
      assert v in s.workers && WorkerOk(s, v) && WorkerLife(s, v);
      OtherWorkerKept(s, a, v);
    }
    forall k | k in s'.shared.inflight ensures InflightFits(s', k) {
      assert InflightFits(s, k);
      OtherInflight(s, a, k);
    }
    forall p | p in s'.shared.live && p in s'.shared.started ensures Owned(s', p) {
      assert p in s.shared.live && Owned(s, p);
      assert KeyOf(s.shared.started[p]) in s.shared.inflight ==> InflightFits(s, KeyOf(s.shared.started[p]));
      OtherOwned(s, a, p);
    }
    forall t | t in s'.tasks ensures TaskPid(s', t) { assert t in s.tasks ==> TaskPid(s, t); }
    assert Books(s.shared);
    OtherBooks(s, a);
  }

  lemma {:induction false} OtherInflight(s: State, a: Action, k: string)
    requires Enabled(s, a) && !a.Proceed? && k in s.shared.inflight && InflightFits(s, k)
    ensures k in Next(s, a).shared.inflight && InflightFits(Next(s, a), k)
  {
    LeaderKept(s, a, s.shared.flights[s.shared.inflight[k]].leader);
  }

  lemma {:induction false} OtherOwned(s: State, a: Action, p: Pid)
    requires Enabled(s, a) && !a.Proceed? && p in s.shared.started && Owned(s, p)
    requires KeyOf(s.shared.started[p]) in s.shared.inflight ==> InflightFits(s, KeyOf(s.shared.started[p]))
    ensures p in Next(s, a).shared.started && Owned(Next(s, a), p)
  {
    var key := KeyOf(s.shared.started[p]);
    if key in s.shared.inflight { LeaderKept(s, a, s.shared.flights[s.shared.inflight[key]].leader); }
  }

  lemma {:induction false} OtherBooks(s: State, a: Action)
    requires Books(s.shared) && Enabled(s, a) && !a.Proceed?
    ensures Books(Next(s, a).shared)
  {
    var sh, sh' := s.shared, Next(s, a).shared;
    assert sh'.started == sh.started && sh'.flights == sh.flights && sh'.processes == sh.processes;
    forall f | f in sh'.flights ensures OutcomeFits(sh', f) { assert OutcomeFits(sh, f); }
  }

  lemma {:induction false} LeaderKept(s: State, a: Action, l: Wid)
    requires Enabled(s, a) && !a.Proceed? && Has(s, l) && s.workers[l].Leading?
    ensures Has(Next(s, a), l) && Next(s, a).workers[l] == s.workers[l] && KeyAt(Next(s, a), l) == KeyAt(s, l)
  {
  }

  lemma {:induction false} OtherWorkerKept(s: State, a: Action, v: Wid)
    requires Enabled(s, a) && !a.Proceed? && v in s.workers && WorkerOk(s, v) && WorkerLife(s, v)
    requires forall p :: p in s.shared.live || p in s.shared.started ==> p in s.shared.used
    ensures WorkerOk(Next(s, a), v)
  {
    var s' := Next(s, a);
    if !s'.workers[v].Waiting? && !s.workers[v].Waiting? {
      assert s'.workers[v] == s.workers[v] && Has(s', v) && KeyAt(s', v) == KeyAt(s, v);
      OtherWorker(s.workers[v], v, KeyAt(s, v), s.shared, s'.shared);
    }
  }

  // ----- groups

  ghost predicate Groups(s: State) {
    forall g, t :: g in s.groups && t in s.groups[g] ==> t in s.origin && s.origin[t] == g
  }

  ghost predicate Origins(s: State) { s.origin.Keys <= s.tasks.Keys && Groups(s) }

  lemma {:induction false} GroupsKept(s: State, a: Action)
    requires Origins(s) && Enabled(s, a)
    ensures Origins(Next(s, a))
  {
  }

  /** Lookup through a group: only tasks submitted through it. */
  function GroupLookup(s: State, g: Gid, t: TaskId): Option<Task> {
    if t in GroupTasks(s, g) && t in s.registry && t in s.tasks then Some(s.tasks[t]) else None
  }

  // ----- every run

  ghost predicate Inv(s: State) { Life(s) && Procs(s) && Origins(s) && |s.workers| == THREAD_COUNT }

  lemma {:induction false} StepKeepsInv(s: State, s': State)
    requires Inv(s) && Step(s, s')
    ensures Inv(s')
  {
    var a :| Enabled(s, a) && s' == Next(s, a);
    LifeKept(s, a);
    if a.Proceed? { ProceedKeepsProcs(s, a.w, a.c); } else { OthersKeepProcs(s, a); }
    GroupsKept(s, a);
    WorkersStay(s, a);
  }

  lemma {:induction false} WorkersStay(s: State, a: Action)
    requires Enabled(s, a)
    ensures Next(s, a).workers.Keys == s.workers.Keys && |Next(s, a).workers| == |s.workers|
  {
    assert Next(s, a).workers.Keys == s.workers.Keys;
    assert |s.workers| == |s.workers.Keys| && |Next(s, a).workers| == |Next(s, a).workers.Keys|;
  }

  lemma {:induction false} RunKeepsInv(run: seq<State>, i: nat)
    requires Run(run) && i < |run|
    ensures Inv(run[i])
  {
    if i > 0 {
      RunKeepsInv(run, i - 1);
      assert Step(run[i - 1], run[i - 1 + 1]);
      StepKeepsInv(run[i - 1], run[i]);
    }
  }

  /** In every run, at most one process started for given path, arguments and environment
      is alive at a time. */
  lemma {:induction false} OneLiveProcessPerModule(run: seq<State>, i: nat, p: Pid, q: Pid)
    requires Run(run) && i < |run|
    requires var sh := run[i].shared; p in sh.live && q in sh.live && p in sh.started && q in sh.started
    requires var sh := run[i].shared; KeyOf(sh.started[p]) == KeyOf(sh.started[q])
    ensures p == q
  {
    RunKeepsInv(run, i);
    OneProcess(run[i], p, q);
  }

  /** A task that reached Executing carries the id of a process started for its own path,
      arguments and environment. */
  lemma {:induction false} TasksRunOnTheirModule(run: seq<State>, i: nat, t: TaskId)
    requires Run(run) && i < |run| && t in run[i].tasks && (run[i].tasks[t].phase == Executing || run[i].tasks[t].pid.Some?)
    ensures var task, sh := run[i].tasks[t], run[i].shared;
      && task.pid.Some? && task.pid.value in sh.started
      && var m := sh.started[task.pid.value];
      m.path == task.spec.path && m.args == task.spec.args && m.env == task.spec.env
  {
    RunKeepsInv(run, i);
    assert TaskPid(run[i], t);
    KeyInjective(run[i].shared.started[run[i].tasks[t].pid.value], run[i].tasks[t].spec);
  }

  /** What one step may do to a task: move forward, and nothing once it is over. */
  ghost predicate Forward(a: Task, b: Task) {
    && b.spec == a.spec && b.notify == a.notify && Rank(a.phase) <= Rank(b.phase)
    && (Terminal(a.phase) ==> b.phase == a.phase && b.pid == a.pid)
    && (a.phase == Executing ==> b.pid == a.pid)
  }

  lemma {:induction false} ProceedForward(s: State, w: Wid, c: Chance, t: TaskId)
    requires Enabled(s, Proceed(w, c)) && WorkerLife(s, w) && t in s.tasks
    ensures var s' := Next(s, Proceed(w, c)); t in s'.tasks && Forward(s.tasks[t], s'.tasks[t])
  {
    var pc, task := s.workers[w], s.tasks[s.workers[w].task];
    WorkLife(pc, w, task, s.shared, c);
    WorkPid(pc, w, task, s.shared, c);
  }

  lemma {:induction false} OtherForward(s: State, a: Action, t: TaskId)
    requires Enabled(s, a) && !a.Proceed? && t in s.tasks
    ensures t in Next(s, a).tasks && Forward(s.tasks[t], Next(s, a).tasks[t])
  {
  }

  lemma {:induction false} StepForward(s: State, s': State, t: TaskId)
    requires WorkersLive(s) && Step(s, s') && t in s.tasks
    ensures t in s'.tasks && Forward(s.tasks[t], s'.tasks[t])
  {
    var a :| Enabled(s, a) && s' == Next(s, a);
    if a.Proceed? { ProceedForward(s, a.w, a.c, t); } else { OtherForward(s, a, t); }
  }

  lemma {:induction false} WorkPid(pc: Pc, w: Wid, task: Task, sh: Shared, c: Chance)
    requires CanWork(pc, task, sh, c) && PhaseFits(pc, task.phase)
    ensures task.phase == Executing ==> Work(pc, w, task, sh, c).task.pid == task.pid
  {
  }

  lemma {:induction false} ForwardTransitive(a: Task, b: Task, c: Task)
    requires Forward(a, b) && Forward(b, c) && (a.phase == Executing && Rank(b.phase) == 3 ==> b.pid == a.pid)
    ensures Forward(a, c)
  {
  }

  /** In every run a task only moves forward through its phases, and ends once. */
  lemma {:induction false} TasksMoveForward(run: seq<State>, i: nat, j: nat, t: TaskId)
    requires Run(run) && i <= j < |run| && t in run[i].tasks
    ensures t in run[j].tasks && Forward(run[i].tasks[t], run[j].tasks[t])
    decreases j
  {
    if i < j {
      TasksMoveForward(run, i, j - 1, t);
      RunStepForward(run, j, t);
      ForwardTransitive(run[i].tasks[t], run[j - 1].tasks[t], run[j].tasks[t]);
    }
  }

  lemma {:induction false} RunStepForward(run: seq<State>, j: nat, t: TaskId)
    requires Run(run) && 0 < j < |run| && t in run[j - 1].tasks
    ensures t in run[j].tasks && Forward(run[j - 1].tasks[t], run[j].tasks[t])
  {
    RunStep(run, j);
    StepForward(run[j - 1], run[j], t);
  }

  lemma {:induction false} RunStep(run: seq<State>, j: nat)
    requires Run(run) && 0 < j < |run|
    ensures WorkersLive(run[j - 1]) && Step(run[j - 1], run[j])
  {
    RunKeepsInv(run, j - 1);
    assert Step(run[j - 1], run[j - 1 + 1]);
  }

  /** A task is reported at most once, and only when it is over. */
  lemma {:induction false} ReportedOnce(run: seq<State>, i: nat, t: TaskId)
    requires Run(run) && i < |run|
    ensures run[i].notices[t] <= 1
    ensures t in run[i].notices ==> t in run[i].tasks && Terminal(run[i].tasks[t].phase)
  {
    RunKeepsInv(run, i);
    assert t in run[i].tasks ==> TaskLife(run[i], t);
  }

  function BusyTasks(s: State): set<TaskId> { set t | t in s.tasks && s.tasks[t].worker.Some? }

  lemma {:induction false} BusyWithin(s: State, ws: set<Wid>, ts: set<TaskId>)
    requires forall t :: t in ts ==> t in s.tasks && s.tasks[t].worker.Some? && s.tasks[t].worker.value in ws && TaskLife(s, t)
    ensures |ts| <= |ws|
    decreases |ts|
  {
    if ts != {} {
      var t :| t in ts;
      var w := s.tasks[t].worker.value;
      forall u | u in ts - {t} ensures s.tasks[u].worker.value in ws - {w} {
        assert TaskLife(s, t) && TaskLife(s, u);
      }
      BusyWithin(s, ws - {w}, ts - {t});
    }
  }

  /** At most THREAD_COUNT tasks are between dequeue and completion. */
  lemma {:induction false} BoundedConcurrency(run: seq<State>, i: nat)
    requires Run(run) && i < |run|
    ensures |BusyTasks(run[i])| <= THREAD_COUNT
  {
    RunKeepsInv(run, i);
    var s := run[i];
    forall t | t in BusyTasks(s) ensures s.tasks[t].worker.value in s.workers.Keys { assert TaskLife(s, t); }
    BusyWithin(s, s.workers.Keys, BusyTasks(s));
    assert |s.workers.Keys| == |s.workers|;
  }

  lemma {:induction false} RunKeepsOrigins(run: seq<State>, i: nat)
    requires Run(run) && i < |run|
    ensures Origins(run[i])
  {
    RunKeepsInv(run, i);
  }

  lemma {:induction false} GroupSees(s: State, g: Gid, t: TaskId)
    requires Origins(s)
    ensures GroupLookup(s, g, t).Some? ==> t in s.origin && s.origin[t] == g
    ensures g in s.groups ==>
      var s' := Next(s, GroupDiscard(g, t));
      s'.registry == s.registry || (t in s.origin && s.origin[t] == g && s'.registry == s.registry - {t})
  {
  }

  /** A group sees, and can discard, only tasks that were submitted through it. */
  lemma {:induction false} GroupsAreIsolated(run: seq<State>, i: nat, g: Gid, t: TaskId)
    requires Run(run) && i < |run|
    ensures GroupLookup(run[i], g, t).Some? ==> t in run[i].origin && run[i].origin[t] == g
    ensures Enabled(run[i], GroupDiscard(g, t)) ==>
      var s' := Next(run[i], GroupDiscard(g, t));
      s'.registry == run[i].registry || (t in run[i].origin && run[i].origin[t] == g && s'.registry == run[i].registry - {t})
  {
    RunKeepsOrigins(run, i);
    GroupSees(run[i], g, t);
  }
}
