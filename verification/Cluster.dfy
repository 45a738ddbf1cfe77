/**
 The whole worker side as one system: the backend submits and publishes jobs,
 any number of workers read the stream and run them, and every statement or
 batch of any worker is one atomic step (worker/internal/consumer/consumer.go,
 backend/app/services/job_service.py). Workers may crash, and each statement may
 be refused or may be applied while its reply is lost.
 */
module Cluster {
  import opened Records
  import opened Vault
  import opened Jobs
  import opened Cells
  import opened Storage
  import Anonymizer

  type WorkerId = nat

  // ── Messages and programs ──────────────────────────────────────────────

  /**
   What a message asks for; `UnknownJob` is any job refused before its first
   status write (unknown type, missing payload).
   */
  datatype Message = ImportJob | DeidJob(pseudonymize: bool, kind: Kind) | UnknownJob

  /** A stream entry: a backend message, or something no worker can decode. */
  datatype Entry = Junk | JobEntry(job: JobId, msg: Message)

  /** The remaining statements of a running job. */
  datatype Op =
    | Report(progress: int)
    | PutStudents(students: seq<StudentRow>)
    | PutGuardians(guardians: seq<GuardianRow>)
    | PutLinkRow(link: LinkRow)
    | Load(kind: Kind, pseudonymize: bool)
    | Tokenize(cell: Cell)
    | WriteFile
    | Finish

  /** A token in a run's output, with the field it stands for and the plaintext it replaced. */
  datatype Emitted = Emitted(key: Key, value: string, token: string)

  /** The tokenized cells of an output file; its path holds the id of the job that wrote it. */
  datatype File = File(job: JobId, cells: seq<Emitted>)

  /** The fields a file is about, without their tokens. */
  function FieldsOf(cells: seq<Emitted>): (values: seq<Cell>)
    ensures |values| == |cells|
  {
    seq(|cells|, i requires 0 <= i < |cells| => Cell(cells[i].key, cells[i].value))
  }

  /** What a finished job must have brought about. */
  datatype Fact = StudentStored(id: Uuid) | GuardianStored(id: Uuid) | FileWritten(job: JobId, load: seq<Cell>)

  function StudentOps(batches: seq<seq<StudentRow>>): seq<Op>
  {
    seq(|batches|, i requires 0 <= i < |batches| => PutStudents(batches[i]))
  }

  function GuardianOps(batches: seq<seq<GuardianRow>>): seq<Op>
  {
    seq(|batches|, i requires 0 <= i < |batches| => PutGuardians(batches[i]))
  }

  function LinkOps(links: seq<LinkRow>): seq<Op>
  {
    seq(|links|, i requires 0 <= i < |links| => PutLinkRow(links[i]))
  }

  function TokenizeOps(cells: seq<Cell>): seq<Op>
  {
    seq(|cells|, i requires 0 <= i < |cells| => Tokenize(cells[i]))
  }

  /** An import: students, guardians, links, with a status write between the files. */
  function ImportPlan(students: seq<seq<StudentRow>>, guardians: seq<seq<GuardianRow>>, links: seq<LinkRow>): seq<Op>
  {
    [Report(10)] + (StudentOps(students) + ([Report(45)] + (GuardianOps(guardians)
      + ([Report(70)] + (LinkOps(links) + [Report(95), Finish])))))
  }

  function DeidPlan(pseudonymize: bool, kind: Kind): seq<Op>
  {
    [Report(10), Load(kind, pseudonymize)]
  }

  /** Of the loaded cells, those to be tokenized: none when anonymizing. */
  function ToTokenize(pseudonymize: bool, cells: seq<Cell>): seq<Cell>
  {
    if pseudonymize then cells else []
  }

  /** After the load: one upsert per cell to tokenize, then the file. */
  function AfterLoad(pseudonymize: bool, cells: seq<Cell>): seq<Op>
  {
    [Report(35)] + (TokenizeOps(ToTokenize(pseudonymize, cells)) + [Report(70), WriteFile, Report(95), Finish])
  }

  /** The program a message allows; which rows an import holds is up to the files. */
  ghost predicate PlanFits(entry: Entry, plan: seq<Op>)
  {
    entry.JobEntry? ==>
      match entry.msg
      case ImportJob => exists s, g, l :: plan == ImportPlan(s, g, l)
      case DeidJob(p, k) => plan == DeidPlan(p, k)
      case UnknownJob => true
  }

  /** The cells of all people of one kind, as one load of the current tables reads them. */
  ghost predicate IsLoad(core: Core, kind: Kind, cells: seq<Cell>)
  {
    match kind
    case Student =>
      exists rows :: LoadedFrom(rows, core.students) && cells == AllCells(Anonymizer.Entities(rows), FIELDS)
    case Guardian =>
      exists rows :: LoadedFrom(rows, core.guardians) && cells == AllCells(Anonymizer.GuardianEntities(rows), FIELDS)
  }

  // ── State ──────────────────────────────────────────────────────────────

  /** Where a worker's loop stands. */
  datatype Local =
    | Idle
    | Got(entry: nat)
    | Busy(entry: nat, job: JobId, ops: seq<Op>, cells: seq<Emitted>)
    | Failing(entry: nat, job: JobId)
    | Acking(entry: nat)

  datatype Data = Data(core: Core, vault: PseudonymMap, issued: set<string>, released: set<File>)

  datatype Queue = Queue(unpublished: set<JobId>, stream: seq<Entry>, cursor: nat, pending: set<nat>, acked: set<nat>)

  /** Observations that no step depends on. */
  datatype History = History(
    deliveries: seq<nat>,
    begun: set<nat>,
    lost: set<JobId>,
    unheard: set<JobId>,
    goals: map<JobId, set<Fact>>)

  datatype State = State(data: Data, jobs: JobTable, queue: Queue, workers: map<WorkerId, Local>, history: History)

  function Init(core: Core): State
  {
    State(Data(core, map[], {}, {}), map[], Queue({}, [], 0, {}, {}), map[], History([], {}, {}, {}, map[]))
  }

  // ── Steps ──────────────────────────────────────────────────────────────

  datatype Action =
    | Submit(job: JobId)
    | Publish(job: JobId, msg: Message)
    | Intrude
    | Start(w: WorkerId)
    | Crash(w: WorkerId)
    | Deliver(w: WorkerId)
    | LoseDelivery
    | Begin(w: WorkerId, plan: seq<Op>, reply: Reply)
    | Perform(w: WorkerId, reply: Reply, token: string, loaded: seq<Cell>)
    | Abort(w: WorkerId)
    | Fail(w: WorkerId, reply: Reply)
    | Acknowledge(w: WorkerId, ok: bool)

  ghost predicate Enabled(s: State, a: Action)
  {
    match a
    case Submit(job) => job !in s.jobs
    case Publish(job, _) => job in s.queue.unpublished
    case Intrude => true
    case Start(w) => w !in s.workers
    case Crash(w) => w in s.workers
    case Deliver(w) => w in s.workers && s.workers[w].Idle? && s.queue.cursor < |s.queue.stream|
    case LoseDelivery => s.queue.cursor < |s.queue.stream|
    case Begin(w, plan, _) =>
      && w in s.workers && s.workers[w].Got?
      && s.workers[w].entry < |s.queue.stream| && PlanFits(s.queue.stream[s.workers[w].entry], plan)
    case Perform(w, _, token, loaded) =>
      && w in s.workers && s.workers[w].Busy? && s.workers[w].ops != []
      && (s.workers[w].ops[0].Load? ==> IsLoad(s.data.core, s.workers[w].ops[0].kind, loaded))
      && (s.workers[w].ops[0].Tokenize? ==> token !in s.data.issued)
    case Abort(w) => w in s.workers && s.workers[w].Busy?
    case Fail(w, _) => w in s.workers && s.workers[w].Failing?
    case Acknowledge(w, _) => w in s.workers && s.workers[w].Acking?
  }

  function Applied(reply: Reply): bool
  {
    !reply.Refused?
  }

  /** `XREADGROUP` with ">": the next undelivered entry becomes pending. */
  function DeliverNext(s: State): State
  {
    var e := s.queue.cursor;
    s.(queue := s.queue.(cursor := e + 1, pending := s.queue.pending + {e}),
       history := s.history.(deliveries := s.history.deliveries + [e]))
  }

  function Move(s: State, w: WorkerId, l: Local): State
  {
    s.(workers := s.workers[w := l])
  }

  /** The rows a plan promises to store. */
  ghost function Promised(plan: seq<Op>): set<Fact>
  {
    (set op, r | op in plan && op.PutStudents? && r in op.students :: StudentStored(Canon(r.id)))
    + (set op, r | op in plan && op.PutGuardians? && r in op.guardians :: GuardianStored(Canon(r.id)))
  }

  /** Decoding, dispatch, and the transition to "processing". */
  ghost function Begun(s: State, w: WorkerId, plan: seq<Op>, reply: Reply): State
    requires w in s.workers && s.workers[w].Got? && s.workers[w].entry < |s.queue.stream|
  {
    var e := s.workers[w].entry;
    var t := s.(history := s.history.(begun := s.history.begun + {e}));
    match s.queue.stream[e]
    case Junk => Move(t, w, Acking(e))
    case JobEntry(job, msg) =>
      if msg.UnknownJob? then Move(t, w, Failing(e, job))
      else
        var jobs := if Applied(reply) then Progressed(s.jobs, job, 5) else s.jobs;
        if reply.Acknowledged? && job in s.jobs
        then Move(t.(jobs := jobs, history := t.history.(goals := t.history.goals[job := Promised(plan)])),
                  w, Busy(e, job, plan, []))
        else Move(t.(jobs := jobs), w, Failing(e, job))
  }

  /** A worker that goes on after its first remaining statement, or gives up. */
  function Continue(l: Local, ok: bool): Local
    requires l.Busy? && l.ops != []
  {
    if ok then l.(ops := l.ops[1..]) else Failing(l.entry, l.job)
  }

  /** The effect of one statement on the tables. */
  function Effect(d: Data, op: Op, token: string, file: File): Data
  {
    match op
    case PutStudents(rows) => d.(core := d.core.(students := PutAll(d.core.students, rows)))
    case PutGuardians(rows) => d.(core := d.core.(guardians := PutAll(d.core.guardians, rows)))
    case PutLinkRow(l) => d.(core := PutLink(d.core, l))
    case Tokenize(c) => d.(vault := Upsert(d.vault, c.key, Sha256(c.value), token))
    case WriteFile => d.(released := d.released + {file})
    case _ => d
  }

  /** The tables after a worker's first remaining statement; a drawn token is used up in any case. */
  function DataAfter(d: Data, l: Local, reply: Reply, token: string): Data
    requires l.Busy? && l.ops != []
  {
    var done := if Applied(reply) then Effect(d, l.ops[0], token, File(l.job, l.cells)) else d;
    if l.ops[0].Tokenize? then done.(issued := done.issued + {token}) else done
  }

  function JobsAfter(jobs: JobTable, l: Local, reply: Reply): JobTable
    requires l.Busy? && l.ops != []
  {
    if !Applied(reply) then jobs
    else match l.ops[0]
      case Report(p) => Progressed(jobs, l.job, p)
      case Finish => Finished(jobs, l.job)
      case _ => jobs
  }

  /**
   Where the worker goes on. A failed status write or link insert is logged and
   passed over; any other statement that is not acknowledged ends the run.
   */
  function LocalAfter(d: Data, l: Local, reply: Reply, token: string, loaded: seq<Cell>): Local
    requires l.Busy? && l.ops != []
  {
    match l.ops[0]
    case Report(_) => Continue(l, true)
    case PutLinkRow(_) => Continue(l, true)
    case Load(_, p) => if reply.Acknowledged? then l.(ops := AfterLoad(p, loaded), cells := []) else Continue(l, false)
    case Tokenize(c) =>
      var effective := if c.key in d.vault then d.vault[c.key].token else token;
      if reply.Acknowledged? then l.(ops := l.ops[1..], cells := l.cells + [Emitted(c.key, c.value, effective)])
      else Continue(l, false)
    case Finish => if reply.Acknowledged? then Acking(l.entry) else Continue(l, false)
    case _ => Continue(l, reply.Acknowledged?)
  }

  ghost function HistoryAfter(h: History, l: Local, reply: Reply, loaded: seq<Cell>): History
    requires l.Busy? && l.ops != []
  {
    match l.ops[0]
    case Load(_, p) =>
      if !reply.Acknowledged? then h
      else
        var known := if l.job in h.goals then h.goals[l.job] else {};
        h.(goals := h.goals[l.job := known + {FileWritten(l.job, ToTokenize(p, loaded))}])
    case Finish => if reply.Unheard? then h.(unheard := h.unheard + {l.job}) else h
    case _ => h
  }

  /** Executing the first remaining statement of a job. */
  ghost function Performed(s: State, w: WorkerId, reply: Reply, token: string, loaded: seq<Cell>): State
    requires w in s.workers && s.workers[w].Busy? && s.workers[w].ops != []
  {
    var l := s.workers[w];
    State(DataAfter(s.data, l, reply, token), JobsAfter(s.jobs, l, reply), s.queue,
          s.workers[w := LocalAfter(s.data, l, reply, token, loaded)], HistoryAfter(s.history, l, reply, loaded))
  }

  ghost function Next(s: State, a: Action): State
    requires Enabled(s, a)
  {
    match a
    case Submit(job) =>
      s.(jobs := s.jobs[job := NEW_JOB], queue := s.queue.(unpublished := s.queue.unpublished + {job}))
    case Publish(job, msg) =>
      s.(queue := s.queue.(unpublished := s.queue.unpublished - {job}, stream := s.queue.stream + [JobEntry(job, msg)]))
    case Intrude => s.(queue := s.queue.(stream := s.queue.stream + [Junk]))
    case Start(w) => Move(s, w, Idle)
    case Crash(w) => s.(workers := s.workers - {w})
    case Deliver(w) => Move(DeliverNext(s), w, Got(s.queue.cursor))
    case LoseDelivery => DeliverNext(s)
    case Begin(w, plan, reply) => Begun(s, w, plan, reply)
    case Perform(w, reply, token, loaded) => Performed(s, w, reply, token, loaded)
    case Abort(w) => Move(s, w, Failing(s.workers[w].entry, s.workers[w].job))
    case Fail(w, reply) =>
      var l := s.workers[w];
      if Applied(reply)
      then Move(s.(jobs := Broken(s.jobs, l.job, "failed")), w, Acking(l.entry))
      else Move(s.(history := s.history.(lost := s.history.lost + {l.job})), w, Acking(l.entry))
    case Acknowledge(w, ok) =>
      var e := s.workers[w].entry;
      var q := if ok then s.queue.(pending := s.queue.pending - {e}, acked := s.queue.acked + {e}) else s.queue;
      Move(s.(queue := q), w, Idle)
  }

  /** A run from given entity tables; an action that is not enabled where it stands is skipped. */
  ghost function Run(core: Core, acts: seq<Action>): State
  {
    if acts == [] then Init(core)
    else
      var s := Run(core, acts[..|acts| - 1]);
      if Enabled(s, acts[|acts| - 1]) then Next(s, acts[|acts| - 1]) else s
  }
}
