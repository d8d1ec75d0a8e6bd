/** What a job is, the atomic writes a consumer makes, and the phase machine a
    consumer goes through for one delivery.

    A delivery is handled by `Consume`, `ansibleRun`, `terraformRun` or `Sync`;
    between two atomic store accesses the handler is in one `Phase`. */
module JobModel {
  import opened Common

  datatype Status = New | Pending | Waiting | Running | Successful | Failed | Error

  predicate Terminal(st: Status) {
    st == Successful || st == Failed || st == Error
  }

  /** The position of a status on the road new, pending, waiting, running, terminal. */
  function Rank(st: Status): nat {
    match st
    case New => 0
    case Pending => 1
    case Waiting => 2
    case Running => 3
    case _ => 4
  }

  /** The two fields of a stored job that the protocol reads or writes. */
  datatype Doc = Doc(status: Status, failed: bool)

  /** The `status` and `last_job_failed` fields of a template or project. */
  datatype Summary = Summary(status: Status, failed: bool)

  datatype QueueName = AnsibleQ | TerraformQ

  /** Play and Provision are the jobs a user launches; Update is the project
      update job that may run before either. */
  datatype Kind = Play | Update | Provision

  function QueueOf(k: Kind): QueueName {
    if k == Provision then TerraformQ else AnsibleQ
  }

  /** A published payload. `stamp` numbers publications in the order in which
      they happened; no step of the protocol reads it. */
  datatype Task = Task(id: Id, kind: Kind, prev: Option<Id>, template: Id, project: Id, stamp: nat)

  datatype TemplateKey = TemplateKey(queue: QueueName, template: Id)

  /** `jobs` holds the documents of both job collections: identifiers never collide. */
  datatype Store = Store(jobs: map<Id, Doc>, projects: map<Id, Summary>, templates: map<TemplateKey, Summary>)

  /** One `UpdateId` call. */
  datatype Write =
    | SetStatus(id: Id, status: Status)
    | Begin(id: Id)
    | Finish(id: Id, status: Status, failed: bool)
    | ToProject(project: Id, status: Status, failed: bool)
    | ToTemplate(key: TemplateKey, status: Status, failed: bool)

  /** `UpdateId` on a document that is not there is an error the code only logs. */
  function ApplyWrite(st: Store, w: Write): Store {
    match w
    case SetStatus(id, s) =>
      if id in st.jobs then st.(jobs := st.jobs[id := st.jobs[id].(status := s)]) else st
    case Begin(id) =>
      if id in st.jobs then st.(jobs := st.jobs[id := Doc(Running, false)]) else st
    case Finish(id, s, f) =>
      if id in st.jobs then st.(jobs := st.jobs[id := Doc(s, f)]) else st
    case ToProject(p, s, f) =>
      if p in st.projects then st.(projects := st.projects[p := Summary(s, f)]) else st
    case ToTemplate(k, s, f) =>
      if k in st.templates then st.(templates := st.templates[k := Summary(s, f)]) else st
  }

  /** Where a consumer stands with the delivery in its hands.
      Acked: acknowledged, nothing written. Marked: "pending" written.
      Waiting: "waiting" written, polling the update job. Cleared: the poll read
      "successful". Blocked: the poll read "failed" or "error". Active: "running"
      written. Closing: the terminal status is written, the project's is next.
      Filing: the template's is next. */
  datatype Phase =
    | Idle
    | Acked(task: Task)
    | Marked(task: Task)
    | Polling(task: Task)
    | Cleared(task: Task)
    | Blocked(task: Task)
    | Active(task: Task)
    | Closing(task: Task, status: Status, failed: bool)
    | Filing(task: Task, status: Status, failed: bool)

  /** Dispatch on the job type comes first, so an update job never waits. */
  predicate MustWait(t: Task) {
    t.kind != Update && t.prev.Some?
  }

  /** The write that leaves phase `ph`; `success` is how the run ended. */
  function WriteOf(ph: Phase, success: bool): Option<Write> {
    match ph
    case Idle => None
    case Acked(t) => Some(SetStatus(t.id, Pending))
    case Marked(t) => Some(if MustWait(t) then SetStatus(t.id, Waiting) else Begin(t.id))
    case Polling(t) => None
    case Cleared(t) => Some(Begin(t.id))
    case Blocked(t) => Some(Finish(t.id, Error, true))
    case Active(t) => Some(if success then Finish(t.id, Successful, false) else Finish(t.id, Failed, true))
    case Closing(t, s, f) => Some(ToProject(t.project, s, f))
    case Filing(t, s, f) => Some(ToTemplate(TemplateKey(QueueOf(t.kind), t.template), s, f))
  }

  /** The phase after `ph`. `read` is what a poll of the update job returned:
      None when the document could not be read. */
  function NextPhase(ph: Phase, read: Option<Status>, success: bool): Phase {
    match ph
    case Idle => Idle
    case Acked(t) => Marked(t)
    case Marked(t) => if MustWait(t) then Polling(t) else Active(t)
    case Polling(t) =>
      if read == Some(Failed) || read == Some(Error) then Blocked(t)
      else if read == Some(Successful) then Cleared(t)
      else ph
    case Cleared(t) => Active(t)
    case Blocked(t) => Closing(t, Error, true)
    case Active(t) => if success then Closing(t, Successful, false) else Closing(t, Failed, true)
    case Closing(t, s, f) => if t.kind == Update then Idle else Filing(t, s, f)
    case Filing(t, s, f) => Idle
  }

  /** Leaving `ph` starts the run of its task. */
  predicate StartsRun(ph: Phase) {
    ph.Cleared? || (ph.Marked? && !MustWait(ph.task))
  }

  /** How many phases a consumer still has to leave, at most. */
  function PhaseWork(ph: Phase): nat {
    match ph
    case Idle => 0
    case Acked(_) => 7
    case Marked(_) => 6
    case Polling(_) => 5
    case Cleared(_) => 4
    case Blocked(_) => 4
    case Active(_) => 3
    case Closing(_, _, _) => 2
    case Filing(_, _, _) => 1
  }
}
