/** The job execution protocol: launches in the API, two first-in first-out
    queues with unacknowledged deliveries, consumers, the cleaner, and the store.

    Assumptions about code outside the repository: a queue hands deliveries out in
    the order in which they were published; `Ack` removes a delivery for good; the
    cleaner returns only unacknowledged deliveries of consumers that died (to any
    place in the queue); one `UpdateId` is atomic. Everything may fail: a write may
    not land, a read may return an error, a publish may be lost, a launch may be
    abandoned between any two of its steps and a consumer may die at any time. */
module JobProtocol {
  import opened Common
  import opened JobModel

  /** How far a launch has come: the job is inserted; then, when the project needs
      an update, the update job is inserted and published; then the job is published. */
  datatype Stage = Drafted | UpdateDrafted(update: Id) | UpdateSent(update: Id)

  datatype Launch = Launch(kind: Kind, template: Id, project: Id, stage: Stage)

  /** `inbox` holds the deliveries fetched from the queue and not acknowledged. */
  datatype Consumer = Consumer(queue: QueueName, alive: bool, inbox: seq<Task>, phase: Phase)

  datatype Finished = Finished(id: Id, key: TemplateKey, status: Status, failed: bool)

  /** The last six fields record history and no step depends on them, except that
      `known` keeps new identifiers new. */
  datatype State = State(
    store: Store,
    launches: map<Id, Launch>,
    ansible: seq<Task>,
    terraform: seq<Task>,
    consumers: map<Id, Consumer>,
    known: set<Id>,             // identifiers handed out so far
    waitsFor: map<Id, Id>,      // the update job drafted for a launched job
    stampOf: map<Id, nat>,      // published jobs and their publication numbers
    clock: nat,                 // the next publication number
    executed: seq<Task>,        // tasks whose run was started, in order
    finished: seq<Finished>)    // terminal writes of template jobs, in order

  datatype Event =
    | BeginLaunch(id: Id, kind: Kind, template: Id, project: Id)
    | DraftUpdate(id: Id, update: Id)
    | SendUpdate(id: Id, sent: bool)
    | SendJob(id: Id, sent: bool)
    | Abandon(id: Id)
    | Fetch(consumer: Id)
    | Take(consumer: Id)
    | Advance(consumer: Id, landed: bool, readable: bool, success: bool)
    | Crash(consumer: Id)
    | Reclaim(consumer: Id, index: nat, position: nat)
    | Join(consumer: Id, queue: QueueName)
    | DeleteJobs(ids: set<Id>)
    | EditTemplate(key: TemplateKey, summary: Summary)

  function ReadyOf(s: State, q: QueueName): seq<Task> {
    if q == AnsibleQ then s.ansible else s.terraform
  }

  function WithReady(s: State, q: QueueName, r: seq<Task>): State {
    if q == AnsibleQ then s.(ansible := r) else s.(terraform := r)
  }

  function WithConsumer(s: State, c: Id, k: Consumer): State {
    s.(consumers := s.consumers[c := k])
  }

  function PrevOf(g: Stage): Option<Id> {
    if g.UpdateSent? then Some(g.update) else None
  }

  function Publish(s: State, t: Task): State
    requires t.stamp == s.clock
  {
    var q := QueueOf(t.kind);
    WithReady(s, q, ReadyOf(s, q) + [t]).(clock := s.clock + 1, stampOf := s.stampOf[t.id := s.clock])
  }

  /** What a poll of the update job returns. */
  function Poll(s: State, ph: Phase, readable: bool): Option<Status> {
    if ph.Polling? && ph.task.prev.Some? && readable && ph.task.prev.value in s.store.jobs
    then Some(s.store.jobs[ph.task.prev.value].status)
    else None
  }

  predicate Enabled(s: State, ev: Event) {
    match ev
    case BeginLaunch(id, kind, template, project) => id !in s.known
    case DraftUpdate(id, u) =>
      id in s.launches && s.launches[id].stage.Drafted? && s.launches[id].kind != Update && u !in s.known
    case SendUpdate(id, sent) => id in s.launches && s.launches[id].stage.UpdateDrafted?
    case SendJob(id, sent) => id in s.launches && !s.launches[id].stage.UpdateDrafted?
    case Abandon(id) => id in s.launches
    case Fetch(c) => c in s.consumers && s.consumers[c].alive && ReadyOf(s, s.consumers[c].queue) != []
    case Take(c) =>
      c in s.consumers && s.consumers[c].alive && s.consumers[c].phase.Idle? && s.consumers[c].inbox != []
    case Advance(c, landed, readable, success) =>
      c in s.consumers && s.consumers[c].alive && !s.consumers[c].phase.Idle?
    case Crash(c) => c in s.consumers && s.consumers[c].alive
    case Reclaim(c, i, pos) =>
      c in s.consumers && !s.consumers[c].alive && i < |s.consumers[c].inbox|
      && pos <= |ReadyOf(s, s.consumers[c].queue)|
    case Join(c, q) => c !in s.consumers
    case DeleteJobs(ids) => true
    case EditTemplate(key, summary) => true
  }

  function InitialDoc(kind: Kind): Doc {
    Doc(if kind == Update then Pending else New, false)
  }

  function Apply(s: State, ev: Event): State
    requires Enabled(s, ev)
  {
    match ev
    case BeginLaunch(id, kind, template, project) =>
      s.(store := s.store.(jobs := s.store.jobs[id := InitialDoc(kind)]),
         launches := s.launches[id := Launch(kind, template, project, Drafted)],
         known := s.known + {id})
    case DraftUpdate(id, u) =>
      s.(store := s.store.(jobs := s.store.jobs[u := InitialDoc(Update)]),
         launches := s.launches[id := s.launches[id].(stage := UpdateDrafted(u))],
         known := s.known + {u},
         waitsFor := s.waitsFor[id := u])
    case SendUpdate(id, sent) =>
      var l := s.launches[id];
      var s1 := s.(launches := s.launches[id := l.(stage := UpdateSent(l.stage.update))]);
      if sent then Publish(s1, Task(l.stage.update, Update, None, 0, l.project, s.clock)) else s1
    case SendJob(id, sent) =>
      var l := s.launches[id];
      var s1 := s.(launches := s.launches - {id});
      if sent then Publish(s1, Task(id, l.kind, PrevOf(l.stage), l.template, l.project, s.clock)) else s1
    case Abandon(id) => s.(launches := s.launches - {id})
    case Fetch(c) =>
      var k := s.consumers[c];
      var r := ReadyOf(s, k.queue);
      WithConsumer(WithReady(s, k.queue, r[1..]), c, k.(inbox := k.inbox + [r[0]]))
    case Take(c) =>
      var k := s.consumers[c];
      WithConsumer(s, c, k.(inbox := k.inbox[1..], phase := Acked(k.inbox[0])))
    case Advance(c, landed, readable, success) => ApplyAdvance(s, c, landed, readable, success)
    case Crash(c) => WithConsumer(s, c, s.consumers[c].(alive := false, phase := Idle))
    case Reclaim(c, i, pos) =>
      var k := s.consumers[c];
      var r := ReadyOf(s, k.queue);
      WithConsumer(WithReady(s, k.queue, r[..pos] + [k.inbox[i]] + r[pos..]), c,
                   k.(inbox := k.inbox[..i] + k.inbox[i+1..]))
    case Join(c, q) => WithConsumer(s, c, Consumer(q, true, [], Idle))
    case DeleteJobs(ids) => s.(store := s.store.(jobs := s.store.jobs - ids))
    case EditTemplate(key, summary) => s.(store := s.store.(templates := s.store.templates[key := summary]))
  }

  /** One atomic store access of consumer `c`, and the phase change that goes with it. */
  function ApplyAdvance(s: State, c: Id, landed: bool, readable: bool, success: bool): State
    requires c in s.consumers && !s.consumers[c].phase.Idle?
  {
    var k := s.consumers[c];
    var ph := k.phase;
    var w := WriteOf(ph, success);
    var s1 := WithConsumer(s, c, k.(phase := NextPhase(ph, Poll(s, ph, readable), success)));
    s1.(store := if w.Some? && landed then ApplyWrite(s.store, w.value) else s.store,
        executed := if StartsRun(ph) then s.executed + [ph.task] else s.executed,
        finished := if w.Some? && w.value.Finish? && ph.task.kind != Update
                    then s.finished + [Finished(ph.task.id, TemplateKey(QueueOf(ph.task.kind), ph.task.template),
                                                w.value.status, w.value.failed)]
                    else s.finished)
  }

  /** Nothing is launched, queued or stored; templates and projects are arbitrary. */
  predicate Init(s: State) {
    && s.store.jobs == map[] && s.launches == map[] && s.ansible == [] && s.terraform == []
    && s.consumers == map[] && s.known == {} && s.waitsFor == map[] && s.stampOf == map[]
    && s.clock == 0 && s.executed == [] && s.finished == []
  }

  /** `evs` can happen, one after the other, from `s`. */
  predicate Runs(s: State, evs: seq<Event>)
    decreases |evs|, 0
  {
    evs == [] || (Runs(s, evs[..|evs|-1]) && Enabled(After(s, evs[..|evs|-1]), evs[|evs|-1]))
  }

  function After(s: State, evs: seq<Event>): State
    requires Runs(s, evs)
    decreases |evs|, 1
  {
    if evs == [] then s else Apply(After(s, evs[..|evs|-1]), evs[|evs|-1])
  }

  lemma {:induction false} RunsPrefix(s: State, evs: seq<Event>, n: nat)
    requires Runs(s, evs) && n <= |evs|
    ensures Runs(s, evs[..n])
    decreases |evs|
  {
    if n == |evs| {
      assert evs[..n] == evs;
    } else {
      var front := evs[..|evs|-1];
      RunsPrefix(s, front, n);
      assert front[..n] == evs[..n];
    }
  }
}
