/** Safety of the job protocol in every run: crashes, redelivery, lost writes,
    lost publishes, abandoned launches and deletions included.

    The key is that a job identifier is in at most one place at a time, so exactly
    one party can write its document. */
module JobSafety {
  import opened Common
  import opened JobModel
  import opened JobProtocol

  /** The places where a job can be on its way to being finished. */
  datatype Place =
    | AtLaunch(id: Id)                 // inserted, not published
    | AtDraft(id: Id)                  // the update job drafted by launch `id`
    | AtQueue(queue: QueueName, index: nat)
    | AtInbox(consumer: Id, index: nat)
    | AtHand(consumer: Id)

  function TaskAt(s: State, p: Place): Option<Task> {
    match p
    case AtQueue(q, i) => if i < |ReadyOf(s, q)| then Some(ReadyOf(s, q)[i]) else None
    case AtInbox(c, i) =>
      if c in s.consumers && i < |s.consumers[c].inbox| then Some(s.consumers[c].inbox[i]) else None
    case AtHand(c) =>
      if c in s.consumers && !s.consumers[c].phase.Idle? then Some(s.consumers[c].phase.task) else None
    case _ => None
  }

  function IdAt(s: State, p: Place): Option<Id> {
    match p
    case AtLaunch(id) => if id in s.launches then Some(id) else None
    case AtDraft(id) =>
      if id in s.launches && s.launches[id].stage.UpdateDrafted? then Some(s.launches[id].stage.update) else None
    case _ => if TaskAt(s, p).Some? then Some(TaskAt(s, p).value.id) else None
  }

  /** No job is in two places. */
  ghost predicate Unique(s: State) {
    forall p, r :: IdAt(s, p).Some? && IdAt(s, p) == IdAt(s, r) ==> p == r
  }

  /** The furthest status a document may have while its job is in place `p`. */
  function PhaseRank(ph: Phase): nat {
    match ph
    case Idle => 0
    case Acked(_) => 1
    case Marked(_) => 1
    case Polling(_) => 2
    case Cleared(_) => 2
    case Blocked(_) => 2
    case Active(_) => 3
    case Closing(_, _, _) => 4
    case Filing(_, _, _) => 4
  }

  function Ceiling(s: State, p: Place): nat {
    if p.AtHand? && p.consumer in s.consumers then PhaseRank(s.consumers[p.consumer].phase) else 1
  }

  ghost predicate Ranked(s: State) {
    forall p :: IdAt(s, p).Some? && IdAt(s, p).value in s.store.jobs
                ==> Rank(s.store.jobs[IdAt(s, p).value].status) <= Ceiling(s, p)
  }

  /** Identifiers are new only once. */
  ghost predicate Known(s: State) {
    && (forall p :: IdAt(s, p).Some? ==> IdAt(s, p).value in s.known)
    && s.store.jobs.Keys <= s.known
    && s.waitsFor.Keys <= s.known
    && (forall id :: id in s.waitsFor ==> s.waitsFor[id] in s.known && s.waitsFor[id] != id)
    && (forall i :: 0 <= i < |s.executed| ==> s.executed[i].id in s.known)
  }

  /** A consumer in this phase has started the run of its task. */
  predicate Started(ph: Phase) {
    ph.Active? || ((ph.Closing? || ph.Filing?) && ph.status != Error)
  }

  predicate HasRun(s: State, id: Id) {
    exists i :: 0 <= i < |s.executed| && s.executed[i].id == id
  }

  /** Each run starts once, and a job that ran is in no place but the hand that ran it. */
  ghost predicate RunsOnce(s: State) {
    && (forall i, j :: 0 <= i < j < |s.executed| ==> s.executed[i].id != s.executed[j].id)
    && (forall p :: IdAt(s, p).Some? && HasRun(s, IdAt(s, p).value)
                    ==> p.AtHand? && Started(s.consumers[p.consumer].phase))
    && (forall c :: c in s.consumers && Started(s.consumers[c].phase) ==> HasRun(s, s.consumers[c].phase.task.id))
  }

  /** `failed` is set exactly on the failing statuses. */
  ghost predicate Flagged(s: State) {
    forall id :: id in s.store.jobs ==>
      (s.store.jobs[id].failed <==> s.store.jobs[id].status == Failed || s.store.jobs[id].status == Error)
  }

  /** The stored status of the update job, unless its document was deleted. */
  predicate Reads(s: State, u: Id, sts: set<Status>) {
    u in s.store.jobs ==> s.store.jobs[u].status in sts
  }

  const FAILING := {Failed, Error}

  function Awaited(s: State, id: Id): Option<Id> {
    if id in s.waitsFor then Some(s.waitsFor[id]) else None
  }

  predicate LinkedLaunch(s: State, id: Id)
    requires id in s.launches
  {
    match s.launches[id].stage
    case Drafted => id !in s.waitsFor
    case UpdateDrafted(u) => s.launches[id].kind != Update && Awaited(s, id) == Some(u) && u !in s.waitsFor
    case UpdateSent(u) => s.launches[id].kind != Update && Awaited(s, id) == Some(u)
  }

  /** Payloads name the update job their launch drafted. */
  ghost predicate Linked(s: State) {
    && (forall p :: TaskAt(s, p).Some? ==> TaskAt(s, p).value.prev == Awaited(s, TaskAt(s, p).value.id))
    && (forall p :: TaskAt(s, p).Some? && TaskAt(s, p).value.kind == Update ==> TaskAt(s, p).value.prev == None)
    && (forall i :: 0 <= i < |s.executed| ==> s.executed[i].prev == Awaited(s, s.executed[i].id))
    && (forall id :: id in s.launches ==> LinkedLaunch(s, id))
  }

  /** A consumer in this phase read that the update job failed. */
  predicate HeldBack(ph: Phase) {
    ph.Blocked? || ((ph.Closing? || ph.Filing?) && ph.status == Error)
  }

  /** A run, a consumer past its poll and a terminal document all agree with the
      stored status of the update job they depend on. */
  ghost predicate Dependent(s: State) {
    && (forall c :: c in s.consumers && s.consumers[c].phase.Polling? ==> s.consumers[c].phase.task.prev.Some?)
    && (forall c :: c in s.consumers && s.consumers[c].phase.Cleared? ==>
          s.consumers[c].phase.task.prev.Some? && Reads(s, s.consumers[c].phase.task.prev.value, {Successful}))
    && (forall c :: c in s.consumers && HeldBack(s.consumers[c].phase) ==>
          s.consumers[c].phase.task.prev.Some? && Reads(s, s.consumers[c].phase.task.prev.value, FAILING))
    && (forall i :: 0 <= i < |s.executed| && s.executed[i].prev.Some? ==>
          Reads(s, s.executed[i].prev.value, {Successful}))
    && (forall id :: id in s.store.jobs && s.store.jobs[id].status == Error ==>
          !HasRun(s, id) && id in s.waitsFor && Reads(s, s.waitsFor[id], FAILING))
    && (forall id :: id in s.store.jobs && s.store.jobs[id].status in {Running, Successful, Failed} ==> HasRun(s, id))
  }

  ghost predicate Inv(s: State) {
    Unique(s) && Ranked(s) && Known(s) && RunsOnce(s) && Flagged(s) && Linked(s) && Dependent(s)
  }

  // ---- One step: no job is ever in two places ----

  /** Where the job now in place `p` was before the step. */
  function Origin(s: State, ev: Event, p: Place): Place
    requires Enabled(s, ev)
  {
    match ev
    case SendUpdate(id, sent) =>
      if sent && p == AtQueue(AnsibleQ, |s.ansible|) then AtDraft(id) else p
    case SendJob(id, sent) =>
      var q := QueueOf(s.launches[id].kind);
      if sent && p == AtQueue(q, |ReadyOf(s, q)|) then AtLaunch(id) else p
    case Fetch(c) =>
      var k := s.consumers[c];
      if p.AtQueue? && p.queue == k.queue then AtQueue(p.queue, p.index + 1)
      else if p == AtInbox(c, |k.inbox|) then AtQueue(k.queue, 0)
      else p
    case Take(c) =>
      if p == AtHand(c) then AtInbox(c, 0)
      else if p.AtInbox? && p.consumer == c then AtInbox(c, p.index + 1)
      else p
    case Reclaim(c, i, pos) =>
      var k := s.consumers[c];
      if p.AtQueue? && p.queue == k.queue then
        (if p.index < pos then p else if p.index == pos then AtInbox(c, i) else AtQueue(p.queue, p.index - 1))
      else if p.AtInbox? && p.consumer == c then
        (if p.index < i then p else AtInbox(c, p.index + 1))
      else p
    case _ => p
  }

  /** The payload the step publishes and the place it goes to, if it publishes one. */
  function Published(s: State, ev: Event): (f: Option<(Place, Task)>)
    requires Enabled(s, ev)
    ensures f.Some? ==> f.value.0.AtQueue? && f.value.0.queue == QueueOf(f.value.1.kind)
                        && f.value.0.index == |ReadyOf(s, f.value.0.queue)|
  {
    match ev
    case SendUpdate(id, sent) =>
      if sent
      then Some((AtQueue(AnsibleQ, |s.ansible|),
                 Task(s.launches[id].stage.update, Update, None, 0, s.launches[id].project, s.clock)))
      else None
    case SendJob(id, sent) =>
      var l := s.launches[id];
      if sent
      then Some((AtQueue(QueueOf(l.kind), |ReadyOf(s, QueueOf(l.kind))|),
                 Task(id, l.kind, PrevOf(l.stage), l.template, l.project, s.clock)))
      else None
    case _ => None
  }

  /** The job the step inserts, if it inserts one. */
  function Inserted(ev: Event): Option<(Place, Id)> {
    match ev
    case BeginLaunch(id, _, _, _) => Some((AtLaunch(id), id))
    case DraftUpdate(id, u) => Some((AtDraft(id), u))
    case _ => None
  }

  /** A step moves jobs between places; it makes none up, except the one it inserts. */
  lemma MovesJob(s: State, ev: Event, p: Place)
    requires Enabled(s, ev)
    requires IdAt(Apply(s, ev), p).Some?
    ensures if Inserted(ev).Some? && p == Inserted(ev).value.0
            then IdAt(Apply(s, ev), p) == Some(Inserted(ev).value.1)
            else IdAt(s, Origin(s, ev, p)) == IdAt(Apply(s, ev), p)
  {
    hide Apply;
    match p
    case AtLaunch(id) => LaunchesAfter(s, ev);
    case AtDraft(id) => LaunchesAfter(s, ev);
    case _ => MovesTask(s, ev, p);
  }

  /** Payloads move unchanged; the only new one is the one published. */
  lemma MovesTask(s: State, ev: Event, p: Place)
    requires Enabled(s, ev)
    requires TaskAt(Apply(s, ev), p).Some?
    ensures var f := Published(s, ev);
            if f.Some? && p == f.value.0
            then TaskAt(Apply(s, ev), p) == Some(f.value.1) && IdAt(s, Origin(s, ev, p)) == Some(f.value.1.id)
            else TaskAt(s, Origin(s, ev, p)) == TaskAt(Apply(s, ev), p)
  {
    match p
    case AtQueue(q, i) => MovesQueued(s, ev, q, i);
    case AtInbox(c, i) => MovesFetched(s, ev, c, i);
    case AtHand(c) => MovesHeld(s, ev, c);
  }

  lemma MovesQueued(s: State, ev: Event, q: QueueName, i: nat)
    requires Enabled(s, ev)
    requires i < |ReadyOf(Apply(s, ev), q)|
    ensures var f := Published(s, ev);
            if f.Some? && f.value.0 == AtQueue(q, i)
            then ReadyOf(Apply(s, ev), q)[i] == f.value.1 && IdAt(s, Origin(s, ev, AtQueue(q, i))) == Some(f.value.1.id)
            else TaskAt(s, Origin(s, ev, AtQueue(q, i))) == Some(ReadyOf(Apply(s, ev), q)[i])
  {
    hide Apply;
    QueueAfter(s, ev, q);
    match ev
    case Reclaim(c, k, pos) => MovesReclaimed(s, c, k, pos, q, i);
    case SendUpdate(id, sent) =>
    case SendJob(id, sent) =>
    case _ =>
  }

  lemma MovesReclaimed(s: State, c: Id, k: nat, pos: nat, q: QueueName, i: nat)
    requires Enabled(s, Reclaim(c, k, pos))
    requires i < |ReadyOf(Apply(s, Reclaim(c, k, pos)), q)|
    ensures TaskAt(s, Origin(s, Reclaim(c, k, pos), AtQueue(q, i)))
            == Some(ReadyOf(Apply(s, Reclaim(c, k, pos)), q)[i])
  {
    hide Apply;
    QueueAfter(s, Reclaim(c, k, pos), q);
  }

  /** What a step does to a queue. */
  lemma QueueAfter(s: State, ev: Event, q: QueueName)
    requires Enabled(s, ev)
    ensures match ev
            case Fetch(c) =>
              ReadyOf(Apply(s, ev), q) == if q == s.consumers[c].queue then ReadyOf(s, q)[1..] else ReadyOf(s, q)
            case Reclaim(c, i, pos) =>
              ReadyOf(Apply(s, ev), q)
              == if q == s.consumers[c].queue
                 then ReadyOf(s, q)[..pos] + [s.consumers[c].inbox[i]] + ReadyOf(s, q)[pos..]
                 else ReadyOf(s, q)
            case _ =>
              var f := Published(s, ev);
              ReadyOf(Apply(s, ev), q)
              == if f.Some? && q == f.value.0.queue then ReadyOf(s, q) + [f.value.1] else ReadyOf(s, q)
  {
  }

  /** What a step does to the consumers. */
  lemma ConsumersAfter(s: State, ev: Event)
    requires Enabled(s, ev)
    ensures Apply(s, ev).consumers
            == match ev
               case Fetch(c) =>
                 s.consumers[c := s.consumers[c].(inbox := s.consumers[c].inbox + [ReadyOf(s, s.consumers[c].queue)[0]])]
               case Take(c) =>
                 s.consumers[c := s.consumers[c].(inbox := s.consumers[c].inbox[1..], phase := Acked(s.consumers[c].inbox[0]))]
               case Advance(c, landed, readable, success) =>
                 s.consumers[c := s.consumers[c].(phase := NextPhase(s.consumers[c].phase, Poll(s, s.consumers[c].phase, readable), success))]
               case Crash(c) => s.consumers[c := s.consumers[c].(alive := false, phase := Idle)]
               case Reclaim(c, k, _) =>
                 s.consumers[c := s.consumers[c].(inbox := s.consumers[c].inbox[..k] + s.consumers[c].inbox[k+1..])]
               case Join(c, q) => s.consumers[c := Consumer(q, true, [], Idle)]
               case _ => s.consumers
  {
    hide ApplyAdvance, Publish, NextPhase, Poll;
    match ev
    case Advance(c, landed, readable, success) => ConsumersAdvance(s, c, landed, readable, success);
    case SendUpdate(_, _) => ConsumersStay(s, ev);
    case SendJob(_, _) => ConsumersStay(s, ev);
    case _ =>
  }

  lemma ConsumersAdvance(s: State, c: Id, landed: bool, readable: bool, success: bool)
    requires c in s.consumers && !s.consumers[c].phase.Idle?
    ensures ApplyAdvance(s, c, landed, readable, success).consumers
            == s.consumers[c := s.consumers[c].(phase := NextPhase(s.consumers[c].phase, Poll(s, s.consumers[c].phase, readable), success))]
  {
    hide ApplyWrite, WriteOf, NextPhase, Poll, StartsRun;
  }

  lemma ConsumersStay(s: State, ev: Event)
    requires Enabled(s, ev) && (ev.SendUpdate? || ev.SendJob?)
    ensures Apply(s, ev).consumers == s.consumers
  {
  }

  /** What a step does to an inbox. */
  lemma InboxAfter(s: State, ev: Event, c: Id)
    requires Enabled(s, ev)
    requires c in Apply(s, ev).consumers && Apply(s, ev).consumers[c].inbox != []
    ensures c in s.consumers
    ensures match ev
            case Fetch(d) =>
              Apply(s, ev).consumers[c].inbox
              == if c == d then s.consumers[c].inbox + [ReadyOf(s, s.consumers[c].queue)[0]] else s.consumers[c].inbox
            case Take(d) =>
              Apply(s, ev).consumers[c].inbox == if c == d then s.consumers[c].inbox[1..] else s.consumers[c].inbox
            case Reclaim(d, k, _) =>
              Apply(s, ev).consumers[c].inbox
              == if c == d then s.consumers[c].inbox[..k] + s.consumers[c].inbox[k+1..] else s.consumers[c].inbox
            case _ => Apply(s, ev).consumers[c].inbox == s.consumers[c].inbox
  {
    hide Apply, NextPhase, Poll;
    ConsumersAfter(s, ev);
  }

  lemma MovesFetched(s: State, ev: Event, c: Id, i: nat)
    requires Enabled(s, ev)
    requires c in Apply(s, ev).consumers && i < |Apply(s, ev).consumers[c].inbox|
    ensures TaskAt(s, Origin(s, ev, AtInbox(c, i))) == Some(Apply(s, ev).consumers[c].inbox[i])
  {
    hide Apply;
    InboxAfter(s, ev, c);
  }

  lemma MovesHeld(s: State, ev: Event, c: Id)
    requires Enabled(s, ev)
    requires c in Apply(s, ev).consumers && !Apply(s, ev).consumers[c].phase.Idle?
    ensures TaskAt(s, Origin(s, ev, AtHand(c))) == Some(Apply(s, ev).consumers[c].phase.task)
  {
    hide Apply;
    PhaseAfter(s, ev, c);
  }

  /** Two places that are different after a step held different jobs before it. */
  lemma OriginInjective(s: State, ev: Event, p: Place, r: Place)
    requires Enabled(s, ev)
    requires IdAt(Apply(s, ev), p).Some? && IdAt(Apply(s, ev), r).Some?
    requires Origin(s, ev, p) == Origin(s, ev, r)
    ensures p == r
  {
    match ev
    case Reclaim(c, i, pos) => ReclaimInjective(s, c, i, pos, p, r);
    case Fetch(c) => QueueAfter(s, ev, s.consumers[c].queue);
    case Take(_) =>
    case SendUpdate(_, _) => SendInjective(s, ev, p, r);
    case SendJob(_, _) => SendInjective(s, ev, p, r);
    case _ =>
  }

  lemma SendInjective(s: State, ev: Event, p: Place, r: Place)
    requires Enabled(s, ev) && (ev.SendUpdate? || ev.SendJob?)
    requires IdAt(Apply(s, ev), p).Some? && IdAt(Apply(s, ev), r).Some?
    requires Origin(s, ev, p) == Origin(s, ev, r)
    ensures p == r
  {
    var s' := Apply(s, ev);
    assert if ev.SendUpdate? then IdAt(s', AtDraft(ev.id)) == None else IdAt(s', AtLaunch(ev.id)) == None;
  }

  lemma ReclaimInjective(s: State, c: Id, i: nat, pos: nat, p: Place, r: Place)
    requires Enabled(s, Reclaim(c, i, pos))
    requires Origin(s, Reclaim(c, i, pos), p) == Origin(s, Reclaim(c, i, pos), r)
    ensures p == r
  {
  }

  lemma UniqueStep(s: State, ev: Event)
    requires Unique(s) && Known(s) && Enabled(s, ev)
    ensures Unique(Apply(s, ev))
  {
    var s' := Apply(s, ev);
    forall p, r | IdAt(s', p).Some? && IdAt(s', p) == IdAt(s', r)
      ensures p == r
    {
      MovesJob(s, ev, p);
      MovesJob(s, ev, r);
      var f := Inserted(ev);
      if f.Some? && (p == f.value.0 || r == f.value.0) {
        assert f.value.1 !in s.known;
      } else if Origin(s, ev, p) == Origin(s, ev, r) {
        OriginInjective(s, ev, p, r);
      }
    }
  }

  // ---- One step: what it does to documents, and who may do it ----

  /** What a step does to the phase of a consumer. */
  lemma PhaseAfter(s: State, ev: Event, c: Id)
    requires Enabled(s, ev)
    requires c in Apply(s, ev).consumers && !Apply(s, ev).consumers[c].phase.Idle?
    ensures c in s.consumers
    ensures Apply(s, ev).consumers[c].phase
            == if ev == Take(c) then Acked(s.consumers[c].inbox[0])
               else if ev.Advance? && ev.consumer == c
               then NextPhase(s.consumers[c].phase, Poll(s, s.consumers[c].phase, ev.readable), ev.success)
               else s.consumers[c].phase
  {
    hide Apply, NextPhase, Poll;
    ConsumersAfter(s, ev);
  }

  /** The tasks whose runs were started after a step. */
  lemma ExecutedAfter(s: State, ev: Event)
    requires Enabled(s, ev)
    ensures Apply(s, ev).executed
            == if ev.Advance? && StartsRun(s.consumers[ev.consumer].phase)
               then s.executed + [s.consumers[ev.consumer].phase.task]
               else s.executed
  {
    hide ApplyWrite, WriteOf, NextPhase, Poll;
  }

  lemma KnownAfter(s: State, ev: Event)
    requires Enabled(s, ev)
    ensures Apply(s, ev).known == if Inserted(ev).Some? then s.known + {Inserted(ev).value.1} else s.known
  {
    hide ApplyWrite, WriteOf, NextPhase, Poll;
  }

  lemma CeilingMoves(s: State, ev: Event, p: Place)
    requires Enabled(s, ev)
    requires IdAt(Apply(s, ev), p).Some?
    ensures (Inserted(ev).Some? && p == Inserted(ev).value.0) || Ceiling(s, Origin(s, ev, p)) <= Ceiling(Apply(s, ev), p)
  {
    hide Apply;
    if p.AtHand? {
      PhaseAfter(s, ev, p.consumer);
    }
  }

  /** A document after one write to it. */
  function DocAfter(d: Doc, w: Write): Doc {
    match w
    case SetStatus(_, st) => d.(status := st)
    case Begin(_) => Doc(Running, false)
    case Finish(_, st, f) => Doc(st, f)
    case _ => d
  }

  /** Did the step write document `id`? Only the consumer holding the job can. */
  predicate Wrote(s: State, ev: Event, id: Id)
    requires Enabled(s, ev)
  {
    && ev.Advance? && ev.landed && id == s.consumers[ev.consumer].phase.task.id
    && var w := WriteOf(s.consumers[ev.consumer].phase, ev.success);
    w.Some? && (w.value.SetStatus? || w.value.Begin? || w.value.Finish?)
  }

  lemma DocsAfter(s: State, ev: Event, id: Id)
    requires Known(s) && Enabled(s, ev)
    requires id in Apply(s, ev).store.jobs
    ensures if Inserted(ev).Some? && id == Inserted(ev).value.1
            then id !in s.store.jobs && Apply(s, ev).store.jobs[id].status in {New, Pending}
                 && !Apply(s, ev).store.jobs[id].failed
            else id in s.store.jobs
                 && Apply(s, ev).store.jobs[id]
                    == if Wrote(s, ev, id)
                       then DocAfter(s.store.jobs[id], WriteOf(s.consumers[ev.consumer].phase, ev.success).value)
                       else s.store.jobs[id]
  {
    hide ApplyAdvance;
    match ev
    case Advance(c, landed, readable, success) => AdvanceDocs(s, c, landed, readable, success, id);
    case _ =>
  }

  lemma AdvanceDocs(s: State, c: Id, landed: bool, readable: bool, success: bool, id: Id)
    requires Enabled(s, Advance(c, landed, readable, success))
    requires id in Apply(s, Advance(c, landed, readable, success)).store.jobs
    ensures id in s.store.jobs
    ensures Apply(s, Advance(c, landed, readable, success)).store.jobs[id]
            == if Wrote(s, Advance(c, landed, readable, success), id)
               then DocAfter(s.store.jobs[id], WriteOf(s.consumers[c].phase, success).value)
               else s.store.jobs[id]
  {
    var w := WriteOf(s.consumers[c].phase, success);
    assert ApplyAdvance(s, c, landed, readable, success).store
           == if w.Some? && landed then ApplyWrite(s.store, w.value) else s.store;
  }

  /** A consumer writes a job document only before the job is terminal, and forwards. */
  lemma WriteForwards(s: State, ev: Event, id: Id)
    requires Ranked(s) && Enabled(s, ev)
    requires id in s.store.jobs && Wrote(s, ev, id)
    ensures Rank(s.store.jobs[id].status) <= PhaseRank(s.consumers[ev.consumer].phase) <= 3
    ensures var w := WriteOf(s.consumers[ev.consumer].phase, ev.success).value;
            Rank(DocAfter(s.store.jobs[id], w).status) == PhaseRank(Apply(s, ev).consumers[ev.consumer].phase)
            >= Rank(s.store.jobs[id].status)
  {
    assert IdAt(s, AtHand(ev.consumer)) == Some(id);
  }

  lemma RankedStep(s: State, ev: Event)
    requires Unique(s) && Known(s) && Ranked(s) && Enabled(s, ev)
    ensures Ranked(Apply(s, ev))
  {
    var s' := Apply(s, ev);
    forall p | IdAt(s', p).Some? && IdAt(s', p).value in s'.store.jobs
      ensures Rank(s'.store.jobs[IdAt(s', p).value].status) <= Ceiling(s', p)
    {
      var id := IdAt(s', p).value;
      MovesJob(s, ev, p);
      CeilingMoves(s, ev, p);
      DocsAfter(s, ev, id);
      if Inserted(ev).Some? && p == Inserted(ev).value.0 {
      } else if Wrote(s, ev, id) {
        assert IdAt(s, AtHand(ev.consumer)) == IdAt(s, Origin(s, ev, p));
        WriteForwards(s, ev, id);
      } else {
        assert IdAt(s, Origin(s, ev, p)) == Some(id);
      }
    }
  }

  /** No status ever moves back, and a terminal document is never written again. */
  ghost predicate Forwards(s: State, s': State) {
    forall id :: id in s.store.jobs && id in s'.store.jobs ==>
      Rank(s.store.jobs[id].status) <= Rank(s'.store.jobs[id].status)
      && (Terminal(s.store.jobs[id].status) ==> s'.store.jobs[id] == s.store.jobs[id])
  }

  lemma ForwardsStep(s: State, ev: Event)
    requires Known(s) && Ranked(s) && Enabled(s, ev)
    ensures Forwards(s, Apply(s, ev))
  {
    var s' := Apply(s, ev);
    forall id | id in s.store.jobs && id in s'.store.jobs
      ensures Rank(s.store.jobs[id].status) <= Rank(s'.store.jobs[id].status)
              && (Terminal(s.store.jobs[id].status) ==> s'.store.jobs[id] == s.store.jobs[id])
    {
      DocsAfter(s, ev, id);
      if Wrote(s, ev, id) {
        WriteForwards(s, ev, id);
      }
    }
  }

  lemma FlaggedStep(s: State, ev: Event)
    requires Known(s) && Ranked(s) && Flagged(s) && Enabled(s, ev)
    ensures Flagged(Apply(s, ev))
  {
    var s' := Apply(s, ev);
    forall id | id in s'.store.jobs
      ensures s'.store.jobs[id].failed <==> s'.store.jobs[id].status == Failed || s'.store.jobs[id].status == Error
    {
      DocsAfter(s, ev, id);
      if !(Inserted(ev).Some? && id == Inserted(ev).value.1) && Wrote(s, ev, id) {
        WriteForwards(s, ev, id);
      }
    }
  }

  lemma KnownStep(s: State, ev: Event)
    requires Known(s) && Linked(s) && Enabled(s, ev)
    ensures Known(Apply(s, ev))
  {
    hide Apply;
    var s' := Apply(s, ev);
    KnownAfter(s, ev);
    LaunchesAfter(s, ev);
    ExecutedAfter(s, ev);
    forall p | IdAt(s', p).Some?
      ensures IdAt(s', p).value in s'.known
    {
      MovesJob(s, ev, p);
    }
    forall id | id in s'.store.jobs
      ensures id in s'.known
    {
      DocsAfter(s, ev, id);
    }
    if ev.Advance? {
      assert IdAt(s, AtHand(ev.consumer)) == Some(s.consumers[ev.consumer].phase.task.id);
    }
    if ev.DraftUpdate? {
      assert IdAt(s, AtLaunch(ev.id)) == Some(ev.id);
    }
  }

  // ---- One step: runs and what they depend on ----

  lemma HasRunAfter(s: State, ev: Event, id: Id)
    requires Enabled(s, ev)
    ensures HasRun(Apply(s, ev), id)
            <==> HasRun(s, id)
                 || (ev.Advance? && StartsRun(s.consumers[ev.consumer].phase)
                     && s.consumers[ev.consumer].phase.task.id == id)
  {
    hide Apply;
    ExecutedAfter(s, ev);
    var s' := Apply(s, ev);
    if ev.Advance? && StartsRun(s.consumers[ev.consumer].phase) {
      assert s'.executed[|s.executed|] == s.consumers[ev.consumer].phase.task;
      if HasRun(s, id) {
        var i :| 0 <= i < |s.executed| && s.executed[i].id == id;
        assert s'.executed[i].id == id;
      }
    }
  }

  lemma RunsOnceStep(s: State, ev: Event)
    requires Unique(s) && Known(s) && RunsOnce(s) && Enabled(s, ev)
    ensures RunsOnce(Apply(s, ev))
  {
    hide Apply;
    ExecutedAfter(s, ev);
    var s' := Apply(s, ev);
    if ev.Advance? && StartsRun(s.consumers[ev.consumer].phase) {
      var t := s.consumers[ev.consumer].phase.task;
      assert IdAt(s, AtHand(ev.consumer)) == Some(t.id);
      assert !HasRun(s, t.id);
      forall i | 0 <= i < |s.executed|
        ensures s.executed[i].id != t.id
      {
      }
    }
    forall p | IdAt(s', p).Some? && HasRun(s', IdAt(s', p).value)
      ensures p.AtHand? && Started(s'.consumers[p.consumer].phase)
    {
      HasRunPlace(s, ev, p);
    }
    forall c | c in s'.consumers && Started(s'.consumers[c].phase)
      ensures HasRun(s', s'.consumers[c].phase.task.id)
    {
      HasRunAfter(s, ev, s'.consumers[c].phase.task.id);
      PhaseAfter(s, ev, c);
    }
  }

  lemma HasRunPlace(s: State, ev: Event, p: Place)
    requires Unique(s) && Known(s) && RunsOnce(s) && Enabled(s, ev)
    requires IdAt(Apply(s, ev), p).Some? && HasRun(Apply(s, ev), IdAt(Apply(s, ev), p).value)
    ensures p.AtHand? && Started(Apply(s, ev).consumers[p.consumer].phase)
  {
    hide Apply;
    var id := IdAt(Apply(s, ev), p).value;
    MovesJob(s, ev, p);
    HasRunAfter(s, ev, id);
    if p.AtHand? {
      PhaseAfter(s, ev, p.consumer);
    }
    var o := Origin(s, ev, p);
    if Inserted(ev).Some? && p == Inserted(ev).value.0 {
      assert false;
    } else if HasRun(s, id) {
      assert o.AtHand? && Started(s.consumers[o.consumer].phase);
      assert p == o;
    } else {
      assert IdAt(s, AtHand(ev.consumer)) == Some(id);
      assert o == AtHand(ev.consumer);
      assert p == o;
    }
  }

  lemma LinkedStep(s: State, ev: Event)
    requires Unique(s) && Known(s) && RunsOnce(s) && Linked(s) && Enabled(s, ev)
    ensures Linked(Apply(s, ev))
  {
    var s' := Apply(s, ev);
    forall p | TaskAt(s', p).Some?
      ensures TaskAt(s', p).value.prev == Awaited(s', TaskAt(s', p).value.id)
      ensures TaskAt(s', p).value.kind == Update ==> TaskAt(s', p).value.prev == None
    {
      LinkedTask(s, ev, p);
    }
    forall i | 0 <= i < |s'.executed|
      ensures s'.executed[i].prev == Awaited(s', s'.executed[i].id)
    {
      LinkedRun(s, ev, i);
    }
    forall id | id in s'.launches
      ensures LinkedLaunch(s', id)
    {
      LinkedLaunchStep(s, ev, id);
    }
  }

  /** What a step does to the launches and to the record of drafted update jobs. */
  lemma LaunchesAfter(s: State, ev: Event)
    requires Enabled(s, ev)
    ensures match ev
            case BeginLaunch(id, k, t, pr) =>
              Apply(s, ev).launches == s.launches[id := Launch(k, t, pr, Drafted)] && Apply(s, ev).waitsFor == s.waitsFor
            case DraftUpdate(id, u) =>
              Apply(s, ev).launches == s.launches[id := s.launches[id].(stage := UpdateDrafted(u))]
              && Apply(s, ev).waitsFor == s.waitsFor[id := u]
            case SendUpdate(id, _) =>
              Apply(s, ev).launches == s.launches[id := s.launches[id].(stage := UpdateSent(s.launches[id].stage.update))]
              && Apply(s, ev).waitsFor == s.waitsFor
            case SendJob(id, _) => Apply(s, ev).launches == s.launches - {id} && Apply(s, ev).waitsFor == s.waitsFor
            case Abandon(id) => Apply(s, ev).launches == s.launches - {id} && Apply(s, ev).waitsFor == s.waitsFor
            case _ => Apply(s, ev).launches == s.launches && Apply(s, ev).waitsFor == s.waitsFor
  {
  }

  lemma LinkedTask(s: State, ev: Event, p: Place)
    requires Unique(s) && Known(s) && Linked(s) && Enabled(s, ev)
    requires TaskAt(Apply(s, ev), p).Some?
    ensures var t := TaskAt(Apply(s, ev), p).value;
            t.prev == Awaited(Apply(s, ev), t.id) && (t.kind == Update ==> t.prev == None)
  {
    var t := TaskAt(Apply(s, ev), p).value;
    MovesTask(s, ev, p);
    LaunchesAfter(s, ev);
    var o := Origin(s, ev, p);
    assert IdAt(s, o) == Some(t.id);
    match ev
    case DraftUpdate(id, u) => assert IdAt(s, AtLaunch(id)) == Some(id);
    case SendUpdate(id, _) => assert LinkedLaunch(s, id);
    case SendJob(id, _) => assert LinkedLaunch(s, id);
    case _ =>
  }

  lemma LinkedRun(s: State, ev: Event, i: nat)
    requires RunsOnce(s) && Linked(s) && Enabled(s, ev)
    requires i < |Apply(s, ev).executed|
    ensures Apply(s, ev).executed[i].prev == Awaited(Apply(s, ev), Apply(s, ev).executed[i].id)
  {
    hide Apply;
    LaunchesAfter(s, ev);
    ExecutedAfter(s, ev);
    if i < |s.executed| {
      assert HasRun(s, s.executed[i].id);
      if ev.DraftUpdate? {
        assert IdAt(s, AtLaunch(ev.id)) == Some(ev.id);
      }
    } else {
      assert TaskAt(s, AtHand(ev.consumer)) == Some(Apply(s, ev).executed[i]);
    }
  }

  lemma LinkedLaunchStep(s: State, ev: Event, id: Id)
    requires Unique(s) && Known(s) && Linked(s) && Enabled(s, ev)
    requires id in Apply(s, ev).launches
    ensures LinkedLaunch(Apply(s, ev), id)
  {
    LaunchesAfter(s, ev);
    if id in s.launches {
      assert LinkedLaunch(s, id);
      if ev.DraftUpdate? {
        assert IdAt(s, AtLaunch(ev.id)) == Some(ev.id);
        if s.launches[id].stage.UpdateDrafted? {
          assert IdAt(s, AtDraft(id)) == Some(s.launches[id].stage.update);
        }
      }
    }
  }

  /** A status once read as successful, failed or error still reads the same. */
  lemma ReadsStay(s: State, ev: Event, u: Id, sts: set<Status>)
    requires Known(s) && Ranked(s) && Enabled(s, ev)
    requires u in s.known && Reads(s, u, sts) && forall st :: st in sts ==> Terminal(st)
    ensures Reads(Apply(s, ev), u, sts)
  {
    ForwardsStep(s, ev);
    if u in Apply(s, ev).store.jobs {
      DocsAfter(s, ev, u);
    }
  }

  lemma DependentStep(s: State, ev: Event)
    requires Inv(s) && Enabled(s, ev)
    ensures Dependent(Apply(s, ev))
  {
    var s' := Apply(s, ev);
    forall c | c in s'.consumers
      ensures s'.consumers[c].phase.Polling? ==> s'.consumers[c].phase.task.prev.Some?
      ensures s'.consumers[c].phase.Cleared? ==>
                s'.consumers[c].phase.task.prev.Some?
                && Reads(s', s'.consumers[c].phase.task.prev.value, {Successful})
      ensures HeldBack(s'.consumers[c].phase) ==>
                s'.consumers[c].phase.task.prev.Some?
                && Reads(s', s'.consumers[c].phase.task.prev.value, FAILING)
    {
      if s'.consumers[c].phase.Polling? {
        PollingHasPrev(s, ev, c);
      }
      DependentPhase(s, ev, c);
    }
    forall i | 0 <= i < |s'.executed| && s'.executed[i].prev.Some?
      ensures Reads(s', s'.executed[i].prev.value, {Successful})
    {
      DependentRun(s, ev, i);
    }
    forall id | id in s'.store.jobs
      ensures s'.store.jobs[id].status == Error ==>
                !HasRun(s', id) && id in s'.waitsFor && Reads(s', s'.waitsFor[id], FAILING)
      ensures s'.store.jobs[id].status in {Running, Successful, Failed} ==> HasRun(s', id)
    {
      DependentDoc(s, ev, id);
    }
  }

  lemma PollingHasPrev(s: State, ev: Event, c: Id)
    requires Dependent(s) && Enabled(s, ev)
    requires c in Apply(s, ev).consumers && Apply(s, ev).consumers[c].phase.Polling?
    ensures Apply(s, ev).consumers[c].phase.task.prev.Some?
  {
    PhaseAfter(s, ev, c);
  }

  lemma DependentPhase(s: State, ev: Event, c: Id)
    requires Inv(s) && Enabled(s, ev)
    requires c in Apply(s, ev).consumers
    ensures var s' := Apply(s, ev);
            && (s'.consumers[c].phase.Cleared? ==>
                  s'.consumers[c].phase.task.prev.Some?
                  && Reads(s', s'.consumers[c].phase.task.prev.value, {Successful}))
            && (HeldBack(s'.consumers[c].phase) ==>
                  s'.consumers[c].phase.task.prev.Some?
                  && Reads(s', s'.consumers[c].phase.task.prev.value, FAILING))
  {
    hide Apply;
    var ph := Apply(s, ev).consumers[c].phase;
    if ph.Cleared? || HeldBack(ph) {
      PollOrigin(s, ev, c);
      var u := ph.task.prev;
      assert TaskAt(s, AtHand(c)) == Some(ph.task);
      assert u.value in s.known;
      ReadsStay(s, ev, u.value, if ph.Cleared? then {Successful} else FAILING);
    }
  }

  /** A consumer is past its poll because it was before the step, or because it just read so. */
  lemma PollOrigin(s: State, ev: Event, c: Id)
    requires Dependent(s) && Enabled(s, ev)
    requires c in Apply(s, ev).consumers
    requires Apply(s, ev).consumers[c].phase.Cleared? || HeldBack(Apply(s, ev).consumers[c].phase)
    ensures c in s.consumers && !s.consumers[c].phase.Idle?
            && s.consumers[c].phase.task == Apply(s, ev).consumers[c].phase.task
    ensures var ph := Apply(s, ev).consumers[c].phase;
            ph.task.prev.Some? && Reads(s, ph.task.prev.value, if ph.Cleared? then {Successful} else FAILING)
  {
    hide Apply;
    PhaseAfter(s, ev, c);
  }

  lemma DependentRun(s: State, ev: Event, i: nat)
    requires Inv(s) && Enabled(s, ev)
    requires i < |Apply(s, ev).executed| && Apply(s, ev).executed[i].prev.Some?
    ensures Reads(Apply(s, ev), Apply(s, ev).executed[i].prev.value, {Successful})
  {
    hide Apply;
    ExecutedAfter(s, ev);
    var t := Apply(s, ev).executed[i];
    if i >= |s.executed| {
      assert TaskAt(s, AtHand(ev.consumer)) == Some(t);
      assert s.consumers[ev.consumer].phase.Cleared?;
    }
    ReadsStay(s, ev, t.prev.value, {Successful});
  }

  lemma DependentDoc(s: State, ev: Event, id: Id)
    requires Inv(s) && Enabled(s, ev)
    requires id in Apply(s, ev).store.jobs
    ensures var s' := Apply(s, ev);
            && (s'.store.jobs[id].status == Error ==>
                  !HasRun(s', id) && id in s'.waitsFor && Reads(s', s'.waitsFor[id], FAILING))
            && (s'.store.jobs[id].status in {Running, Successful, Failed} ==> HasRun(s', id))
  {
    hide Apply;
    DocsAfter(s, ev, id);
    HasRunAfter(s, ev, id);
    var st := Apply(s, ev).store.jobs[id].status;
    if Wrote(s, ev, id) {
      DependentWrite(s, ev, id);
    } else if st == Error {
      if ev.Advance? {
        assert IdAt(s, AtHand(ev.consumer)) == Some(s.consumers[ev.consumer].phase.task.id);
        assert TaskAt(s, AtHand(ev.consumer)) == Some(s.consumers[ev.consumer].phase.task);
      }
      WaitsForStays(s, ev, id);
      ReadsStay(s, ev, s.waitsFor[id], FAILING);
    }
  }

  /** The update job drafted for a job with a document that says "error" is settled. */
  lemma WaitsForStays(s: State, ev: Event, id: Id)
    requires Inv(s) && Enabled(s, ev)
    requires id in s.waitsFor
    ensures id in Apply(s, ev).waitsFor && Apply(s, ev).waitsFor[id] == s.waitsFor[id]
  {
    hide Apply;
    LaunchesAfter(s, ev);
    if ev.DraftUpdate? {
      assert ev.id in s.launches && s.launches[ev.id].stage.Drafted?;
    }
  }

  lemma DependentWrite(s: State, ev: Event, id: Id)
    requires Inv(s) && Enabled(s, ev) && Wrote(s, ev, id)
    requires id in s.store.jobs && id in Apply(s, ev).store.jobs
    ensures var s' := Apply(s, ev);
            && (s'.store.jobs[id].status == Error ==>
                  !HasRun(s', id) && id in s'.waitsFor && Reads(s', s'.waitsFor[id], FAILING))
            && (s'.store.jobs[id].status in {Running, Successful, Failed} ==> HasRun(s', id))
  {
    hide Apply;
    DocsAfter(s, ev, id);
    HasRunAfter(s, ev, id);
    LaunchesAfter(s, ev);
    WriteForwards(s, ev, id);
    var ph := s.consumers[ev.consumer].phase;
    assert TaskAt(s, AtHand(ev.consumer)) == Some(ph.task);
    assert IdAt(s, AtHand(ev.consumer)) == Some(id);
    if ph.Blocked? {
      ReadsStay(s, ev, s.waitsFor[id], FAILING);
    }
  }

  // ---- Every run ----

  lemma InvInit(s: State)
    requires Init(s)
    ensures Inv(s)
  {
  }

  lemma InvStep(s: State, ev: Event)
    requires Inv(s) && Enabled(s, ev)
    ensures Inv(Apply(s, ev))
  {
    UniqueStep(s, ev);
    KnownStep(s, ev);
    RankedStep(s, ev);
    FlaggedStep(s, ev);
    RunsOnceStep(s, ev);
    LinkedStep(s, ev);
    DependentStep(s, ev);
  }

  lemma {:induction false} InvAlways(s: State, evs: seq<Event>)
    requires Init(s) && Runs(s, evs)
    ensures Inv(After(s, evs))
    decreases |evs|
  {
    if evs == [] {
      InvInit(s);
    } else {
      InvAlways(s, evs[..|evs|-1]);
      InvStep(After(s, evs[..|evs|-1]), evs[|evs|-1]);
    }
  }

  /** No job's run is ever started twice, whatever crashes and is redelivered. */
  lemma AtMostOnce(s: State, evs: seq<Event>)
    requires Init(s) && Runs(s, evs)
    ensures forall i, j :: 0 <= i < j < |After(s, evs).executed| ==>
              After(s, evs).executed[i].id != After(s, evs).executed[j].id
  {
    InvAlways(s, evs);
  }

  /** Along every run the stored status of a job only moves forward, and a terminal
      document never changes. */
  lemma {:induction false} MonotoneStatus(s: State, evs: seq<Event>, n: nat, id: Id)
    requires Init(s) && Runs(s, evs) && n <= |evs| && Runs(s, evs[..n])
    requires id in After(s, evs[..n]).store.jobs && id in After(s, evs).store.jobs
    ensures Rank(After(s, evs[..n]).store.jobs[id].status) <= Rank(After(s, evs).store.jobs[id].status)
    ensures Terminal(After(s, evs[..n]).store.jobs[id].status) ==>
              After(s, evs).store.jobs[id] == After(s, evs[..n]).store.jobs[id]
    decreases |evs|
  {
    if n == |evs| {
      assert evs[..n] == evs;
    } else {
      var front := evs[..|evs|-1];
      assert front[..n] == evs[..n];
      InvAlways(s, front);
      InvAlways(s, evs[..n]);
      KnownGrows(s, front, n);
      DocsAfter(After(s, front), evs[|evs|-1], id);
      MonotoneStatus(s, front, n, id);
      ForwardsStep(After(s, front), evs[|evs|-1]);
    }
  }

  lemma {:induction false} KnownGrows(s: State, evs: seq<Event>, n: nat)
    requires Runs(s, evs) && n <= |evs| && Runs(s, evs[..n])
    ensures After(s, evs[..n]).known <= After(s, evs).known
    decreases |evs|
  {
    if n == |evs| {
      assert evs[..n] == evs;
    } else {
      assert evs[..|evs|-1][..n] == evs[..n];
      KnownGrows(s, evs[..|evs|-1], n);
      KnownGrowsStep(After(s, evs[..|evs|-1]), evs[|evs|-1]);
    }
  }

  lemma KnownGrowsStep(s: State, ev: Event)
    requires Enabled(s, ev)
    ensures s.known <= Apply(s, ev).known
  {
    KnownAfter(s, ev);
  }

  /** The stored status of update job `u` was "successful" at some moment of the run. */
  ghost predicate SeenSuccessful(s: State, evs: seq<Event>, u: Id)
    requires Runs(s, evs)
  {
    exists n :: 0 <= n <= |evs| && Runs(s, evs[..n])
                && u in After(s, evs[..n]).store.jobs && After(s, evs[..n]).store.jobs[u].status == Successful
  }

  lemma SeenBefore(s: State, evs: seq<Event>, u: Id)
    requires |evs| > 0 && Runs(s, evs) && Runs(s, evs[..|evs|-1]) && SeenSuccessful(s, evs[..|evs|-1], u)
    ensures SeenSuccessful(s, evs, u)
  {
    var front := evs[..|evs|-1];
    var n :| 0 <= n <= |front| && Runs(s, front[..n])
             && u in After(s, front[..n]).store.jobs && After(s, front[..n]).store.jobs[u].status == Successful;
    assert front[..n] == evs[..n];
  }

  /** Every consumer past its poll saw the update job succeed. */
  ghost predicate PollsSeen(s: State, evs: seq<Event>)
    requires Runs(s, evs)
  {
    forall c :: c in After(s, evs).consumers && After(s, evs).consumers[c].phase.Cleared? ==>
      After(s, evs).consumers[c].phase.task.prev.Some?
      && SeenSuccessful(s, evs, After(s, evs).consumers[c].phase.task.prev.value)
  }

  ghost predicate RunsSeen(s: State, evs: seq<Event>)
    requires Runs(s, evs)
  {
    forall i :: 0 <= i < |After(s, evs).executed| && After(s, evs).executed[i].prev.Some? ==>
      SeenSuccessful(s, evs, After(s, evs).executed[i].prev.value)
  }

  lemma {:induction false} ClearedSeen(s: State, evs: seq<Event>)
    requires Init(s) && Runs(s, evs)
    ensures PollsSeen(s, evs) && RunsSeen(s, evs)
    decreases |evs|
  {
    if evs != [] {
      ClearedSeen(s, evs[..|evs|-1]);
      InvAlways(s, evs[..|evs|-1]);
      PollsSeenStep(s, evs);
      RunsSeenStep(s, evs);
    }
  }

  lemma PollsSeenStep(s: State, evs: seq<Event>)
    requires |evs| > 0 && Runs(s, evs) && Inv(After(s, evs[..|evs|-1])) && PollsSeen(s, evs[..|evs|-1])
    ensures PollsSeen(s, evs)
  {
    hide Apply, Enabled;
    var front, ev := evs[..|evs|-1], evs[|evs|-1];
    var s0, s' := After(s, front), After(s, evs);
    forall c | c in s'.consumers && s'.consumers[c].phase.Cleared?
      ensures s'.consumers[c].phase.task.prev.Some? && SeenSuccessful(s, evs, s'.consumers[c].phase.task.prev.value)
    {
      PollOrigin(s0, ev, c);
      PhaseAfter(s0, ev, c);
      var u := s'.consumers[c].phase.task.prev.value;
      if s0.consumers[c].phase.Cleared? {
        SeenBefore(s, evs, u);
      } else {
        assert ev.Advance? && ev.consumer == c;
        assert evs[..|front|] == front;
        assert u in After(s, evs[..|front|]).store.jobs;
      }
    }
  }

  /** A started run was started before, or its consumer was cleared by a poll. */
  lemma RunOrigin(s: State, ev: Event, i: nat)
    requires Linked(s) && Enabled(s, ev)
    requires i < |Apply(s, ev).executed| && Apply(s, ev).executed[i].prev.Some?
    ensures if i < |s.executed| then s.executed[i] == Apply(s, ev).executed[i]
            else ev.Advance? && s.consumers[ev.consumer].phase == Cleared(Apply(s, ev).executed[i])
  {
    hide Apply;
    ExecutedAfter(s, ev);
    if i >= |s.executed| {
      assert TaskAt(s, AtHand(ev.consumer)) == Some(Apply(s, ev).executed[i]);
    }
  }

  lemma RunsSeenStep(s: State, evs: seq<Event>)
    requires |evs| > 0 && Runs(s, evs) && Inv(After(s, evs[..|evs|-1]))
    requires PollsSeen(s, evs[..|evs|-1]) && RunsSeen(s, evs[..|evs|-1])
    ensures RunsSeen(s, evs)
  {
    hide Apply;
    var front, ev := evs[..|evs|-1], evs[|evs|-1];
    var s0, s' := After(s, front), After(s, evs);
    forall i | 0 <= i < |s'.executed| && s'.executed[i].prev.Some?
      ensures SeenSuccessful(s, evs, s'.executed[i].prev.value)
    {
      RunOrigin(s0, ev, i);
      SeenBefore(s, evs, s'.executed[i].prev.value);
    }
  }

  /** Dependency safety: a consumer about to start the run of a job whose launch drafted
      update job `u` has seen `u` succeed. */
  lemma StartsAfterUpdate(s: State, evs: seq<Event>, c: Id)
    requires Init(s) && Runs(s, evs)
    requires c in After(s, evs).consumers && StartsRun(After(s, evs).consumers[c].phase)
    requires After(s, evs).consumers[c].phase.task.id in After(s, evs).waitsFor
    ensures var u := After(s, evs).waitsFor[After(s, evs).consumers[c].phase.task.id];
            SeenSuccessful(s, evs, u) && Reads(After(s, evs), u, {Successful})
  {
    hide Runs, After, SeenSuccessful;
    InvAlways(s, evs);
    ClearedSeen(s, evs);
    assert TaskAt(After(s, evs), AtHand(c)) == Some(After(s, evs).consumers[c].phase.task);
  }

  /** A job whose launch drafted an update job and whose run was started carries that update
      job in its payload, saw it succeed, and the update job still reads successful. */
  lemma RunsAfterUpdate(s: State, evs: seq<Event>, i: nat)
    requires Init(s) && Runs(s, evs)
    requires i < |After(s, evs).executed| && After(s, evs).executed[i].id in After(s, evs).waitsFor
    ensures var u := After(s, evs).waitsFor[After(s, evs).executed[i].id];
            After(s, evs).executed[i].prev == Some(u)
            && SeenSuccessful(s, evs, u) && Reads(After(s, evs), u, {Successful})
  {
    hide Runs, After, SeenSuccessful;
    InvAlways(s, evs);
    ClearedSeen(s, evs);
  }

  /** "error" means held back: the job never ran and its update job failed; and a
      document that says running, successful or failed is of a job that did run. */
  lemma ErrorMeansHeldBack(s: State, evs: seq<Event>, id: Id)
    requires Init(s) && Runs(s, evs) && id in After(s, evs).store.jobs
    ensures After(s, evs).store.jobs[id].status == Error ==>
              !HasRun(After(s, evs), id)
              && id in After(s, evs).waitsFor && Reads(After(s, evs), After(s, evs).waitsFor[id], FAILING)
    ensures After(s, evs).store.jobs[id].status in {Running, Successful, Failed} ==> HasRun(After(s, evs), id)
  {
    InvAlways(s, evs);
  }

  /** In every reachable state `failed` agrees with the status. */
  lemma FailedFlagAgrees(s: State, evs: seq<Event>, id: Id)
    requires Init(s) && Runs(s, evs) && id in After(s, evs).store.jobs
    ensures After(s, evs).store.jobs[id].failed <==> After(s, evs).store.jobs[id].status in FAILING
  {
    InvAlways(s, evs);
  }
}
