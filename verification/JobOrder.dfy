/** Reliable runs of the job protocol: no crash, every publish arrives, every write
    lands, and no update job is deleted while an unfinished job depends on it.

    In such runs deliveries stay in publication order and no published job is lost. */
module JobOrder {
  import opened Common
  import opened JobModel
  import opened JobProtocol
  import opened JobSafety

  /** An unfinished job, launched or published, depends on update job `u`. */
  ghost predicate InDemand(s: State, u: Id) {
    || (exists p :: TaskAt(s, p).Some? && TaskAt(s, p).value.prev == Some(u))
    || (exists id :: id in s.launches && !s.launches[id].stage.Drafted? && s.launches[id].stage.update == u)
  }

  ghost predicate Reliable(s: State, ev: Event) {
    match ev
    case SendUpdate(_, sent) => sent
    case SendJob(_, sent) => sent
    case Advance(_, landed, _, _) => landed
    case Crash(_) => false
    case DeleteJobs(ids) => forall u :: u in ids ==> !InDemand(s, u)
    case _ => true
  }

  /** `p` is served before `r`: both belong to one queue. */
  predicate Ahead(s: State, p: Place, r: Place) {
    match (p, r)
    case (AtHand(c), AtInbox(d, j)) => c == d
    case (AtInbox(c, i), AtInbox(d, j)) => c == d && i < j
    case (AtHand(c), AtQueue(q, j)) => c in s.consumers && s.consumers[c].queue == q
    case (AtInbox(c, i), AtQueue(q, j)) => c in s.consumers && s.consumers[c].queue == q
    case (AtQueue(q, i), AtQueue(q', j)) => q == q' && i < j
    case _ => false
  }

  ghost predicate Ordered(s: State) {
    forall p, r :: TaskAt(s, p).Some? && TaskAt(s, r).Some? && Ahead(s, p, r) ==>
      TaskAt(s, p).value.stamp < TaskAt(s, r).value.stamp
  }

  /** The queue a place belongs to. */
  function QueueAt(s: State, p: Place): QueueName
    requires TaskAt(s, p).Some?
  {
    match p
    case AtQueue(q, _) => q
    case AtInbox(c, _) => s.consumers[c].queue
    case AtHand(c) => s.consumers[c].queue
  }

  /** Deliveries carry the number under which they were published, to the queue of their kind. */
  ghost predicate Stamped(s: State) {
    && (forall p :: TaskAt(s, p).Some? ==>
          TaskAt(s, p).value.id in s.stampOf
          && s.stampOf[TaskAt(s, p).value.id] == TaskAt(s, p).value.stamp
          && QueueAt(s, p) == QueueOf(TaskAt(s, p).value.kind))
    && (forall id :: id in s.stampOf ==> s.stampOf[id] < s.clock && id in s.known)
    && (forall id, jd :: id in s.stampOf && jd in s.stampOf && s.stampOf[id] == s.stampOf[jd] ==> id == jd)
    && (forall id :: id in s.launches ==> id !in s.stampOf)
    && (forall id :: id in s.launches && s.launches[id].stage.UpdateDrafted? ==> s.launches[id].stage.update !in s.stampOf)
  }

  /** An update job is published before the job that waits for it, is never launched in
      its own right, and travels as an update job. */
  ghost predicate UpdatesFirst(s: State) {
    && (forall p :: TaskAt(s, p).Some? && TaskAt(s, p).value.prev.Some? ==>
          TaskAt(s, p).value.prev.value in s.stampOf
          && s.stampOf[TaskAt(s, p).value.prev.value] < TaskAt(s, p).value.stamp)
    && (forall id :: id in s.launches && s.launches[id].stage.UpdateSent? ==> s.launches[id].stage.update in s.stampOf)
    && (forall id :: id in s.waitsFor ==> s.waitsFor[id] !in s.launches)
    && (forall id, p :: id in s.waitsFor && TaskAt(s, p).Some? && TaskAt(s, p).value.id == s.waitsFor[id] ==>
          TaskAt(s, p).value.kind == Update)
  }

  /** The job in this place still has its terminal write to come. */
  predicate Unfinished(s: State, p: Place) {
    TaskAt(s, p).Some?
    && (p.AtHand? ==> !s.consumers[p.consumer].phase.Closing? && !s.consumers[p.consumer].phase.Filing?)
  }

  /** The document says how the job ended, or was deleted. */
  predicate Settled(s: State, id: Id) {
    id in s.store.jobs ==> Terminal(s.store.jobs[id].status)
  }

  ghost predicate OnItsWay(s: State, id: Id) {
    exists p :: Unfinished(s, p) && TaskAt(s, p).value.id == id
  }

  /** No published job is lost. */
  ghost predicate Kept(s: State) {
    && (forall c :: c in s.consumers ==> s.consumers[c].alive)
    && (forall id :: id in s.stampOf ==> OnItsWay(s, id) || Settled(s, id))
    && (forall u :: InDemand(s, u) ==> u in s.store.jobs)
  }

  ghost predicate Order(s: State) {
    Ordered(s) && Stamped(s) && UpdatesFirst(s) && Kept(s)
  }

  // ---- One reliable step ----

  lemma AheadMoves(s: State, ev: Event, p: Place, r: Place)
    requires Kept(s) && Enabled(s, ev) && Reliable(s, ev)
    requires TaskAt(Apply(s, ev), p).Some? && TaskAt(Apply(s, ev), r).Some? && Ahead(Apply(s, ev), p, r)
    ensures !(Published(s, ev).Some? && p == Published(s, ev).value.0)
    ensures (Published(s, ev).Some? && r == Published(s, ev).value.0) || Ahead(s, Origin(s, ev, p), Origin(s, ev, r))
  {
    hide Apply;
    ConsumersAfter(s, ev);
    QueueAfter(s, ev, AnsibleQ);
    QueueAfter(s, ev, TerraformQ);
  }

  lemma OrderedStep(s: State, ev: Event)
    requires Ordered(s) && Stamped(s) && Kept(s) && Enabled(s, ev) && Reliable(s, ev)
    ensures Ordered(Apply(s, ev))
  {
    hide Apply;
    var s' := Apply(s, ev);
    forall p, r | TaskAt(s', p).Some? && TaskAt(s', r).Some? && Ahead(s', p, r)
      ensures TaskAt(s', p).value.stamp < TaskAt(s', r).value.stamp
    {
      AheadMoves(s, ev, p, r);
      MovesTask(s, ev, p);
      MovesTask(s, ev, r);
      assert TaskAt(s, Origin(s, ev, p)) == TaskAt(s', p);
    }
  }

  /** What a step does to the publication record. */
  lemma StampsAfter(s: State, ev: Event)
    requires Enabled(s, ev)
    ensures var f := Published(s, ev);
            if f.Some?
            then Apply(s, ev).stampOf == s.stampOf[f.value.1.id := s.clock] && Apply(s, ev).clock == s.clock + 1
                 && f.value.1.stamp == s.clock
            else Apply(s, ev).stampOf == s.stampOf && Apply(s, ev).clock == s.clock
  {
  }

  lemma QueueAtMoves(s: State, ev: Event, p: Place)
    requires Enabled(s, ev)
    requires TaskAt(Apply(s, ev), p).Some?
    requires !(Published(s, ev).Some? && p == Published(s, ev).value.0)
    requires TaskAt(s, Origin(s, ev, p)).Some?
    ensures QueueAt(Apply(s, ev), p) == QueueAt(s, Origin(s, ev, p))
  {
    hide Apply;
    ConsumersAfter(s, ev);
  }

  lemma StampedStep(s: State, ev: Event)
    requires Inv(s) && Stamped(s) && Enabled(s, ev)
    ensures Stamped(Apply(s, ev))
  {
    hide Apply, Inv, Known, Linked, Ranked, Dependent, RunsOnce, Unique, Flagged;
    var s' := Apply(s, ev);
    StampsAfter(s, ev);
    LaunchesAfter(s, ev);
    KnownGrowsStep(s, ev);
    var f := Published(s, ev);
    if f.Some? {
      PublishedNew(s, ev);
    }
    forall p | TaskAt(s', p).Some?
      ensures TaskAt(s', p).value.id in s'.stampOf
      ensures s'.stampOf[TaskAt(s', p).value.id] == TaskAt(s', p).value.stamp
      ensures QueueAt(s', p) == QueueOf(TaskAt(s', p).value.kind)
    {
      MovesTask(s, ev, p);
      if !(f.Some? && p == f.value.0) {
        QueueAtMoves(s, ev, p);
      }
    }
    forall id | id in s'.launches
      ensures id !in s'.stampOf
      ensures s'.launches[id].stage.UpdateDrafted? ==> s'.launches[id].stage.update !in s'.stampOf
    {
      StampedLaunch(s, ev, id);
    }
  }

  /** A job is published while it is still in the hands of its launch, and not before. */
  lemma PublishedNew(s: State, ev: Event)
    requires Inv(s) && Stamped(s) && Enabled(s, ev) && Published(s, ev).Some?
    ensures Published(s, ev).value.1.id !in s.stampOf
    ensures Published(s, ev).value.1.id in s.known
    ensures IdAt(s, if ev.SendUpdate? then AtDraft(ev.id) else AtLaunch(ev.id)) == Some(Published(s, ev).value.1.id)
  {
    assert IdAt(s, if ev.SendUpdate? then AtDraft(ev.id) else AtLaunch(ev.id)) == Some(Published(s, ev).value.1.id);
  }

  lemma StampedLaunch(s: State, ev: Event, id: Id)
    requires Inv(s) && Stamped(s) && Enabled(s, ev)
    requires id in Apply(s, ev).launches
    ensures id !in Apply(s, ev).stampOf
    ensures Apply(s, ev).launches[id].stage.UpdateDrafted? ==>
              Apply(s, ev).launches[id].stage.update !in Apply(s, ev).stampOf
  {
    hide Apply;
    StampsAfter(s, ev);
    LaunchesAfter(s, ev);
    if id in s.launches {
      assert IdAt(s, AtLaunch(id)) == Some(id);
      if s.launches[id].stage.UpdateDrafted? {
        assert IdAt(s, AtDraft(id)) == Some(s.launches[id].stage.update);
      }
    }
    if Published(s, ev).Some? {
      PublishedNew(s, ev);
    }
  }

  lemma NeverLaunched(s: State, ev: Event, id: Id)
    requires Inv(s) && UpdatesFirst(s) && Enabled(s, ev)
    requires id in Apply(s, ev).waitsFor
    ensures Apply(s, ev).waitsFor[id] !in Apply(s, ev).launches
  {
    hide Apply;
    LaunchesAfter(s, ev);
    assert forall j :: j in s.launches ==> IdAt(s, AtLaunch(j)) == Some(j);
  }

  lemma SentIsStamped(s: State, ev: Event, id: Id)
    requires UpdatesFirst(s) && Enabled(s, ev) && Reliable(s, ev)
    requires id in Apply(s, ev).launches && Apply(s, ev).launches[id].stage.UpdateSent?
    ensures Apply(s, ev).launches[id].stage.update in Apply(s, ev).stampOf
  {
    hide Apply;
    StampsAfter(s, ev);
    LaunchesAfter(s, ev);
  }

  lemma UpdatesFirstStep(s: State, ev: Event)
    requires Inv(s) && Stamped(s) && UpdatesFirst(s) && Enabled(s, ev) && Reliable(s, ev)
    ensures UpdatesFirst(Apply(s, ev))
  {
    hide Apply, Enabled, Reliable, Inv, Stamped;
    var s' := Apply(s, ev);
    forall p | TaskAt(s', p).Some? && TaskAt(s', p).value.prev.Some?
      ensures TaskAt(s', p).value.prev.value in s'.stampOf
      ensures s'.stampOf[TaskAt(s', p).value.prev.value] < TaskAt(s', p).value.stamp
    {
      PrevFirst(s, ev, p);
    }
    forall id | id in s'.waitsFor
      ensures s'.waitsFor[id] !in s'.launches
    {
      NeverLaunched(s, ev, id);
    }
    forall id | id in s'.launches && s'.launches[id].stage.UpdateSent?
      ensures s'.launches[id].stage.update in s'.stampOf
    {
      SentIsStamped(s, ev, id);
    }
    forall id, p | id in s'.waitsFor && TaskAt(s', p).Some? && TaskAt(s', p).value.id == s'.waitsFor[id]
      ensures TaskAt(s', p).value.kind == Update
    {
      TravelsAsUpdate(s, ev, id, p);
    }
  }

  lemma PrevFirst(s: State, ev: Event, p: Place)
    requires Inv(s) && Stamped(s) && UpdatesFirst(s) && Enabled(s, ev) && Reliable(s, ev)
    requires TaskAt(Apply(s, ev), p).Some? && TaskAt(Apply(s, ev), p).value.prev.Some?
    ensures var t := TaskAt(Apply(s, ev), p).value;
            t.prev.value in Apply(s, ev).stampOf && Apply(s, ev).stampOf[t.prev.value] < t.stamp
  {
    hide Apply;
    StampsAfter(s, ev);
    MovesTask(s, ev, p);
    var f := Published(s, ev);
    if f.Some? {
      PublishedNew(s, ev);
    }
  }

  lemma TravelsAsUpdate(s: State, ev: Event, id: Id, p: Place)
    requires Inv(s) && UpdatesFirst(s) && Enabled(s, ev)
    requires id in Apply(s, ev).waitsFor && TaskAt(Apply(s, ev), p).Some?
    requires TaskAt(Apply(s, ev), p).value.id == Apply(s, ev).waitsFor[id]
    ensures TaskAt(Apply(s, ev), p).value.kind == Update
  {
    hide Apply;
    LaunchesAfter(s, ev);
    MovesTask(s, ev, p);
    assert IdAt(s, Origin(s, ev, p)) == Some(TaskAt(Apply(s, ev), p).value.id);
  }

  /** Where a job in place `p` is after the step. */
  function Dest(s: State, ev: Event, p: Place): Place
    requires Enabled(s, ev)
  {
    match ev
    case Fetch(c) =>
      var k := s.consumers[c];
      if p == AtQueue(k.queue, 0) then AtInbox(c, |k.inbox|)
      else if p.AtQueue? && p.queue == k.queue then AtQueue(p.queue, p.index - 1)
      else p
    case Take(c) =>
      if p == AtInbox(c, 0) then AtHand(c)
      else if p.AtInbox? && p.consumer == c then AtInbox(c, p.index - 1)
      else p
    case _ => p
  }

  lemma UnfinishedMoves(s: State, ev: Event, p: Place)
    requires Inv(s) && Kept(s) && Enabled(s, ev) && Reliable(s, ev)
    requires Unfinished(s, p)
    ensures (Unfinished(Apply(s, ev), Dest(s, ev, p)) && TaskAt(Apply(s, ev), Dest(s, ev, p)) == TaskAt(s, p))
            || Settled(Apply(s, ev), TaskAt(s, p).value.id)
  {
    hide Apply, Inv;
    ConsumersAfter(s, ev);
    if ev.Advance? && p == AtHand(ev.consumer) {
      FinishSettles(s, ev);
    } else {
      match p
      case AtQueue(q, i) => QueuedStays(s, ev, q, i);
      case AtInbox(c, i) => InboxStays(s, ev, c, i);
      case AtHand(c) => assert Apply(s, ev).consumers[c].phase == s.consumers[c].phase;
    }
  }

  lemma QueuedStays(s: State, ev: Event, q: QueueName, i: nat)
    requires Kept(s) && Enabled(s, ev) && Reliable(s, ev)
    requires i < |ReadyOf(s, q)|
    ensures var r := Dest(s, ev, AtQueue(q, i));
            Unfinished(Apply(s, ev), r) && TaskAt(Apply(s, ev), r) == Some(ReadyOf(s, q)[i])
  {
    hide Apply;
    QueueAfter(s, ev, q);
    ConsumersAfter(s, ev);
  }

  lemma InboxStays(s: State, ev: Event, c: Id, i: nat)
    requires Kept(s) && Enabled(s, ev) && Reliable(s, ev)
    requires c in s.consumers && i < |s.consumers[c].inbox|
    ensures var r := Dest(s, ev, AtInbox(c, i));
            Unfinished(Apply(s, ev), r) && TaskAt(Apply(s, ev), r) == Some(s.consumers[c].inbox[i])
  {
    hide Apply;
    ConsumersAfter(s, ev);
  }

  /** The write that leaves Blocked or Active makes the document terminal. */
  lemma FinishSettles(s: State, ev: Event)
    requires Inv(s) && ev.Advance? && Enabled(s, ev) && Reliable(s, ev)
    requires Unfinished(s, AtHand(ev.consumer))
    ensures var t := s.consumers[ev.consumer].phase.task;
            (Unfinished(Apply(s, ev), AtHand(ev.consumer)) && TaskAt(Apply(s, ev), AtHand(ev.consumer)) == Some(t))
            || Settled(Apply(s, ev), t.id)
  {
    hide Apply;
    ConsumersAfter(s, ev);
    var t := s.consumers[ev.consumer].phase.task;
    assert IdAt(s, AtHand(ev.consumer)) == Some(t.id);
    if t.id in Apply(s, ev).store.jobs {
      DocsAfter(s, ev, t.id);
    }
  }

  lemma SettledStays(s: State, ev: Event, id: Id)
    requires Inv(s) && Enabled(s, ev)
    requires id in s.known && Settled(s, id)
    ensures Settled(Apply(s, ev), id)
  {
    hide Apply;
    ForwardsStep(s, ev);
    if id in Apply(s, ev).store.jobs {
      DocsAfter(s, ev, id);
    }
  }

  lemma DemandMoves(s: State, ev: Event, u: Id)
    requires Inv(s) && Enabled(s, ev)
    requires InDemand(Apply(s, ev), u)
    ensures InDemand(s, u) || (ev.DraftUpdate? && u == ev.update)
  {
    hide Apply, Inv;
    var s' := Apply(s, ev);
    LaunchesAfter(s, ev);
    if p :| TaskAt(s', p).Some? && TaskAt(s', p).value.prev == Some(u) {
      MovesTask(s, ev, p);
    } else {
      var id :| id in s'.launches && !s'.launches[id].stage.Drafted? && s'.launches[id].stage.update == u;
    }
  }

  lemma KeptStep(s: State, ev: Event)
    requires Inv(s) && Stamped(s) && Kept(s) && Enabled(s, ev) && Reliable(s, ev)
    ensures Kept(Apply(s, ev))
  {
    hide Apply, Inv;
    var s' := Apply(s, ev);
    StampsAfter(s, ev);
    forall id | id in s'.stampOf
      ensures OnItsWay(s', id) || Settled(s', id)
    {
      if id in s.stampOf {
        StaysOnItsWay(s, ev, id);
      } else {
        PublishedOnItsWay(s, ev);
      }
    }
    forall u | InDemand(s', u)
      ensures u in s'.store.jobs
    {
      DemandMoves(s, ev, u);
      DemandStays(s, ev, u);
    }
    AliveStays(s, ev);
  }

  lemma AliveStays(s: State, ev: Event)
    requires Kept(s) && Enabled(s, ev) && Reliable(s, ev)
    ensures forall c :: c in Apply(s, ev).consumers ==> Apply(s, ev).consumers[c].alive
  {
    hide Apply;
    ConsumersAfter(s, ev);
  }

  lemma StaysOnItsWay(s: State, ev: Event, id: Id)
    requires Inv(s) && Stamped(s) && Kept(s) && Enabled(s, ev) && Reliable(s, ev)
    requires id in s.stampOf
    ensures OnItsWay(Apply(s, ev), id) || Settled(Apply(s, ev), id)
  {
    hide Apply, Inv;
    if OnItsWay(s, id) {
      var p :| Unfinished(s, p) && TaskAt(s, p).value.id == id;
      UnfinishedMoves(s, ev, p);
    } else {
      SettledStays(s, ev, id);
    }
  }

  lemma PublishedOnItsWay(s: State, ev: Event)
    requires Enabled(s, ev) && Published(s, ev).Some?
    ensures OnItsWay(Apply(s, ev), Published(s, ev).value.1.id)
  {
    hide Apply;
    var f := Published(s, ev).value;
    QueueAfter(s, ev, f.0.queue);
    assert TaskAt(Apply(s, ev), f.0) == Some(f.1);
    assert Unfinished(Apply(s, ev), f.0);
  }

  lemma DemandStays(s: State, ev: Event, u: Id)
    requires Kept(s) && Enabled(s, ev) && Reliable(s, ev)
    requires InDemand(s, u) || (ev.DraftUpdate? && u == ev.update)
    ensures u in Apply(s, ev).store.jobs
  {
    match ev
    case Advance(c, landed, _, success) =>
      var w := WriteOf(s.consumers[c].phase, success);
      assert Apply(s, ev).store == if w.Some? && landed then ApplyWrite(s.store, w.value) else s.store;
    case _ =>
  }

  // ---- Every reliable run ----

  ghost predicate ReliableRun(s: State, evs: seq<Event>)
    requires Runs(s, evs)
    decreases |evs|
  {
    evs == [] || (ReliableRun(s, evs[..|evs|-1]) && Reliable(After(s, evs[..|evs|-1]), evs[|evs|-1]))
  }

  lemma OrderInit(s: State)
    requires Init(s)
    ensures Order(s)
  {
  }

  lemma OrderStep(s: State, ev: Event)
    requires Inv(s) && Order(s) && Enabled(s, ev) && Reliable(s, ev)
    ensures Order(Apply(s, ev))
  {
    hide Apply, Inv, Ordered, Stamped, Kept, UpdatesFirst;
    OrderedStep(s, ev);
    StampedStep(s, ev);
    UpdatesFirstStep(s, ev);
    KeptStep(s, ev);
  }

  lemma {:induction false} OrderAlways(s: State, evs: seq<Event>)
    requires Init(s) && Runs(s, evs) && ReliableRun(s, evs)
    ensures Inv(After(s, evs)) && Order(After(s, evs))
    decreases |evs|
  {
    InvAlways(s, evs);
    if evs == [] {
      OrderInit(s);
    } else {
      OrderAlways(s, evs[..|evs|-1]);
      OrderStep(After(s, evs[..|evs|-1]), evs[|evs|-1]);
    }
  }
}
