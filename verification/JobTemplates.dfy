/** What a template shows: with one consumer per queue, and nobody editing the template,
    a template at rest shows the outcome of its most recently finished job. */
module JobTemplates {
  import opened Common
  import opened JobModel
  import opened JobProtocol
  import opened JobSafety
  import opened JobOrder

  /** The last terminal write of a job of template `key`. */
  function LastOf(log: seq<Finished>, key: TemplateKey): Option<Summary> {
    if log == [] then None
    else
      var f := log[|log|-1];
      if f.key == key then Some(Summary(f.status, f.failed)) else LastOf(log[..|log|-1], key)
  }

  function KeyOf(t: Task): TemplateKey {
    TemplateKey(QueueOf(t.kind), t.template)
  }

  /** The consumer has written the job's terminal status but not yet the template's. */
  predicate Reporting(ph: Phase, key: TemplateKey) {
    (ph.Closing? || ph.Filing?) && ph.task.kind != Update && KeyOf(ph.task) == key
  }

  /** Nobody edits templates, and a queue never gets a second consumer. */
  ghost predicate Steady(s: State, ev: Event) {
    && Reliable(s, ev)
    && !ev.EditTemplate?
    && (ev.Join? ==> forall c :: c in s.consumers ==> s.consumers[c].queue != ev.queue)
  }

  ghost predicate SteadyRun(s: State, evs: seq<Event>)
    requires Runs(s, evs)
    decreases |evs|
  {
    evs == [] || (SteadyRun(s, evs[..|evs|-1]) && Steady(After(s, evs[..|evs|-1]), evs[|evs|-1]))
  }

  ghost predicate OneEach(s: State) {
    forall c, d :: c in s.consumers && d in s.consumers && s.consumers[c].queue == s.consumers[d].queue ==> c == d
  }

  /** A consumer about to report holds the last outcome of its template. */
  ghost predicate ReportsLast(s: State) {
    forall c, key :: c in s.consumers && Reporting(s.consumers[c].phase, key) ==>
      LastOf(s.finished, key) == Some(Summary(s.consumers[c].phase.status, s.consumers[c].phase.failed))
  }

  ghost predicate Shows(s: State, key: TemplateKey) {
    key in s.store.templates && LastOf(s.finished, key).Some? ==>
      s.store.templates[key] == LastOf(s.finished, key).value
  }

  ghost predicate UpToDate(s: State) {
    forall key :: (forall c :: c in s.consumers ==> !Reporting(s.consumers[c].phase, key)) ==> Shows(s, key)
  }

  /** Update jobs have no template and never get as far as reporting to one. */
  ghost predicate OnlyTemplateJobs(s: State) {
    forall c :: c in s.consumers && s.consumers[c].phase.Filing? ==> s.consumers[c].phase.task.kind != Update
  }

  ghost predicate Agreement(s: State) {
    OnlyTemplateJobs(s) && OneEach(s) && ReportsLast(s) && UpToDate(s)
  }

  lemma LastOfAppend(log: seq<Finished>, f: Finished, key: TemplateKey)
    ensures LastOf(log + [f], key) == if f.key == key then Some(Summary(f.status, f.failed)) else LastOf(log, key)
  {
    assert (log + [f])[..|log|] == log;
  }

  /** What a step does to the log of terminal writes. */
  lemma LogAfter(s: State, ev: Event, key: TemplateKey)
    requires Enabled(s, ev)
    ensures if !ev.Advance? then Apply(s, ev).finished == s.finished
            else
              var ph := s.consumers[ev.consumer].phase;
              var ph' := Apply(s, ev).consumers[ev.consumer].phase;
              LastOf(Apply(s, ev).finished, key)
              == if (ph.Active? || ph.Blocked?) && Reporting(ph', key) then Some(Summary(ph'.status, ph'.failed))
                 else LastOf(s.finished, key)
  {
    if ev.Advance? {
      var ph := s.consumers[ev.consumer].phase;
      var w := WriteOf(ph, ev.success);
      PhaseAdvances(s, ev);
      if w.Some? && w.value.Finish? && ph.task.kind != Update {
        LastOfAppend(s.finished, Finished(ph.task.id, KeyOf(ph.task), w.value.status, w.value.failed), key);
      }
    }
  }

  lemma PhaseAdvances(s: State, ev: Event)
    requires Enabled(s, ev) && ev.Advance?
    ensures var ph := s.consumers[ev.consumer].phase;
            Apply(s, ev).consumers[ev.consumer].phase == NextPhase(ph, Poll(s, ph, ev.readable), ev.success)
  {
  }

  /** What a step does to the templates. */
  lemma TemplatesAfter(s: State, ev: Event, key: TemplateKey)
    requires Enabled(s, ev) && Steady(s, ev)
    ensures Apply(s, ev).store.templates.Keys == s.store.templates.Keys
    ensures key in s.store.templates ==>
              Apply(s, ev).store.templates[key]
              == if ev.Advance? && s.consumers[ev.consumer].phase.Filing? && KeyOf(s.consumers[ev.consumer].phase.task) == key
                 then Summary(s.consumers[ev.consumer].phase.status, s.consumers[ev.consumer].phase.failed)
                 else s.store.templates[key]
  {
    if ev.Advance? {
      var w := WriteOf(s.consumers[ev.consumer].phase, ev.success);
      assert Apply(s, ev).store == if w.Some? then ApplyWrite(s.store, w.value) else s.store;
    }
  }

  lemma QueuesStay(s: State, ev: Event, c: Id)
    requires Enabled(s, ev) && c in s.consumers
    ensures c in Apply(s, ev).consumers && Apply(s, ev).consumers[c].queue == s.consumers[c].queue
  {
    hide Apply;
    ConsumersAfter(s, ev);
  }

  lemma NewConsumer(s: State, ev: Event, c: Id)
    requires Enabled(s, ev) && c in Apply(s, ev).consumers && c !in s.consumers
    ensures ev == Join(c, Apply(s, ev).consumers[c].queue)
  {
    hide Apply;
    ConsumersAfter(s, ev);
  }

  lemma OneEachStep(s: State, ev: Event)
    requires OneEach(s) && Enabled(s, ev) && Steady(s, ev)
    ensures OneEach(Apply(s, ev))
  {
    hide Apply;
    var s' := Apply(s, ev);
    forall c, d | c in s'.consumers && d in s'.consumers && s'.consumers[c].queue == s'.consumers[d].queue
      ensures c == d
    {
      if c in s.consumers { QueuesStay(s, ev, c); } else { NewConsumer(s, ev, c); }
      if d in s.consumers { QueuesStay(s, ev, d); } else { NewConsumer(s, ev, d); }
    }
  }

  lemma OnlyTemplateJobsStep(s: State, ev: Event)
    requires OnlyTemplateJobs(s) && Enabled(s, ev)
    ensures OnlyTemplateJobs(Apply(s, ev))
  {
    hide Apply;
    var s' := Apply(s, ev);
    forall c | c in s'.consumers && s'.consumers[c].phase.Filing?
      ensures s'.consumers[c].phase.task.kind != Update
    {
      PhaseAfter(s, ev, c);
    }
  }

  /** Two consumers never report on one template. */
  lemma ReportsAlone(s: State, c: Id, d: Id, key: TemplateKey)
    requires Stamped(s) && OneEach(s)
    requires c in s.consumers && d in s.consumers
    requires !s.consumers[c].phase.Idle? && !s.consumers[d].phase.Idle?
    requires KeyOf(s.consumers[c].phase.task) == key && KeyOf(s.consumers[d].phase.task) == key
    ensures c == d
  {
    assert TaskAt(s, AtHand(c)) == Some(s.consumers[c].phase.task);
    assert TaskAt(s, AtHand(d)) == Some(s.consumers[d].phase.task);
    assert QueueAt(s, AtHand(c)) == QueueAt(s, AtHand(d));
  }

  lemma ReportsLastStep(s: State, ev: Event)
    requires Inv(s) && Stamped(s) && Agreement(s) && Enabled(s, ev) && Steady(s, ev)
    ensures ReportsLast(Apply(s, ev))
  {
    hide Apply, Inv, Stamped;
    ConsumersAfter(s, ev);
    var s' := Apply(s, ev);
    forall c, key | c in s'.consumers && Reporting(s'.consumers[c].phase, key)
      ensures LastOf(s'.finished, key) == Some(Summary(s'.consumers[c].phase.status, s'.consumers[c].phase.failed))
    {
      PhaseAfter(s, ev, c);
      LogAfter(s, ev, key);
      if ev.Advance? && ev.consumer != c && KeyOf(s.consumers[ev.consumer].phase.task) == key {
        ReportsAlone(s, c, ev.consumer, key);
        assert false;
      }
    }
  }

  lemma UpToDateStep(s: State, ev: Event)
    requires Inv(s) && Stamped(s) && Agreement(s) && Enabled(s, ev) && Steady(s, ev)
    ensures UpToDate(Apply(s, ev))
  {
    hide Apply, Inv, Stamped;
    ConsumersAfter(s, ev);
    var s' := Apply(s, ev);
    forall key | forall c :: c in s'.consumers ==> !Reporting(s'.consumers[c].phase, key)
      ensures Shows(s', key)
    {
      LogAfter(s, ev, key);
      TemplatesAfter(s, ev, key);
      if c :| c in s.consumers && Reporting(s.consumers[c].phase, key) {
        StopsReporting(s, ev, c, key);
      } else {
        assert Shows(s, key);
      }
    }
  }

  lemma PhaseOf(s: State, ev: Event, c: Id)
    requires Enabled(s, ev) && Reliable(s, ev)
    requires c in s.consumers && !s.consumers[c].phase.Idle?
    ensures c in Apply(s, ev).consumers
    ensures Apply(s, ev).consumers[c].phase
            == if ev.Advance? && ev.consumer == c
               then NextPhase(s.consumers[c].phase, Poll(s, s.consumers[c].phase, ev.readable), ev.success)
               else s.consumers[c].phase
  {
    hide Apply;
    ConsumersAfter(s, ev);
  }

  /** A consumer stops reporting by writing the template. */
  lemma StopsReporting(s: State, ev: Event, c: Id, key: TemplateKey)
    requires Agreement(s) && Enabled(s, ev) && Steady(s, ev)
    requires c in s.consumers && Reporting(s.consumers[c].phase, key)
    requires c in Apply(s, ev).consumers ==> !Reporting(Apply(s, ev).consumers[c].phase, key)
    ensures Shows(Apply(s, ev), key)
  {
    hide Apply;
    PhaseOf(s, ev, c);
    LogAfter(s, ev, key);
    TemplatesAfter(s, ev, key);
    assert ev.Advance? && ev.consumer == c && s.consumers[c].phase.Filing?;
  }

  lemma {:induction false} AgreementAlways(s: State, evs: seq<Event>)
    requires Init(s) && Runs(s, evs) && SteadyRun(s, evs)
    ensures Inv(After(s, evs)) && Order(After(s, evs)) && Agreement(After(s, evs))
    decreases |evs|
  {
    if evs == [] {
      InvInit(s);
      OrderInit(s);
    } else {
      var s0, ev := After(s, evs[..|evs|-1]), evs[|evs|-1];
      AgreementAlways(s, evs[..|evs|-1]);
      InvStep(s0, ev);
      OrderStep(s0, ev);
      OneEachStep(s0, ev);
      OnlyTemplateJobsStep(s0, ev);
      ReportsLastStep(s0, ev);
      UpToDateStep(s0, ev);
    }
  }

  /** When the consumer of a template's queue is idle, the template carries the status and
      the failure flag of its most recently finished job. */
  lemma TemplateShowsLast(s: State, evs: seq<Event>, key: TemplateKey)
    requires Init(s) && Runs(s, evs) && SteadyRun(s, evs)
    requires forall c :: c in After(s, evs).consumers && After(s, evs).consumers[c].queue == key.queue ==>
               After(s, evs).consumers[c].phase.Idle?
    ensures Shows(After(s, evs), key)
  {
    hide Runs, After, SteadyRun, Inv, Ordered, UpdatesFirst, Kept, Shows;
    AgreementAlways(s, evs);
    var s' := After(s, evs);
    forall c | c in s'.consumers
      ensures !Reporting(s'.consumers[c].phase, key)
    {
      if !s'.consumers[c].phase.Idle? {
        assert TaskAt(s', AtHand(c)) == Some(s'.consumers[c].phase.task);
        assert QueueAt(s', AtHand(c)) == s'.consumers[c].queue;
      }
    }
  }
}
