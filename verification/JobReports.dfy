/** What a job leaves behind: payloads that are what was launched, documents that show how far
    their consumer has got, and projects that show the outcome reported last. Nothing here
    assumes that a run is reliable, except where it says so. */
module JobReports {
  import opened Common
  import opened JobModel
  import opened JobProtocol
  import opened JobSafety
  import opened JobOrder

  // ---- Projects ----

  /** The project a step reports to, with the outcome: a consumer that leaves Closing. */
  function Report(s: State, ev: Event): Option<(Id, Summary)>
    requires Enabled(s, ev)
  {
    if ev.Advance? && ev.landed && s.consumers[ev.consumer].phase.Closing? then
      var ph := s.consumers[ev.consumer].phase;
      Some((ph.task.project, Summary(ph.status, ph.failed)))
    else None
  }

  /** A step changes at most the stored project it reports to. */
  lemma ProjectsAfter(s: State, ev: Event, p: Id)
    requires Enabled(s, ev)
    ensures Apply(s, ev).store.projects.Keys == s.store.projects.Keys
    ensures p in s.store.projects ==>
              Apply(s, ev).store.projects[p]
              == if Report(s, ev).Some? && Report(s, ev).value.0 == p then Report(s, ev).value.1 else s.store.projects[p]
  {
    if ev.Advance? {
      var w := WriteOf(s.consumers[ev.consumer].phase, ev.success);
      assert Apply(s, ev).store == if w.Some? && ev.landed then ApplyWrite(s.store, w.value) else s.store;
    }
  }

  /** The last outcome reported to a project in a run. */
  ghost function LastReport(s: State, evs: seq<Event>, p: Id): Option<Summary>
    requires Runs(s, evs)
    decreases |evs|
  {
    if evs == [] then None
    else
      var front := evs[..|evs|-1];
      var r := Report(After(s, front), evs[|evs|-1]);
      if r.Some? && r.value.0 == p then Some(r.value.1) else LastReport(s, front, p)
  }

  /** The step ends the handling of `t`: its run succeeded or failed, or it was held back. */
  ghost predicate Ends(s: State, ev: Event, t: Task, outcome: Summary)
    requires Enabled(s, ev)
  {
    && ev.Advance?
    && var ph := s.consumers[ev.consumer].phase;
       || (ph == Active(t) && ev.success && outcome == Summary(Successful, false))
       || (ph == Active(t) && !ev.success && outcome == Summary(Failed, true))
       || (ph == Blocked(t) && outcome == Summary(Error, true))
  }

  /** Some step of the run did. */
  ghost predicate Ended(s: State, evs: seq<Event>, t: Task, outcome: Summary)
    requires Runs(s, evs)
    decreases |evs|
  {
    evs != []
    && var front := evs[..|evs|-1];
       Ends(After(s, front), evs[|evs|-1], t, outcome) || Ended(s, front, t, outcome)
  }

  /** What a consumer is about to report is how the run it had in hand ended. */
  lemma {:induction false} ReportsOutcome(s: State, evs: seq<Event>, c: Id)
    requires Init(s) && Runs(s, evs) && c in After(s, evs).consumers
    requires After(s, evs).consumers[c].phase.Closing? || After(s, evs).consumers[c].phase.Filing?
    ensures var ph := After(s, evs).consumers[c].phase;
            Ended(s, evs, ph.task, Summary(ph.status, ph.failed))
    decreases |evs|
  {
    hide Apply;
    if evs != [] {
      var front, last := evs[..|evs|-1], evs[|evs|-1];
      PhaseAfter(After(s, front), last, c);
      var ph := After(s, front).consumers[c].phase;
      if ph.Closing? || ph.Filing? {
        ReportsOutcome(s, front, c);
      }
    }
  }

  /** Every project shows the last outcome reported to it, and what it showed at first if
      there is none; and that is the outcome of a job of this project. */
  lemma {:induction false} ProjectShowsLast(s: State, evs: seq<Event>, p: Id)
    requires Init(s) && Runs(s, evs) && p in s.store.projects
    ensures p in After(s, evs).store.projects
    ensures After(s, evs).store.projects[p]
            == if LastReport(s, evs, p).Some? then LastReport(s, evs, p).value else s.store.projects[p]
    ensures LastReport(s, evs, p).Some? ==> exists t: Task :: t.project == p && Ended(s, evs, t, LastReport(s, evs, p).value)
    decreases |evs|
  {
    hide Apply, Ends;
    if evs != [] {
      var front, last := evs[..|evs|-1], evs[|evs|-1];
      ProjectShowsLast(s, front, p);
      ProjectsAfter(After(s, front), last, p);
      var r := Report(After(s, front), last);
      if r.Some? && r.value.0 == p {
        ReportsOutcome(s, front, last.consumer);
        assert Ended(s, evs, After(s, front).consumers[last.consumer].phase.task, r.value.1);
      } else if LastReport(s, front, p).Some? {
        var t: Task :| t.project == p && Ended(s, front, t, LastReport(s, front, p).value);
        assert Ended(s, evs, t, LastReport(s, front, p).value);
      }
    }
  }

  /** Some step of the run reported this outcome of `t` to its project. */
  ghost predicate Reported(s: State, evs: seq<Event>, t: Task, outcome: Summary)
    requires Runs(s, evs)
    decreases |evs|
  {
    evs != []
    && var front := evs[..|evs|-1];
       || (Report(After(s, front), evs[|evs|-1]) == Some((t.project, outcome))
           && After(s, front).consumers[evs[|evs|-1].consumer].phase.task == t)
       || Reported(s, front, t, outcome)
  }

  /** A consumer is about to. */
  ghost predicate Reports(s: State, t: Task, outcome: Summary) {
    exists c :: c in s.consumers && s.consumers[c].phase == Closing(t, outcome.status, outcome.failed)
  }

  /** As long as no consumer crashes and no write is lost, no outcome goes unreported: whatever
      ended has been reported to its project, or is the next thing its consumer writes. */
  lemma {:induction false} EndedIsReported(s: State, evs: seq<Event>, t: Task, outcome: Summary)
    requires Init(s) && Runs(s, evs) && Landing(evs) && forall ev :: ev in evs ==> !ev.Crash?
    requires Ended(s, evs, t, outcome)
    ensures Reported(s, evs, t, outcome) || Reports(After(s, evs), t, outcome)
    decreases |evs|
  {
    hide Apply;
    var front, last := evs[..|evs|-1], evs[|evs|-1];
    var s0 := After(s, front);
    assert last in evs && forall ev :: ev in front ==> ev in evs;
    ConsumersAfter(s0, last);
    if Ends(s0, last, t, outcome) {
      assert Apply(s0, last).consumers[last.consumer].phase == Closing(t, outcome.status, outcome.failed);
    } else {
      EndedIsReported(s, front, t, outcome);
      if !Reported(s, front, t, outcome) {
        var c :| c in s0.consumers && s0.consumers[c].phase == Closing(t, outcome.status, outcome.failed);
        if !(last.Advance? && last.consumer == c) {
          assert Apply(s0, last).consumers[c].phase == s0.consumers[c].phase;
        }
      }
    }
  }

  // ---- Documents ----

  /** No write is lost. */
  predicate Landing(evs: seq<Event>) {
    forall ev :: ev in evs && ev.Advance? ==> ev.landed
  }

  /** The document is as the phase of the job's consumer says. */
  predicate ShownAs(d: Doc, ph: Phase) {
    match ph
    case Marked(_) => d.status == Pending
    case Polling(_) => d.status == Waiting
    case Cleared(_) => d.status == Waiting
    case Blocked(_) => d.status == Waiting
    case Active(_) => d == Doc(Running, false)
    case Closing(_, status, failed) => d == Doc(status, failed)
    case Filing(_, status, failed) => d == Doc(status, failed)
    case _ => true
  }

  ghost predicate Shown(s: State) {
    forall c :: c in s.consumers && !s.consumers[c].phase.Idle? && s.consumers[c].phase.task.id in s.store.jobs ==>
      ShownAs(s.store.jobs[s.consumers[c].phase.task.id], s.consumers[c].phase)
  }

  lemma ShownStep(s: State, ev: Event, c: Id)
    requires Unique(s) && Known(s) && Shown(s) && Enabled(s, ev) && (ev.Advance? ==> ev.landed)
    requires c in Apply(s, ev).consumers && !Apply(s, ev).consumers[c].phase.Idle?
    requires Apply(s, ev).consumers[c].phase.task.id in Apply(s, ev).store.jobs
    ensures ShownAs(Apply(s, ev).store.jobs[Apply(s, ev).consumers[c].phase.task.id], Apply(s, ev).consumers[c].phase)
  {
    hide Apply;
    PhaseAfter(s, ev, c);
    var id := Apply(s, ev).consumers[c].phase.task.id;
    DocsAfter(s, ev, id);
    if ev != Take(c) {
      assert IdAt(s, AtHand(c)) == Some(id);
      if ev.Advance? {
        assert IdAt(s, AtHand(ev.consumer)) == Some(s.consumers[ev.consumer].phase.task.id);
      }
    }
  }

  /** In a run that loses no write, whatever else happens, the document of a job in hand shows
      how far its consumer has got, and at the end how its run ended. */
  lemma {:induction false} DocumentsShowPhase(s: State, evs: seq<Event>)
    requires Init(s) && Runs(s, evs) && Landing(evs)
    ensures Shown(After(s, evs))
    decreases |evs|
  {
    hide Apply;
    if evs != [] {
      var front, last := evs[..|evs|-1], evs[|evs|-1];
      assert last in evs && forall ev :: ev in front ==> ev in evs;
      DocumentsShowPhase(s, front);
      InvAlways(s, front);
      forall c | c in After(s, evs).consumers && !After(s, evs).consumers[c].phase.Idle?
                 && After(s, evs).consumers[c].phase.task.id in After(s, evs).store.jobs
        ensures ShownAs(After(s, evs).store.jobs[After(s, evs).consumers[c].phase.task.id], After(s, evs).consumers[c].phase)
      {
        ShownStep(After(s, front), last, c);
      }
    }
  }

  function FirstDoc(k: Kind): Doc {
    if k == Update then Doc(Pending, false) else Doc(New, false)
  }

  /** A job that no consumer has written yet: in a launch, a queue or an inbox, or just taken. */
  ghost predicate Untouched(s: State) {
    && (forall p :: TaskAt(s, p).Some? && (p.AtHand? ==> s.consumers[p.consumer].phase.Acked?)
                    && TaskAt(s, p).value.id in s.store.jobs ==>
          s.store.jobs[TaskAt(s, p).value.id] == FirstDoc(TaskAt(s, p).value.kind))
    && (forall id :: id in s.launches && id in s.store.jobs ==> s.store.jobs[id] == FirstDoc(s.launches[id].kind))
    && (forall id :: id in s.launches && s.launches[id].stage.UpdateDrafted?
                     && s.launches[id].stage.update in s.store.jobs ==>
          s.store.jobs[s.launches[id].stage.update] == FirstDoc(Update))
  }

  lemma Inserts(s: State, ev: Event)
    requires Enabled(s, ev)
    ensures ev.BeginLaunch? ==> ev.id in Apply(s, ev).store.jobs && Apply(s, ev).store.jobs[ev.id] == FirstDoc(ev.kind)
    ensures ev.DraftUpdate? ==> ev.update in Apply(s, ev).store.jobs && Apply(s, ev).store.jobs[ev.update] == FirstDoc(Update)
  {
  }

  /** A step leaves the document of a job alone that is in some place other than the hands of
      a writing consumer. */
  lemma LeftAlone(s: State, ev: Event, p: Place, id: Id)
    requires Unique(s) && Known(s) && Enabled(s, ev) && IdAt(s, p) == Some(id)
    requires ev.Advance? ==> p != AtHand(ev.consumer)
    requires id in Apply(s, ev).store.jobs
    ensures id in s.store.jobs && Apply(s, ev).store.jobs[id] == s.store.jobs[id]
  {
    hide Apply;
    DocsAfter(s, ev, id);
    if ev.Advance? {
      assert IdAt(s, AtHand(ev.consumer)) == Some(s.consumers[ev.consumer].phase.task.id);
    }
  }

  lemma UntouchedTask(s: State, ev: Event, p: Place)
    requires Unique(s) && Known(s) && Untouched(s) && Enabled(s, ev)
    requires TaskAt(Apply(s, ev), p).Some? && (p.AtHand? ==> Apply(s, ev).consumers[p.consumer].phase.Acked?)
    requires TaskAt(Apply(s, ev), p).value.id in Apply(s, ev).store.jobs
    ensures Apply(s, ev).store.jobs[TaskAt(Apply(s, ev), p).value.id] == FirstDoc(TaskAt(Apply(s, ev), p).value.kind)
  {
    hide Apply;
    var t := TaskAt(Apply(s, ev), p).value;
    MovesTask(s, ev, p);
    assert IdAt(s, Origin(s, ev, p)) == Some(t.id);
    if p.AtHand? {
      PhaseAfter(s, ev, p.consumer);
    }
    LeftAlone(s, ev, Origin(s, ev, p), t.id);
  }

  lemma UntouchedLaunch(s: State, ev: Event, id: Id)
    requires Unique(s) && Known(s) && Untouched(s) && Enabled(s, ev) && id in Apply(s, ev).launches
    ensures id in Apply(s, ev).store.jobs ==> Apply(s, ev).store.jobs[id] == FirstDoc(Apply(s, ev).launches[id].kind)
    ensures Apply(s, ev).launches[id].stage.UpdateDrafted?
            && Apply(s, ev).launches[id].stage.update in Apply(s, ev).store.jobs ==>
              Apply(s, ev).store.jobs[Apply(s, ev).launches[id].stage.update] == FirstDoc(Update)
  {
    hide Apply;
    LaunchesAfter(s, ev);
    Inserts(s, ev);
    var l := Apply(s, ev).launches[id];
    if id in s.launches && id in Apply(s, ev).store.jobs {
      assert IdAt(s, AtLaunch(id)) == Some(id);
      LeftAlone(s, ev, AtLaunch(id), id);
    }
    if l.stage.UpdateDrafted? && l.stage.update in Apply(s, ev).store.jobs && !(ev.DraftUpdate? && ev.id == id) {
      assert IdAt(s, AtDraft(id)) == Some(l.stage.update);
      LeftAlone(s, ev, AtDraft(id), l.stage.update);
    }
  }

  /** In every run, whatever fails, crashes or is redelivered, the document of a job that was
      not taken yet is as it was inserted: new, and pending for an update job. */
  lemma {:induction false} UntouchedUntilTaken(s: State, evs: seq<Event>)
    requires Init(s) && Runs(s, evs)
    ensures Untouched(After(s, evs))
    decreases |evs|
  {
    hide Apply;
    if evs != [] {
      var front, last := evs[..|evs|-1], evs[|evs|-1];
      UntouchedUntilTaken(s, front);
      InvAlways(s, front);
      UntouchedStep(After(s, front), last);
    }
  }

  lemma UntouchedStep(s: State, ev: Event)
    requires Unique(s) && Known(s) && Untouched(s) && Enabled(s, ev)
    ensures Untouched(Apply(s, ev))
  {
    hide Apply, Enabled, FirstDoc, Unique, Known;
    var s' := Apply(s, ev);
    forall p | TaskAt(s', p).Some? && (p.AtHand? ==> s'.consumers[p.consumer].phase.Acked?)
               && TaskAt(s', p).value.id in s'.store.jobs
      ensures s'.store.jobs[TaskAt(s', p).value.id] == FirstDoc(TaskAt(s', p).value.kind)
    {
      UntouchedTask(s, ev, p);
    }
    forall id | id in s'.launches
      ensures id in s'.store.jobs ==> s'.store.jobs[id] == FirstDoc(s'.launches[id].kind)
      ensures s'.launches[id].stage.UpdateDrafted? && s'.launches[id].stage.update in s'.store.jobs ==>
                s'.store.jobs[s'.launches[id].stage.update] == FirstDoc(Update)
    {
      UntouchedLaunch(s, ev, id);
    }
  }

  // ---- Templates ----

  /** A step changes at most one stored template, when a consumer leaves Filing: the one of its
      job, among the terraform templates for a terraform job. */
  lemma TemplatesAre(s: State, ev: Event, key: TemplateKey)
    requires Enabled(s, ev) && !ev.EditTemplate?
    ensures Apply(s, ev).store.templates.Keys == s.store.templates.Keys
    ensures key in s.store.templates ==>
              var now := Apply(s, ev).store.templates[key];
              if ev.Advance? && ev.landed && s.consumers[ev.consumer].phase.Filing?
                 && key.template == s.consumers[ev.consumer].phase.task.template
                 && (key.queue == TerraformQ <==> s.consumers[ev.consumer].phase.task.kind == Provision)
              then now == Summary(s.consumers[ev.consumer].phase.status, s.consumers[ev.consumer].phase.failed)
              else now == s.store.templates[key]
  {
    if ev.Advance? {
      var w := WriteOf(s.consumers[ev.consumer].phase, ev.success);
      assert Apply(s, ev).store == if w.Some? && ev.landed then ApplyWrite(s.store, w.value) else s.store;
    }
  }

  // ---- Payloads ----

  /** The job was launched with this kind, template and project; or it is the update job of a
      launch for this project. */
  ghost predicate Requested(evs: seq<Event>, t: Task) {
    || BeginLaunch(t.id, t.kind, t.template, t.project) in evs
    || (t.kind == Update && exists id, k, m :: BeginLaunch(id, k, m, t.project) in evs && DraftUpdate(id, t.id) in evs)
  }

  ghost predicate LaunchesRequested(s: State, evs: seq<Event>) {
    forall id :: id in s.launches ==>
      && BeginLaunch(id, s.launches[id].kind, s.launches[id].template, s.launches[id].project) in evs
      && (!s.launches[id].stage.Drafted? ==> DraftUpdate(id, s.launches[id].stage.update) in evs)
  }

  lemma RequestedMore(evs: seq<Event>, ev: Event, t: Task)
    ensures Requested(evs, t) ==> Requested(evs + [ev], t)
  {
    if Requested(evs, t) && BeginLaunch(t.id, t.kind, t.template, t.project) !in evs {
      var id, k, m :| BeginLaunch(id, k, m, t.project) in evs && DraftUpdate(id, t.id) in evs;
      assert BeginLaunch(id, k, m, t.project) in evs + [ev] && DraftUpdate(id, t.id) in evs + [ev];
    }
  }

  lemma LaunchesRequestedStep(s: State, evs: seq<Event>, ev: Event)
    requires LaunchesRequested(s, evs) && Enabled(s, ev)
    ensures LaunchesRequested(Apply(s, ev), evs + [ev])
  {
    hide Apply;
    LaunchesAfter(s, ev);
  }

  lemma PublishedRequested(s: State, evs: seq<Event>, ev: Event)
    requires LaunchesRequested(s, evs) && Enabled(s, ev) && Published(s, ev).Some?
    ensures Requested(evs, Published(s, ev).value.1)
    ensures Published(s, ev).value.1.prev.Some? ==>
              DraftUpdate(Published(s, ev).value.1.id, Published(s, ev).value.1.prev.value) in evs
  {
    var l := s.launches[ev.id];
    assert BeginLaunch(ev.id, l.kind, l.template, l.project) in evs;
  }

  /** Terraform jobs travel in the terraform queue, all others in the ansible queue. */
  ghost predicate Sorted(s: State) {
    forall p :: TaskAt(s, p).Some? ==> (QueueAt(s, p) == TerraformQ <==> TaskAt(s, p).value.kind == Provision)
  }

  lemma SortedStep(s: State, ev: Event, p: Place)
    requires Sorted(s) && Enabled(s, ev) && TaskAt(Apply(s, ev), p).Some?
    ensures QueueAt(Apply(s, ev), p) == TerraformQ <==> TaskAt(Apply(s, ev), p).value.kind == Provision
  {
    hide Apply;
    MovesTask(s, ev, p);
    ConsumersAfter(s, ev);
    assert TaskAt(s, Origin(s, ev, p)).Some? ==> TaskAt(s, Origin(s, ev, p)) == TaskAt(Apply(s, ev), p) || Published(s, ev).Some?;
  }

  lemma {:induction false} SortedAlways(s: State, evs: seq<Event>)
    requires Init(s) && Runs(s, evs)
    ensures Sorted(After(s, evs))
    decreases |evs|
  {
    hide Apply;
    if evs != [] {
      var front, last := evs[..|evs|-1], evs[|evs|-1];
      SortedAlways(s, front);
      forall p | TaskAt(After(s, evs), p).Some?
        ensures QueueAt(After(s, evs), p) == TerraformQ <==> TaskAt(After(s, evs), p).value.kind == Provision
      {
        SortedStep(After(s, front), last, p);
      }
    }
  }

  ghost predicate AsRequested(evs: seq<Event>, t: Task) {
    Requested(evs, t) && (t.prev.Some? ==> DraftUpdate(t.id, t.prev.value) in evs)
  }

  /** Whatever was lost, redelivered or returned in between, every payload in a queue or with a
      consumer carries the kind, template and project of its launch, and waits for the update
      job drafted by that launch. */
  lemma {:induction false} PayloadsAsRequested(s: State, evs: seq<Event>)
    requires Init(s) && Runs(s, evs)
    ensures LaunchesRequested(After(s, evs), evs)
    ensures forall p :: TaskAt(After(s, evs), p).Some? ==> AsRequested(evs, TaskAt(After(s, evs), p).value)
    decreases |evs|
  {
    hide Apply, Requested;
    if evs != [] {
      var front, last := evs[..|evs|-1], evs[|evs|-1];
      assert front + [last] == evs;
      PayloadsAsRequested(s, front);
      LaunchesRequestedStep(After(s, front), front, last);
      forall p | TaskAt(After(s, evs), p).Some?
        ensures AsRequested(evs, TaskAt(After(s, evs), p).value)
      {
        PayloadStep(s, front, last, p);
      }
    }
  }

  lemma PayloadStep(s: State, front: seq<Event>, last: Event, p: Place)
    requires Runs(s, front) && Enabled(After(s, front), last) && LaunchesRequested(After(s, front), front)
    requires forall r :: TaskAt(After(s, front), r).Some? ==> AsRequested(front, TaskAt(After(s, front), r).value)
    requires TaskAt(Apply(After(s, front), last), p).Some?
    ensures AsRequested(front + [last], TaskAt(Apply(After(s, front), last), p).value)
  {
    hide Apply, Requested, After, Enabled;
    var s0 := After(s, front);
    var t := TaskAt(Apply(s0, last), p).value;
    MovesTask(s0, last, p);
    if Published(s0, last).Some? {
      PublishedRequested(s0, front, last);
    }
    assert AsRequested(front, t);
    RequestedMore(front, last, t);
  }
}
