/** The API side in the form the program has it: `Launch` of both template controllers
    and `UpdateProject`, which `Launch` calls. */
module JobLaunch {
  import opened Common
  import opened JobModel
  import opened JobProtocol

  /** What happens to a launch that is outside its control. The first four make a handler
      give up; the last two are publishes whose failure nobody looks at. */
  datatype Fate = Fate(
    insertFails: bool, needsUpdate: bool, updateInsertFails: bool, credentialMissing: bool,
    updateSent: bool, jobSent: bool)

  predicate UpdateFails(fate: Fate) {
    fate.updateInsertFails || fate.credentialMissing
  }

  predicate LaunchFails(fate: Fate) {
    fate.insertFails || (fate.needsUpdate && UpdateFails(fate))
  }

  /** The steps of the protocol that `UpdateProject` makes on behalf of launch `id`. */
  function UpdateSteps(id: Id, u: Id, fate: Fate): seq<Event> {
    if fate.updateInsertFails then []
    else if fate.credentialMissing then [DraftUpdate(id, u)]
    else [DraftUpdate(id, u), SendUpdate(id, fate.updateSent)]
  }

  /** And those that `Launch` makes. */
  function LaunchSteps(id: Id, u: Id, kind: Kind, template: Id, project: Id, fate: Fate): seq<Event> {
    if fate.insertFails then []
    else
      [BeginLaunch(id, kind, template, project)]
      + (if fate.needsUpdate then UpdateSteps(id, u, fate) else [])
      + [if LaunchFails(fate) then Abandon(id) else SendJob(id, fate.jobSent)]
  }

  /** The new identifiers are new, and nothing refers to them. */
  predicate FreshIds(s: State, id: Id, u: Id) {
    id != u && id !in s.known && u !in s.known && id !in s.stampOf && u !in s.stampOf
  }

  lemma {:induction false} RunsConcat(s: State, a: seq<Event>, b: seq<Event>)
    requires Runs(s, a) && Runs(After(s, a), b)
    ensures Runs(s, a + b) && After(s, a + b) == After(After(s, a), b)
    decreases |b|
  {
    if b == [] {
      assert a + b == a;
    } else {
      var front := b[..|b|-1];
      assert Runs(After(s, a), front);
      RunsConcat(s, a, front);
      assert (a + b)[..|a + b|-1] == a + front;
    }
  }

  lemma RunsNone(s: State)
    ensures Runs(s, []) && After(s, []) == s
    ensures forall ev: Event :: [] + [ev] == [ev]
  {
  }

  lemma LaunchStepsAre(id: Id, u: Id, kind: Kind, template: Id, project: Id, fate: Fate)
    ensures var begin, update := [BeginLaunch(id, kind, template, project)], UpdateSteps(id, u, fate);
            LaunchSteps(id, u, kind, template, project, fate)
            == if fate.insertFails then []
               else if !fate.needsUpdate then begin + [SendJob(id, fate.jobSent)]
               else begin + update + [if UpdateFails(fate) then Abandon(id) else SendJob(id, fate.jobSent)]
  {
  }

  lemma RunsOne(s: State, ev: Event)
    requires Enabled(s, ev)
    ensures Runs(s, [ev]) && After(s, [ev]) == Apply(s, ev)
  {
    assert [ev][..0] == [];
  }

  /** The store and the queues, reached one step at a time. */
  class Backend {
    var state: State

    constructor (s: State)
      ensures state == s
    {
      state := s;
    }

    /** The next step of a handler that started in `before` and has made the steps `done`. */
    method Perform(ev: Event, ghost before: State, ghost done: seq<Event>)
      requires Runs(before, done) && state == After(before, done) && Enabled(state, ev)
      modifies this
      ensures Runs(before, done + [ev]) && state == After(before, done + [ev]) == Apply(old(state), ev)
    {
      RunsOne(state, ev);
      RunsConcat(before, done, [ev]);
      state := Apply(state, ev);
    }

    /** `UpdateProject`: insert, find the credential, publish. */
    method UpdateProject(id: Id, u: Id, fate: Fate, ghost before: State, ghost done: seq<Event>) returns (update: Option<Id>)
      requires Runs(before, done) && state == After(before, done)
      requires id in state.launches && state.launches[id].stage.Drafted? && state.launches[id].kind != Update
      requires u !in state.known
      modifies this
      ensures update == if UpdateFails(fate) then None else Some(u)
      ensures Runs(before, done + UpdateSteps(id, u, fate)) && state == After(before, done + UpdateSteps(id, u, fate))
      ensures id in state.launches && (update.Some? ==> state.launches[id].stage == UpdateSent(u))
    {
      assert done + [] == done;
      if fate.updateInsertFails {
        return None;
      }
      Perform(DraftUpdate(id, u), before, done);
      if fate.credentialMissing {
        return None;
      }
      Perform(SendUpdate(id, fate.updateSent), before, done + [DraftUpdate(id, u)]);
      assert done + [DraftUpdate(id, u)] + [SendUpdate(id, fate.updateSent)] == done + UpdateSteps(id, u, fate);
      return Some(u);
    }

    /** `Launch` of the ansible and terraform template controllers. */
    method Launch(id: Id, u: Id, kind: Kind, template: Id, project: Id, fate: Fate) returns (ok: bool)
      requires kind != Update && FreshIds(state, id, u)
      modifies this
      ensures ok <==> !LaunchFails(fate)
      ensures var steps := LaunchSteps(id, u, kind, template, project, fate);
              Runs(old(state), steps) && state == After(old(state), steps)
    {
      hide Runs, After, LaunchSteps;
      RunsNone(state);
      ghost var before := state;
      LaunchStepsAre(id, u, kind, template, project, fate);
      if fate.insertFails {
        return false;
      }
      ghost var done: seq<Event> := [];
      Perform(BeginLaunch(id, kind, template, project), before, done);
      done := [BeginLaunch(id, kind, template, project)];
      if fate.needsUpdate {
        var previous := UpdateProject(id, u, fate, before, done);
        done := done + UpdateSteps(id, u, fate);
        if previous == None {
          Perform(Abandon(id), before, done);
          return false;
        }
      }
      Perform(SendJob(id, fate.jobSent), before, done);
      return true;
    }
  }

  /** What a launch leaves behind. One that gives up leaves the job new, unpublished and out
      of every queue. One that succeeds puts the job, when its publish lands, last on the
      queue of its kind, naming the update job it has made, and that one was published before
      it if its own publish landed. */
  ghost predicate Outcome(end: State, id: Id, u: Id, kind: Kind, template: Id, project: Id, fate: Fate) {
    && id !in end.launches && id in end.store.jobs && end.store.jobs[id] == Doc(New, false)
    && (id in end.stampOf <==> !LaunchFails(fate) && fate.jobSent)
    && (fate.needsUpdate && !fate.updateInsertFails ==> u in end.store.jobs && end.store.jobs[u] == Doc(Pending, false))
    && (id in end.stampOf ==>
          && ReadyOf(end, QueueOf(kind)) != []
          && ReadyOf(end, QueueOf(kind))[|ReadyOf(end, QueueOf(kind))| - 1]
             == Task(id, kind, if fate.needsUpdate then Some(u) else None, template, project, end.stampOf[id])
          && (fate.needsUpdate && fate.updateSent ==> u in end.stampOf && end.stampOf[u] < end.stampOf[id]))
  }

  lemma LaunchOutcome(s: State, id: Id, u: Id, kind: Kind, template: Id, project: Id, fate: Fate)
    requires kind != Update && FreshIds(s, id, u) && !fate.insertFails
    requires Runs(s, LaunchSteps(id, u, kind, template, project, fate))
    ensures Outcome(After(s, LaunchSteps(id, u, kind, template, project, fate)), id, u, kind, template, project, fate)
  {
    hide Runs, After, Apply, Enabled, Outcome;
    var begin := BeginLaunch(id, kind, template, project);
    var draft := DraftUpdate(id, u);
    var last := if LaunchFails(fate) then Abandon(id) else SendJob(id, fate.jobSent);
    var steps := LaunchSteps(id, u, kind, template, project, fate);
    if !fate.needsUpdate || fate.updateInsertFails {
      assert steps == [begin, last];
      TwoSteps(s, begin, last);
      OutcomeOfTwo(s, id, u, kind, template, project, fate);
    } else if fate.credentialMissing {
      assert steps == [begin, draft, last];
      ThreeSteps(s, begin, draft, last);
      OutcomeOfThree(s, id, u, kind, template, project, fate);
    } else {
      assert steps == [begin, draft, SendUpdate(id, fate.updateSent), last];
      FourSteps(s, begin, draft, SendUpdate(id, fate.updateSent), last);
      OutcomeOfFour(s, id, u, kind, template, project, fate);
    }
  }

  lemma OutcomeOfTwo(s: State, id: Id, u: Id, kind: Kind, template: Id, project: Id, fate: Fate)
    requires kind != Update && FreshIds(s, id, u) && !fate.insertFails && (fate.needsUpdate ==> fate.updateInsertFails)
    ensures Outcome(Apply(Apply(s, BeginLaunch(id, kind, template, project)),
                          if LaunchFails(fate) then Abandon(id) else SendJob(id, fate.jobSent)),
                    id, u, kind, template, project, fate)
  {
  }

  lemma OutcomeOfThree(s: State, id: Id, u: Id, kind: Kind, template: Id, project: Id, fate: Fate)
    requires kind != Update && FreshIds(s, id, u) && !fate.insertFails && fate.needsUpdate && fate.credentialMissing
    ensures Outcome(Apply(Apply(Apply(s, BeginLaunch(id, kind, template, project)), DraftUpdate(id, u)), Abandon(id)),
                    id, u, kind, template, project, fate)
  {
  }

  lemma OutcomeOfFour(s: State, id: Id, u: Id, kind: Kind, template: Id, project: Id, fate: Fate)
    requires kind != Update && FreshIds(s, id, u) && !LaunchFails(fate) && fate.needsUpdate
    ensures Outcome(Apply(Apply(Apply(Apply(s, BeginLaunch(id, kind, template, project)), DraftUpdate(id, u)),
                                SendUpdate(id, fate.updateSent)), SendJob(id, fate.jobSent)),
                    id, u, kind, template, project, fate)
  {
  }

  lemma TwoSteps(s: State, a: Event, b: Event)
    requires Runs(s, [a, b])
    ensures Enabled(s, a) && Enabled(Apply(s, a), b) && After(s, [a, b]) == Apply(Apply(s, a), b)
  {
    hide Apply, Enabled;
    assert [a] + [b] == [a, b] && [] + [a] == [a];
    Unfold(s, [a], b);
    Unfold(s, [], a);
  }

  lemma ThreeSteps(s: State, a: Event, b: Event, c: Event)
    requires Runs(s, [a, b, c])
    ensures Enabled(s, a) && Enabled(Apply(s, a), b) && Enabled(Apply(Apply(s, a), b), c)
    ensures After(s, [a, b, c]) == Apply(Apply(Apply(s, a), b), c)
  {
    hide Apply, Enabled;
    assert [a, b] + [c] == [a, b, c];
    Unfold(s, [a, b], c);
    TwoSteps(s, a, b);
  }

  lemma FourSteps(s: State, a: Event, b: Event, c: Event, d: Event)
    requires Runs(s, [a, b, c, d])
    ensures Enabled(s, a) && Enabled(Apply(s, a), b) && Enabled(Apply(Apply(s, a), b), c)
    ensures Enabled(Apply(Apply(Apply(s, a), b), c), d)
    ensures After(s, [a, b, c, d]) == Apply(Apply(Apply(Apply(s, a), b), c), d)
  {
    hide Apply, Enabled;
    assert [a, b, c] + [d] == [a, b, c, d];
    Unfold(s, [a, b, c], d);
    ThreeSteps(s, a, b, c);
  }

  lemma Unfold(s: State, front: seq<Event>, last: Event)
    requires Runs(s, front + [last])
    ensures Runs(s, front) && Enabled(After(s, front), last) && After(s, front + [last]) == Apply(After(s, front), last)
    ensures front == [] ==> After(s, front) == s
  {
    assert (front + [last])[..|front|] == front;
  }
}
