/** The consumers' handlers in the form the program has them: `Consume`, `ansibleRun`,
    `terraformRun`, `Sync` and their status writes. Other parties act between any two store accesses, so a handler sees of
    the store only what its polls read. */
module JobHandlers {
  import opened Common
  import opened JobModel
  import opened JobProtocol
  import opened JobSafety

  // ---- Consumers ----

  /** What a consumer does to the outside world. */
  datatype Call = Ack | Reject | Wrote(write: Write)

  /** The connections a consumer uses. `answers` are the results the polls of the update
      job will get, one for each tick. */
  class Session {
    var calls: seq<Call>
    var answers: seq<Option<Status>>

    constructor (answers: seq<Option<Status>>)
      ensures calls == [] && this.answers == answers
    {
      this.calls := [];
      this.answers := answers;
    }

    method UpdateId(w: Write)
      modifies this`calls
      ensures calls == old(calls) + [Wrote(w)]
    {
      calls := calls + [Wrote(w)];
    }

    method FindPrevious() returns (r: Option<Status>)
      requires answers != []
      modifies this`answers
      ensures r == old(answers)[0] && answers == old(answers)[1..]
    {
      r := answers[0];
      answers := answers[1..];
    }
  }

  /** The job a handler works on: the payload, and the fields it overwrites. */
  class Job {
    const task: Task
    var status: Status
    var failed: bool

    constructor (t: Task)
      ensures task == t && !failed
    {
      task := t;
      status := New;
      failed := false;
    }

    method Start(m: Session)
      modifies this, m`calls
      ensures status == Running && failed == old(failed)
      ensures m.calls == old(m.calls) + [Wrote(Begin(task.id))]
    {
      status := Running;
      m.UpdateId(Begin(task.id));
    }

    method SetStatus(m: Session, s: Status)
      modifies this, m`calls
      ensures status == s && failed == old(failed)
      ensures m.calls == old(m.calls) + [Wrote(JobModel.SetStatus(task.id, s))]
    {
      status := s;
      m.UpdateId(JobModel.SetStatus(task.id, status));
    }

    /** The three writes of `jobFail`, `jobError` and `jobSuccess`. */
    function Closings(s: Status, f: bool): seq<Call> {
      [Wrote(Finish(task.id, s, f)), Wrote(ToProject(task.project, s, f)),
       Wrote(ToTemplate(TemplateKey(QueueOf(task.kind), task.template), s, f))]
    }

    method JobFail(m: Session)
      modifies this, m`calls
      ensures status == Failed && failed
      ensures m.calls == old(m.calls) + Closings(Failed, true)
    {
      status := Failed;
      failed := true;
      m.UpdateId(Finish(task.id, status, failed));
      UpdateProject(m);
      UpdateJobTemplate(m);
    }

    method JobError(m: Session)
      modifies this, m`calls
      ensures status == Error && failed
      ensures m.calls == old(m.calls) + Closings(Error, true)
    {
      status := Error;
      failed := true;
      m.UpdateId(Finish(task.id, status, failed));
      UpdateProject(m);
      UpdateJobTemplate(m);
    }

    method JobSuccess(m: Session)
      modifies this, m`calls
      ensures status == Successful && !failed
      ensures m.calls == old(m.calls) + Closings(Successful, false)
    {
      status := Successful;
      failed := false;
      m.UpdateId(Finish(task.id, status, failed));
      UpdateProject(m);
      UpdateJobTemplate(m);
    }

    method UpdateProject(m: Session)
      modifies m`calls
      ensures m.calls == old(m.calls) + [Wrote(ToProject(task.project, status, failed))]
    {
      m.UpdateId(ToProject(task.project, status, failed));
    }

    method UpdateJobTemplate(m: Session)
      modifies m`calls
      ensures m.calls == old(m.calls) + [Wrote(ToTemplate(TemplateKey(QueueOf(task.kind), task.template), status, failed))]
    {
      m.UpdateId(ToTemplate(TemplateKey(QueueOf(task.kind), task.template), status, failed));
    }

    /** The wait loop of `ansibleRun` and `terraformRun`: one poll per tick until the update
        job reads failed, error or successful; None if the ticks ran out before that. */
    method AwaitUpdate(m: Session, ghost success: bool) returns (verdict: Option<Status>)
      modifies m`answers
      ensures verdict.Some? ==> verdict.value == Failed || verdict.value == Error || verdict.value == Successful
      ensures Handle(Polling(task), old(m.answers), success)
              == if verdict == None then Trace([], Polling(task))
                 else Handle(NextPhase(Polling(task), verdict, success), m.answers, success)
    {
      while m.answers != []
        invariant Handle(Polling(task), old(m.answers), success) == Handle(Polling(task), m.answers, success)
        decreases |m.answers|
      {
        var read := m.FindPrevious();
        if read == None {
          continue;
        }
        if read.value == Failed || read.value == Error {
          return read;
        }
        if read.value == Successful {
          return read;
        }
      }
      return None;
    }

    /** `ansibleRun` and `terraformRun`. `success` is how the run ends if it is started;
        `ended` is false if the ticks ran out while the handler was still waiting. */
    method Run(m: Session, success: bool) returns (ended: bool)
      requires task.kind != Update
      modifies this, m
      ensures m.calls == old(m.calls) + AsCalls(Handle(Marked(task), old(m.answers), success).writes)
      ensures ended <==> Handle(Marked(task), old(m.answers), success).phase.Idle?
      ensures ended ==> Terminal(status)
    {
      hide Handle;
      if task.prev.Some? {
        WaitTrace(task, m.answers, success);
        SetStatus(m, Waiting);
        var verdict := AwaitUpdate(m, success);
        if verdict == None {
          assert AsCalls([JobModel.SetStatus(task.id, Waiting)] + []) == [Wrote(JobModel.SetStatus(task.id, Waiting))];
          return false;
        }
        if verdict.value != Successful {
          ErrorTrace(task, m.answers, success);
          JobError(m);
          return true;
        }
        StartTrace(Cleared(task), m.answers, success);
      } else {
        StartTrace(Marked(task), m.answers, success);
      }
      Start(m);
      if success {
        JobSuccess(m);
      } else {
        JobFail(m);
      }
      ended := true;
    }
  }

  /** `Sync`, which works on its own copy of the job: only its writes are seen. */
  method Sync(m: Session, t: Task, success: bool)
    requires t.kind == Update
    modifies m`calls
    ensures m.calls == old(m.calls) + AsCalls(Handle(Marked(t), [], success).writes)
  {
    m.UpdateId(Begin(t.id));
    var status, failed := if success then Successful else Failed, !success;
    m.UpdateId(Finish(t.id, status, failed));
    m.UpdateId(ToProject(t.project, status, failed));
    SyncTrace(t, success);
  }

  /** `Consume` of both consumers. A payload that does not parse is rejected; the writes
      that follow it address the empty identifier, which no document has. */
  method Consume(m: Session, delivery: Option<Task>, success: bool) returns (ended: bool)
    modifies m
    ensures delivery == None ==> m.calls == old(m.calls) + [Reject]
    ensures delivery.Some? ==>
              m.calls == old(m.calls) + [Ack] + AsCalls(Handle(Acked(delivery.value), old(m.answers), success).writes)
              && (ended <==> Handle(Acked(delivery.value), old(m.answers), success).phase.Idle?)
  {
    if delivery == None {
      m.calls := m.calls + [Reject];
      return true;
    }
    var t := delivery.value;
    m.calls := m.calls + [Ack];
    var j := new Job(t);
    j.SetStatus(m, Pending);
    AckTrace(t, m.answers, success);
    if t.kind == Update {
      SyncTrace(t, success);
      UpdateTrace(t, m.answers, success);
      Sync(m, t, success);
      ended := true;
    } else {
      ended := j.Run(m, success);
    }
  }

  // ---- What a handler does, as a function ----

  datatype Trace = Trace(writes: seq<Write>, phase: Phase)

  function AsCalls(ws: seq<Write>): (cs: seq<Call>)
    ensures |cs| == |ws| && forall i :: 0 <= i < |ws| ==> cs[i] == Wrote(ws[i])
  {
    seq(|ws|, (i: int) requires 0 <= i < |ws| => Wrote(ws[i]))
  }

  /** The writes made from phase `ph` on, and where they lead, when the polls return `polls`. */
  function Handle(ph: Phase, polls: seq<Option<Status>>, success: bool): Trace
    decreases |polls|, PhaseWork(ph)
  {
    if ph.Idle? || (ph.Polling? && polls == []) then Trace([], ph)
    else if ph.Polling? then Handle(NextPhase(ph, polls[0], success), polls[1..], success)
    else
      var rest := Handle(NextPhase(ph, None, success), polls, success);
      Trace([WriteOf(ph, success).value] + rest.writes, rest.phase)
  }

  lemma PollUnfolds(t: Task, polls: seq<Option<Status>>, success: bool)
    requires polls != []
    ensures Handle(Polling(t), polls, success) == Handle(NextPhase(Polling(t), polls[0], success), polls[1..], success)
  {
  }

  lemma CloseTrace(t: Task, s: Status, f: bool, polls: seq<Option<Status>>, success: bool)
    ensures Handle(Closing(t, s, f), polls, success)
            == Trace([ToProject(t.project, s, f)]
                      + (if t.kind == Update then [] else [ToTemplate(TemplateKey(QueueOf(t.kind), t.template), s, f)]),
                      Idle)
  {
    assert Handle(Filing(t, s, f), polls, success)
           == Trace([ToTemplate(TemplateKey(QueueOf(t.kind), t.template), s, f)], Idle);
  }

  lemma ErrorTrace(t: Task, polls: seq<Option<Status>>, success: bool)
    requires t.kind != Update
    ensures Handle(Blocked(t), polls, success)
            == Trace([Finish(t.id, Error, true), ToProject(t.project, Error, true),
                       ToTemplate(TemplateKey(QueueOf(t.kind), t.template), Error, true)], Idle)
  {
    CloseTrace(t, Error, true, polls, success);
  }

  lemma StartTrace(ph: Phase, polls: seq<Option<Status>>, success: bool)
    requires StartsRun(ph)
    ensures var t := ph.task;
            var s, f := if success then Successful else Failed, !success;
            Handle(ph, polls, success)
            == Trace([Begin(t.id), Finish(t.id, s, f), ToProject(t.project, s, f)]
                      + (if t.kind == Update then [] else [ToTemplate(TemplateKey(QueueOf(t.kind), t.template), s, f)]),
                      Idle)
  {
    var s, f := if success then Successful else Failed, !success;
    CloseTrace(ph.task, s, f, polls, success);
    assert Handle(Active(ph.task), polls, success).writes
           == [Finish(ph.task.id, s, f)] + Handle(Closing(ph.task, s, f), polls, success).writes;
  }

  lemma WaitTrace(t: Task, polls: seq<Option<Status>>, success: bool)
    requires MustWait(t)
    ensures Handle(Marked(t), polls, success)
            == Trace([JobModel.SetStatus(t.id, Waiting)] + Handle(Polling(t), polls, success).writes,
                      Handle(Polling(t), polls, success).phase)
  {
  }

  lemma AckTrace(t: Task, polls: seq<Option<Status>>, success: bool)
    ensures Handle(Acked(t), polls, success)
            == Trace([JobModel.SetStatus(t.id, Pending)] + Handle(Marked(t), polls, success).writes,
                      Handle(Marked(t), polls, success).phase)
  {
  }

  lemma SyncTrace(t: Task, success: bool)
    requires t.kind == Update
    ensures var s, f := if success then Successful else Failed, !success;
            Handle(Marked(t), [], success)
            == Trace([Begin(t.id), Finish(t.id, s, f), ToProject(t.project, s, f)], Idle)
  {
    StartTrace(Marked(t), [], success);
  }

  lemma UpdateTrace(t: Task, polls: seq<Option<Status>>, success: bool)
    requires t.kind == Update
    ensures Handle(Marked(t), polls, success) == Handle(Marked(t), [], success)
  {
    StartTrace(Marked(t), polls, success);
    StartTrace(Marked(t), [], success);
  }

  // ---- Handlers and the consumers of the protocol ----

  /** In every state of the run consumer `c` is alive and holds a delivery, except perhaps
      in the last; whenever it ends a run, the run ends as `success` says. */
  ghost predicate Holds(s: State, evs: seq<Event>, c: Id, success: bool)
    decreases |evs|
  {
    if evs == [] then c in s.consumers && s.consumers[c].alive
    else
      && c in s.consumers && s.consumers[c].alive && !s.consumers[c].phase.Idle?
      && Enabled(s, evs[0]) && evs[0] != Crash(c)
      && (evs[0].Advance? && evs[0].consumer == c ==> evs[0].success == success)
      && Holds(Apply(s, evs[0]), evs[1..], c, success)
  }

  /** The store accesses of `c` along the run: the writes it issues and the polls it makes. */
  ghost function Accesses(s: State, evs: seq<Event>, c: Id, success: bool): (seq<Write>, seq<Option<Status>>)
    requires Holds(s, evs, c, success)
    decreases |evs|
  {
    if evs == [] then ([], [])
    else
      var rest := Accesses(Apply(s, evs[0]), evs[1..], c, success);
      if !(evs[0].Advance? && evs[0].consumer == c) then rest
      else
        var ph := s.consumers[c].phase;
        if ph.Polling? then (rest.0, [Poll(s, ph, evs[0].readable)] + rest.1)
        else ([WriteOf(ph, success).value] + rest.0, rest.1)
  }

  ghost function PhaseAtEnd(s: State, evs: seq<Event>, c: Id, success: bool): Phase
    requires Holds(s, evs, c, success)
    decreases |evs|
  {
    if evs == [] then s.consumers[c].phase else PhaseAtEnd(Apply(s, evs[0]), evs[1..], c, success)
  }

  /** Whatever everybody else does meanwhile, a consumer of the protocol makes exactly the
      accesses its handler makes: what the handler does from here is what the consumer does
      along the run, followed by what the handler does from where the consumer then is. */
  lemma {:induction false} HandlerIsConsumer(s: State, evs: seq<Event>, c: Id, success: bool,
                                             more: seq<Option<Status>>)
    requires Holds(s, evs, c, success)
    ensures var (ws, ps) := Accesses(s, evs, c, success);
            var end := Handle(PhaseAtEnd(s, evs, c, success), more, success);
            Handle(s.consumers[c].phase, ps + more, success) == Trace(ws + end.writes, end.phase)
    decreases |evs|
  {
    hide Apply, Enabled, Handle, Poll;
    if evs == [] {
      assert [] + more == more;
    } else {
      var s1 := Apply(s, evs[0]);
      HandlerIsConsumer(s1, evs[1..], c, success, more);
      var (ws, ps) := Accesses(s1, evs[1..], c, success);
      var ph := s.consumers[c].phase;
      StaysAlive(s, evs[0], c);
      if evs[0].Advance? && evs[0].consumer == c {
        if ph.Polling? {
          var read := Poll(s, ph, evs[0].readable);
          assert ([read] + ps) + more == [read] + (ps + more);
          PollUnfolds(ph.task, [read] + (ps + more), success);
        } else {
          var end := Handle(PhaseAtEnd(s, evs, c, success), more, success);
          assert [WriteOf(ph, success).value] + (ws + end.writes) == ([WriteOf(ph, success).value] + ws) + end.writes;
          WriteUnfolds(ph, None, Poll(s, ph, evs[0].readable), ps + more, success);
        }
      }
    }
  }

  lemma WriteUnfolds(ph: Phase, a: Option<Status>, b: Option<Status>, polls: seq<Option<Status>>, success: bool)
    requires !ph.Idle? && !ph.Polling?
    ensures NextPhase(ph, a, success) == NextPhase(ph, b, success)
    ensures Handle(ph, polls, success)
            == Trace([WriteOf(ph, success).value] + Handle(NextPhase(ph, b, success), polls, success).writes,
                     Handle(NextPhase(ph, b, success), polls, success).phase)
  {
  }

  lemma StaysAlive(s: State, ev: Event, c: Id)
    requires Enabled(s, ev) && ev != Crash(c)
    requires c in s.consumers && !s.consumers[c].phase.Idle?
    ensures c in Apply(s, ev).consumers
    ensures Apply(s, ev).consumers[c].phase
            == if ev.Advance? && ev.consumer == c
               then NextPhase(s.consumers[c].phase, Poll(s, s.consumers[c].phase, ev.readable), ev.success)
               else s.consumers[c].phase
  {
    hide Apply;
    ConsumersAfter(s, ev);
  }
}
