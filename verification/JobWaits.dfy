/** Where a job's update job is while the job waits for it: exactly when the wait can only end
    with a run, and how the number of consumers and their prefetching decide that. */
module JobWaits {
  import opened Common
  import opened JobModel
  import opened JobProtocol
  import opened JobSafety
  import opened JobOrder

  /** Another ansible consumer has `u` in hand. */
  predicate Held(s: State, c: Id, u: Id) {
    exists d :: d in s.consumers && d != c && s.consumers[d].queue == AnsibleQ
                && !s.consumers[d].phase.Idle? && s.consumers[d].phase.task.id == u
  }

  /** Another ansible consumer has fetched `u` and not taken it. */
  predicate Prefetched(s: State, c: Id, u: Id) {
    exists d, i :: d in s.consumers && d != c && s.consumers[d].queue == AnsibleQ
                   && 0 <= i < |s.consumers[d].inbox| && s.consumers[d].inbox[i].id == u
  }

  /** The update job that a waiting job polls is stored. For an ansible job it is never queued
      behind the waiting job: it is over or in the hands of another consumer, unless, and
      only unless, it sits in the inbox of one. The update job of a terraform job travels in
      the other queue. */
  lemma WaitingBehindUpdate(s: State, evs: seq<Event>, c: Id)
    requires Init(s) && Runs(s, evs) && ReliableRun(s, evs)
    requires c in After(s, evs).consumers && After(s, evs).consumers[c].phase.Polling?
    ensures After(s, evs).consumers[c].phase.task.prev.Some?
    ensures var s' := After(s, evs);
            var u := s'.consumers[c].phase.task.prev.value;
            && u in s'.store.jobs
            && (s'.consumers[c].queue == AnsibleQ ==>
                  (Terminal(s'.store.jobs[u].status) || Held(s', c, u) <==> !Prefetched(s', c, u)))
  {
    hide Runs, After, ReliableRun, Ordered;
    OrderAlways(s, evs);
    var s' := After(s, evs);
    var t := s'.consumers[c].phase.task;
    var u := t.prev.value;
    assert TaskAt(s', AtHand(c)) == Some(t);
    assert InDemand(s', u);
    assert u in s'.stampOf;
    if !Terminal(s'.store.jobs[u].status) && s'.consumers[c].queue == AnsibleQ {
      var p :| Unfinished(s', p) && TaskAt(s', p).value.id == u;
      UpdatePlace(s', c, p);
    }
    if Prefetched(s', c, u) {
      InboxIsUntouched(s', c, u);
    }
  }

  /** A job in an inbox is in nobody's hands, and its document is not terminal. */
  lemma InboxIsUntouched(s: State, c: Id, u: Id)
    requires Inv(s) && Prefetched(s, c, u) && u in s.store.jobs
    ensures !Terminal(s.store.jobs[u].status) && !Held(s, c, u)
  {
    var d, i :| d in s.consumers && d != c && s.consumers[d].queue == AnsibleQ
                && 0 <= i < |s.consumers[d].inbox| && s.consumers[d].inbox[i].id == u;
    assert IdAt(s, AtInbox(d, i)) == Some(u);
    assert Ceiling(s, AtInbox(d, i)) == 1;
    forall e | e in s.consumers && !s.consumers[e].phase.Idle?
      ensures s.consumers[e].phase.task.id != u
    {
      assert IdAt(s, AtHand(e)) == Some(s.consumers[e].phase.task.id);
    }
  }

  lemma UpdatePlace(s: State, c: Id, p: Place)
    requires Inv(s) && Order(s)
    requires c in s.consumers && s.consumers[c].phase.Polling? && s.consumers[c].phase.task.prev.Some?
    requires s.consumers[c].queue == AnsibleQ
    requires TaskAt(s, p).Some? && TaskAt(s, p).value.id == s.consumers[c].phase.task.prev.value
    ensures (p.AtHand? || p.AtInbox?) && p.consumer != c && s.consumers[p.consumer].queue == AnsibleQ
  {
    var t := s.consumers[c].phase.task;
    assert TaskAt(s, AtHand(c)) == Some(t);
    assert t.id in s.waitsFor && s.waitsFor[t.id] == TaskAt(s, p).value.id;
    assert QueueAt(s, p) == AnsibleQ;
    assert TaskAt(s, p).value.stamp < t.stamp;
    assert p.AtQueue? || (p.AtInbox? && p.consumer == c) ==> Ahead(s, AtHand(c), p);
  }

  // ---- One consumer ----

  /** With a single ansible consumer a waiting job's update job is already terminal, so the
      wait ends at the first poll that can read the store. */
  lemma FirstReadDecides(s: State, evs: seq<Event>, c: Id)
    requires Init(s) && Runs(s, evs) && ReliableRun(s, evs)
    requires c in After(s, evs).consumers && After(s, evs).consumers[c].phase.Polling?
    requires After(s, evs).consumers[c].queue == AnsibleQ
    requires forall d :: d in After(s, evs).consumers && After(s, evs).consumers[d].queue == AnsibleQ ==> d == c
    ensures var s' := After(s, evs);
            var ph := s'.consumers[c].phase;
            var read := Poll(s', ph, true);
            read.Some? && Terminal(read.value)
            && (forall success :: NextPhase(ph, read, success)
                                  == if read.value == Successful then Cleared(ph.task) else Blocked(ph.task))
  {
    WaitingBehindUpdate(s, evs, c);
  }

  // ---- No prefetching ----

  /** A consumer takes what it fetched before anything else happens. */
  predicate Prompt(evs: seq<Event>) {
    forall i :: 0 <= i < |evs| - 1 && evs[i].Fetch? ==> evs[i + 1] == Take(evs[i].consumer)
  }

  /** How much of an inbox is waiting to be taken. */
  function Fetched(evs: seq<Event>, d: Id): nat {
    if evs != [] && evs[|evs|-1] == Fetch(d) then 1 else 0
  }

  lemma {:induction false} PromptInboxes(s: State, evs: seq<Event>, d: Id)
    requires Init(s) && Runs(s, evs) && Prompt(evs)
    requires d in After(s, evs).consumers
    ensures |After(s, evs).consumers[d].inbox| <= Fetched(evs, d)
    decreases |evs|
  {
    hide Apply;
    if evs != [] && After(s, evs).consumers[d].inbox != [] {
      var front, last := evs[..|evs|-1], evs[|evs|-1];
      assert forall i :: 0 <= i < |front| ==> front[i] == evs[i];
      InboxAfter(After(s, front), last, d);
      PromptInboxes(s, front, d);
      if front != [] && front[|front|-1] == Fetch(d) {
        assert last == Take(d);
      }
    }
  }

  /** So without prefetching, however many consumers there are, the update job of a waiting
      ansible job is over or in the hands of another consumer, except between a fetch and the
      take that follows it. */
  lemma PromptNeverBehind(s: State, evs: seq<Event>, c: Id)
    requires Init(s) && Runs(s, evs) && ReliableRun(s, evs) && Prompt(evs)
    requires evs != [] ==> !evs[|evs|-1].Fetch?
    requires c in After(s, evs).consumers && After(s, evs).consumers[c].phase.Polling?
    requires After(s, evs).consumers[c].queue == AnsibleQ
    ensures var s' := After(s, evs);
            && s'.consumers[c].phase.task.prev.Some?
            && var u := s'.consumers[c].phase.task.prev.value;
            && u in s'.store.jobs && (Terminal(s'.store.jobs[u].status) || Held(s', c, u))
  {
    hide Runs, After, ReliableRun, Held;
    WaitingBehindUpdate(s, evs, c);
    forall d | d in After(s, evs).consumers
      ensures After(s, evs).consumers[d].inbox == []
    {
      PromptInboxes(s, evs, d);
    }
  }

  // ---- Two consumers, one delivery prefetched ----

  /** A consumer fetches a delivery only when it has no other waiting. */
  ghost predicate OneAhead(s: State, evs: seq<Event>)
    requires Runs(s, evs)
    decreases |evs|
  {
    evs == []
    || (OneAhead(s, evs[..|evs|-1])
        && (evs[|evs|-1].Fetch? ==> After(s, evs[..|evs|-1]).consumers[evs[|evs|-1].consumer].inbox == []))
  }

  ghost predicate Leads(s: State, evs: seq<Event>, t: State) {
    Runs(s, evs) && ReliableRun(s, evs) && OneAhead(s, evs) && After(s, evs) == t
  }

  lemma Go(s: State, evs: seq<Event>, t: State, ev: Event) returns (evs': seq<Event>, t': State)
    requires Leads(s, evs, t) && Enabled(t, ev) && Reliable(t, ev)
    requires ev.Fetch? ==> t.consumers[ev.consumer].inbox == []
    ensures evs' == evs + [ev] && t' == Apply(t, ev) && Leads(s, evs', t')
  {
    assert (evs + [ev])[..|evs|] == evs;
    evs', t' := evs + [ev], Apply(t, ev);
  }

  lemma LeadsNowhere(s: State)
    ensures Leads(s, [], s)
  {
  }

  lemma LeadsMeans(s: State, evs: seq<Event>, t: State)
    requires Leads(s, evs, t)
    ensures Runs(s, evs) && ReliableRun(s, evs) && OneAhead(s, evs) && After(s, evs) == t
  {
  }

  /** A job polls an update job that sits behind another job in a busy consumer's inbox. */
  predicate WaitsBehindRun(s: State) {
    exists c, d :: c in s.consumers && d in s.consumers && d != c
                   && s.consumers[c].queue == AnsibleQ && s.consumers[d].queue == AnsibleQ
                   && s.consumers[c].phase.Polling? && s.consumers[d].phase.Active?
                   && |s.consumers[d].inbox| == 1
                   && s.consumers[c].phase.task.prev == Some(s.consumers[d].inbox[0].id)
  }

  const NOTHING := State(Store(map[], map[], map[]), map[], [], [], map[], {}, map[], map[], 0, [], [])

  const LONG := Task(1, Play, None, 0, 0, 0)
  const UPDATE := Task(3, Update, None, 0, 0, 1)
  const WAITING := Task(2, Play, Some(3), 0, 0, 2)

  const LAUNCHED := NOTHING.(
    store := Store(map[1 := Doc(New, false), 2 := Doc(New, false), 3 := Doc(Pending, false)], map[], map[]),
    ansible := [LONG, UPDATE, WAITING], known := {1, 2, 3}, waitsFor := map[2 := 3],
    stampOf := map[1 := 0, 3 := 1, 2 := 2], clock := 3)

  /** Job 1 is launched, then job 2 with update job 3. */
  lemma LeadsToLaunched() returns (evs: seq<Event>)
    ensures Leads(NOTHING, evs, LAUNCHED)
  {
    hide Leads;
    var t := NOTHING;
    evs := [];
    LeadsNowhere(t);
    evs, t := Go(NOTHING, evs, t, BeginLaunch(1, Play, 0, 0));
    evs, t := Go(NOTHING, evs, t, SendJob(1, true));
    evs, t := Go(NOTHING, evs, t, BeginLaunch(2, Play, 0, 0));
    evs, t := Go(NOTHING, evs, t, DraftUpdate(2, 3));
    evs, t := Go(NOTHING, evs, t, SendUpdate(2, true));
    evs, t := Go(NOTHING, evs, t, SendJob(2, true));
    assert t.launches == map[];
    assert t.ansible == LAUNCHED.ansible;
    assert t.store.jobs == LAUNCHED.store.jobs;
    assert t == LAUNCHED;
  }

  const RUNNING := LAUNCHED.(
    store := Store(map[1 := Doc(Running, false), 2 := Doc(New, false), 3 := Doc(Pending, false)], map[], map[]),
    ansible := [WAITING], executed := [LONG],
    consumers := map[1 := Consumer(AnsibleQ, true, [UPDATE], Active(LONG)), 2 := Consumer(AnsibleQ, true, [], Idle)])

  /** Consumer 1 takes job 1 and fetches the next delivery. */
  const TAKEN := LAUNCHED.(
    ansible := [WAITING],
    consumers := map[1 := Consumer(AnsibleQ, true, [UPDATE], Acked(LONG)), 2 := Consumer(AnsibleQ, true, [], Idle)])

  lemma LeadsToTaken() returns (evs: seq<Event>)
    ensures Leads(NOTHING, evs, TAKEN)
  {
    hide Leads;
    evs := LeadsToLaunched();
    var t := LAUNCHED;
    evs, t := Go(NOTHING, evs, t, Join(1, AnsibleQ));
    evs, t := Go(NOTHING, evs, t, Join(2, AnsibleQ));
    evs, t := Go(NOTHING, evs, t, Fetch(1));
    evs, t := Go(NOTHING, evs, t, Take(1));
    assert t.consumers[1].inbox == [];
    evs, t := Go(NOTHING, evs, t, Fetch(1));
    assert t.consumers[1].inbox == [UPDATE] && t.ansible == TAKEN.ansible;
    assert t.consumers == TAKEN.consumers;
    assert t == TAKEN;
  }

  /** It runs job 1. */
  lemma LeadsToRunning() returns (evs: seq<Event>)
    ensures Leads(NOTHING, evs, RUNNING)
  {
    hide Leads;
    evs := LeadsToTaken();
    var t := TAKEN;
    evs, t := Go(NOTHING, evs, t, Advance(1, true, true, true));
    assert t.consumers[1] == Consumer(AnsibleQ, true, [UPDATE], Marked(LONG));
    evs, t := Go(NOTHING, evs, t, Advance(1, true, true, true));
    assert t.consumers == RUNNING.consumers;
    assert t.store.jobs == RUNNING.store.jobs;
    assert t == RUNNING;
  }

  /** With two consumers it does happen, even if each fetches one delivery ahead at most, as
      the runners do: without a crash or a loss, job 2 waits for an update job that is stuck
      behind the run of job 1, of which it knows nothing. */
  lemma PrefetchedBehindRun()
    ensures exists s: State, evs: seq<Event> ::
              && Init(s) && Runs(s, evs) && ReliableRun(s, evs) && OneAhead(s, evs)
              && WaitsBehindRun(After(s, evs))
  {
    hide Leads;
    var evs := LeadsToRunning();
    var t := RUNNING;
    evs, t := Go(NOTHING, evs, t, Fetch(2));
    evs, t := Go(NOTHING, evs, t, Take(2));
    evs, t := Go(NOTHING, evs, t, Advance(2, true, true, true));
    evs, t := Go(NOTHING, evs, t, Advance(2, true, true, true));
    assert t.consumers[2] == Consumer(AnsibleQ, true, [], Polling(WAITING));
    assert t.consumers[1] == RUNNING.consumers[1];
    assert WaitsBehindRun(t);
    LeadsMeans(NOTHING, evs, t);
  }
}
