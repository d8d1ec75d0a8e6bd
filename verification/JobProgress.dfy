/** Progress: in every endless reliable run that is fair to its consumers, every
    published job reaches "successful", "failed" or "error" (or is deleted).

    The measure is the work left on the deliveries published up to the job in
    question, over both queues together. The oldest unfinished delivery can always
    move: update jobs never wait, and what a waiting job waits for is older. */
module JobProgress {
  import opened Common
  import opened JobModel
  import opened JobProtocol
  import opened JobSafety
  import opened JobOrder

  // ---- The measure ----

  /** How many steps a delivery in place `p` still needs, at most, not counting polls in vain. */
  function PlaceWork(s: State, p: Place): nat
    requires TaskAt(s, p).Some?
  {
    match p
    case AtQueue(_, _) => 9
    case AtInbox(_, _) => 8
    case AtHand(c) => PhaseWork(s.consumers[c].phase)
  }

  predicate HasStamp(s: State, p: Place, k: nat) {
    TaskAt(s, p).Some? && TaskAt(s, p).value.stamp == k
  }

  ghost function StampWork(s: State, k: nat): nat {
    if exists p :: HasStamp(s, p, k) then
      var p :| HasStamp(s, p, k);
      PlaceWork(s, p)
    else 0
  }

  /** The work left on the first `n` publications. */
  ghost function Work(s: State, n: nat): nat {
    if n == 0 then 0 else Work(s, n - 1) + StampWork(s, n - 1)
  }

  lemma OnePlace(s: State, p: Place, r: Place, k: nat)
    requires Inv(s) && Stamped(s) && HasStamp(s, p, k) && HasStamp(s, r, k)
    ensures p == r
  {
    assert IdAt(s, p) == IdAt(s, r);
  }

  lemma StampWorkAt(s: State, p: Place, k: nat)
    requires Inv(s) && Stamped(s) && HasStamp(s, p, k)
    ensures StampWork(s, k) == PlaceWork(s, p) > 0
  {
    var r :| HasStamp(s, r, k) && StampWork(s, k) == PlaceWork(s, r);
    OnePlace(s, p, r, k);
  }

  lemma PlaceWorkMoves(s: State, ev: Event, p: Place)
    requires Inv(s) && Order(s) && Enabled(s, ev) && Reliable(s, ev)
    requires TaskAt(Apply(s, ev), p).Some? && TaskAt(s, Origin(s, ev, p)).Some?
    requires !(Published(s, ev).Some? && p == Published(s, ev).value.0)
    ensures PlaceWork(Apply(s, ev), p) <= PlaceWork(s, Origin(s, ev, p))
    ensures Origin(s, ev, p) != p && !(p.AtQueue? && Origin(s, ev, p).AtQueue?) && !(p.AtInbox? && Origin(s, ev, p).AtInbox?)
            ==> PlaceWork(Apply(s, ev), p) < PlaceWork(s, Origin(s, ev, p))
  {
    hide Apply, Inv, NextPhase, Poll;
    ConsumersAfter(s, ev);
    match p
    case AtQueue(q, i) =>
    case AtInbox(c, i) =>
    case AtHand(c) =>
      if Origin(s, ev, p) == p && ev.Advance? && ev.consumer == c {
        PhaseWorkFalls(s.consumers[c].phase, Poll(s, s.consumers[c].phase, ev.readable), ev.success);
      }
  }

  lemma PhaseWorkFalls(ph: Phase, read: Option<Status>, success: bool)
    ensures NextPhase(ph, read, success) == ph || PhaseWork(NextPhase(ph, read, success)) < PhaseWork(ph)
  {
  }

  /** No reliable step adds work to a delivery already published. */
  lemma StampWorkFalls(s: State, ev: Event, k: nat)
    requires Inv(s) && Order(s) && Enabled(s, ev) && Reliable(s, ev)
    requires k < s.clock
    ensures StampWork(Apply(s, ev), k) <= StampWork(s, k)
  {
    hide Apply, Inv, Enabled, Reliable;
    var s' := Apply(s, ev);
    OrderStep(s, ev);
    InvStep(s, ev);
    if p :| HasStamp(s', p, k) {
      MovesTask(s, ev, p);
      StampsAfter(s, ev);
      StampWorkAt(s', p, k);
      StampWorkAt(s, Origin(s, ev, p), k);
      PlaceWorkMoves(s, ev, p);
    }
  }

  lemma {:induction false} WorkMonotone(s: State, s': State, n: nat)
    requires forall k :: 0 <= k < n ==> StampWork(s', k) <= StampWork(s, k)
    ensures Work(s', n) <= Work(s, n)
  {
    if n > 0 {
      WorkMonotone(s, s', n - 1);
    }
  }

  lemma {:induction false} WorkStrict(s: State, s': State, n: nat, k: nat)
    requires forall j :: 0 <= j < n ==> StampWork(s', j) <= StampWork(s, j)
    requires k < n && StampWork(s', k) < StampWork(s, k)
    ensures Work(s', n) < Work(s, n)
  {
    if k == n - 1 {
      WorkMonotone(s, s', n - 1);
    } else {
      WorkStrict(s, s', n - 1, k);
    }
  }

  // ---- The oldest unfinished delivery can move ----

  /** Consumer `c` has a step that gets it on: it can take a delivery, or make its next
      store access (for a poll: one that can now end the wait). */
  predicate CanStep(s: State, c: Id) {
    && c in s.consumers && s.consumers[c].alive
    && var ph := s.consumers[c].phase;
    if ph.Idle? then s.consumers[c].inbox != []
    else ph.Polling? ==> NextPhase(ph, Poll(s, ph, true), true) != ph
  }

  /** Event `ev` is such a step of `c`. */
  predicate Steps(s: State, ev: Event, c: Id)
    requires Enabled(s, ev)
  {
    || ev == Take(c)
    || (ev.Advance? && ev.consumer == c && Apply(s, ev).consumers[c].phase != s.consumers[c].phase)
  }

  /** Queue `q` has a delivery and a consumer with nothing else to do. */
  ghost predicate CanFetch(s: State, q: QueueName) {
    && ReadyOf(s, q) != []
    && exists c :: c in s.consumers && s.consumers[c].queue == q && s.consumers[c].alive
                   && s.consumers[c].phase.Idle? && s.consumers[c].inbox == []
  }

  predicate Fetches(s: State, ev: Event, q: QueueName) {
    ev.Fetch? && ev.consumer in s.consumers && s.consumers[ev.consumer].queue == q
  }

  ghost predicate Served(s: State) {
    ServedBy(s, AnsibleQ) && ServedBy(s, TerraformQ)
  }

  ghost predicate ServedBy(s: State, q: QueueName) {
    exists c :: c in s.consumers && s.consumers[c].queue == q
  }

  /** `k` is the oldest publication with work left, and `p` is where it is. */
  ghost predicate Oldest(s: State, p: Place, k: nat) {
    HasStamp(s, p, k) && forall j :: 0 <= j < k ==> StampWork(s, j) == 0
  }

  /** Who can move the oldest delivery. */
  ghost predicate Movable(s: State, p: Place) {
    match p
    case AtQueue(q, i) => i == 0 && CanFetch(s, q)
    case AtInbox(c, i) => i == 0 && c in s.consumers && s.consumers[c].phase.Idle? && CanStep(s, c)
    case AtHand(c) => CanStep(s, c)
    case _ => false
  }

  lemma OldestAhead(s: State, p: Place, k: nat, r: Place)
    requires Inv(s) && Order(s) && Oldest(s, p, k)
    requires Ahead(s, r, p)
    ensures TaskAt(s, r) == None
  {
    if TaskAt(s, r).Some? {
      StampWorkAt(s, r, TaskAt(s, r).value.stamp);
    }
  }

  lemma OldestMovable(s: State, p: Place, k: nat)
    requires Inv(s) && Order(s) && Served(s) && Oldest(s, p, k)
    ensures Movable(s, p)
  {
    match p
    case AtQueue(q, i) =>
      if i > 0 {
        OldestAhead(s, p, k, AtQueue(q, 0));
        assert false;
      }
      assert ServedBy(s, q);
      var c :| c in s.consumers && s.consumers[c].queue == q;
      OldestAhead(s, p, k, AtHand(c));
      OldestAhead(s, p, k, AtInbox(c, 0));
      assert s.consumers[c].phase.Idle? && s.consumers[c].inbox == [];
    case AtInbox(c, i) =>
      if i > 0 {
        OldestAhead(s, p, k, AtInbox(c, 0));
        assert false;
      }
      OldestAhead(s, p, k, AtHand(c));
    case AtHand(c) =>
      if s.consumers[c].phase.Polling? {
        OldestPollEnds(s, c, k);
      }
  }

  /** If the oldest delivery waits, what it waits for is already terminal. */
  lemma OldestPollEnds(s: State, c: Id, k: nat)
    requires Inv(s) && Order(s) && Oldest(s, AtHand(c), k) && s.consumers[c].phase.Polling?
    ensures CanStep(s, c)
  {
    var t := s.consumers[c].phase.task;
    assert TaskAt(s, AtHand(c)) == Some(t);
    var u := t.prev.value;
    assert InDemand(s, u);
    assert u in s.stampOf && s.stampOf[u] < k;
    if OnItsWay(s, u) {
      var r :| Unfinished(s, r) && TaskAt(s, r).value.id == u;
      StampWorkAt(s, r, s.stampOf[u]);
      assert false;
    }
    assert Terminal(s.store.jobs[u].status);
  }

  /** The oldest delivery is not in the middle of its queue or inbox. */
  lemma PlaceIsNone(s: State, p: Place)
    requires Movable(s, p)
    ensures p.AtQueue? || p.AtInbox? ==> p.index == 0
  {
  }

  /** A delivery that was the oldest, and may have moved, is where it was or has less work. */
  lemma OldestOrigin(s: State, ev: Event, p: Place, k: nat, r: Place)
    requires Inv(s) && Order(s) && Served(s) && Oldest(s, p, k)
    requires Enabled(s, ev) && Reliable(s, ev)
    requires HasStamp(Apply(s, ev), r, k)
    ensures p == Origin(s, ev, r)
    ensures r == p || PlaceWork(Apply(s, ev), r) < PlaceWork(s, p)
  {
    hide Apply, Inv, Movable;
    OldestMovable(s, p, k);
    PlaceIsNone(s, p);
    assert TaskAt(s, p).Some? && k < s.clock;
    MovesTask(s, ev, r);
    StampsAfter(s, ev);
    OnePlace(s, p, Origin(s, ev, r), k);
    PlaceWorkMoves(s, ev, r);
  }

  /** The oldest delivery stays where it is until it moves on. */
  lemma OldestStays(s: State, ev: Event, p: Place, k: nat)
    requires Inv(s) && Order(s) && Served(s) && Oldest(s, p, k)
    requires Enabled(s, ev) && Reliable(s, ev)
    requires StampWork(Apply(s, ev), k) == StampWork(s, k)
    ensures Oldest(Apply(s, ev), p, k)
  {
    hide Apply, Inv, Enabled, Reliable;
    var s' := Apply(s, ev);
    StampWorkAt(s, p, k);
    OrderStep(s, ev);
    InvStep(s, ev);
    assert TaskAt(s, p).Some? && k < s.clock;
    var r :| HasStamp(s', r, k);
    StampWorkAt(s', r, k);
    OldestOrigin(s, ev, p, k, r);
    forall j | 0 <= j < k
      ensures StampWork(s', j) == 0
    {
      StampWorkFalls(s, ev, j);
    }
  }

  /** After a step the oldest delivery is still in place, or there is less work. */
  lemma OldestStep(s: State, ev: Event, p: Place, k: nat, n: nat)
    requires Inv(s) && Order(s) && Served(s) && Oldest(s, p, k) && k < n <= s.clock
    requires Enabled(s, ev) && Reliable(s, ev)
    ensures Oldest(Apply(s, ev), p, k) || Work(Apply(s, ev), n) < Work(s, n)
  {
    if StampWork(Apply(s, ev), k) == StampWork(s, k) {
      OldestStays(s, ev, p, k);
    } else {
      WorkFalls(s, ev, n);
      WorkStrict(s, Apply(s, ev), n, k);
    }
  }

  /** A step of the one who can move the oldest delivery leaves it with less work. */
  lemma OldestMoves(s: State, ev: Event, p: Place, k: nat)
    requires Inv(s) && Order(s) && Served(s) && Oldest(s, p, k)
    requires Enabled(s, ev) && Reliable(s, ev)
    requires match p
             case AtQueue(q, _) => Fetches(s, ev, q)
             case AtInbox(c, _) => Steps(s, ev, c)
             case AtHand(c) => Steps(s, ev, c)
             case _ => false
    ensures StampWork(Apply(s, ev), k) < StampWork(s, k)
  {
    hide Apply, Inv, Ordered, UpdatesFirst, Kept;
    var s' := Apply(s, ev);
    OldestMovable(s, p, k);
    StampWorkAt(s, p, k);
    OrderStep(s, ev);
    InvStep(s, ev);
    ConsumersAfter(s, ev);
    if r :| HasStamp(s', r, k) {
      StampWorkAt(s', r, k);
      OldestOrigin(s, ev, p, k, r);
      if p.AtHand? {
        PhaseWorkFalls(s.consumers[p.consumer].phase, Poll(s, s.consumers[p.consumer].phase, ev.readable), ev.success);
      }
    }
  }

  // ---- Endless runs ----

  /** Step `i` of the endless run `b`: an event, or nothing. */
  ghost predicate Happens(b: nat -> State, e: nat -> Option<Event>, i: nat) {
    match e(i)
    case None => b(i + 1) == b(i)
    case Some(ev) => Enabled(b(i), ev) && Reliable(b(i), ev) && b(i + 1) == Apply(b(i), ev)
  }

  ghost predicate Behavior(b: nat -> State, e: nat -> Option<Event>) {
    Init(b(0)) && forall i: nat :: Happens(b, e, i)
  }

  /** At moment `j`, consumer `c` has nothing it could do, or does it. */
  ghost predicate StepsAt(b: nat -> State, e: nat -> Option<Event>, j: nat, c: Id) {
    !CanStep(b(j), c) || (e(j).Some? && Enabled(b(j), e(j).value) && Steps(b(j), e(j).value, c))
  }

  /** At moment `j`, nobody is free to fetch from `q`, or somebody fetches. */
  ghost predicate FetchesAt(b: nat -> State, e: nat -> Option<Event>, j: nat, q: QueueName) {
    !CanFetch(b(j), q) || (e(j).Some? && Fetches(b(j), e(j).value, q))
  }

  ghost predicate LaterSteps(b: nat -> State, e: nat -> Option<Event>, i: nat, c: Id) {
    exists j: nat :: i <= j && StepsAt(b, e, j, c)
  }

  ghost predicate LaterFetches(b: nat -> State, e: nat -> Option<Event>, i: nat, q: QueueName) {
    exists j: nat :: i <= j && FetchesAt(b, e, j, q)
  }

  /** Weak fairness: a consumer that can go on does not stay put for ever (so reads
      succeed eventually and runs finish), and a free consumer fetches eventually. */
  ghost predicate Fair(b: nat -> State, e: nat -> Option<Event>) {
    && (forall i: nat, c: Id :: LaterSteps(b, e, i, c))
    && (forall i: nat, q: QueueName :: LaterFetches(b, e, i, q))
  }

  lemma {:induction false} BehaviorInv(b: nat -> State, e: nat -> Option<Event>, i: nat)
    requires Behavior(b, e)
    ensures Inv(b(i)) && Order(b(i))
  {
    hide Inv, Order, Apply, Enabled, Reliable;
    if i == 0 {
      InvInit(b(0));
      OrderInit(b(0));
    } else {
      BehaviorInv(b, e, i - 1);
      assert Happens(b, e, i - 1);
      if e(i - 1).Some? {
        InvStep(b(i - 1), e(i - 1).value);
        OrderStep(b(i - 1), e(i - 1).value);
      }
    }
  }

  lemma StepGrows(s: State, ev: Event, id: Id)
    requires Inv(s) && Order(s) && Enabled(s, ev) && Reliable(s, ev)
    ensures s.clock <= Apply(s, ev).clock
    ensures Served(s) ==> Served(Apply(s, ev))
    ensures id in s.stampOf ==> id in Apply(s, ev).stampOf && Apply(s, ev).stampOf[id] == s.stampOf[id]
  {
    hide Apply, Inv;
    ConsumersAfter(s, ev);
    var s' := Apply(s, ev);
    StampsAfter(s, ev);
    if Published(s, ev).Some? {
      PublishedNew(s, ev);
    }
    assert forall c :: c in s.consumers ==> c in s'.consumers && s'.consumers[c].queue == s.consumers[c].queue;
  }

  lemma NextGrows(b: nat -> State, e: nat -> Option<Event>, i: nat, id: Id)
    requires Behavior(b, e)
    ensures b(i).clock <= b(i + 1).clock
    ensures Served(b(i)) ==> Served(b(i + 1))
    ensures id in b(i).stampOf ==> id in b(i + 1).stampOf && b(i + 1).stampOf[id] == b(i).stampOf[id]
  {
    hide Inv, Order, Apply, Enabled, Reliable, Served;
    BehaviorInv(b, e, i);
    assert Happens(b, e, i);
    if e(i).Some? {
      StepGrows(b(i), e(i).value, id);
    }
  }

  lemma {:induction false} Grows(b: nat -> State, e: nat -> Option<Event>, i: nat, j: nat, id: Id)
    requires Behavior(b, e) && i <= j
    ensures b(i).clock <= b(j).clock
    ensures Served(b(i)) ==> Served(b(j))
    ensures id in b(i).stampOf ==> id in b(j).stampOf && b(j).stampOf[id] == b(i).stampOf[id]
    decreases j - i
  {
    hide Behavior, Served;
    if i < j {
      Grows(b, e, i, j - 1, id);
      NextGrows(b, e, j - 1, id);
    }
  }

  lemma WorkFalls(s: State, ev: Event, n: nat)
    requires Inv(s) && Order(s) && Enabled(s, ev) && Reliable(s, ev)
    requires n <= s.clock
    ensures forall k :: 0 <= k < n ==> StampWork(Apply(s, ev), k) <= StampWork(s, k)
    ensures Work(Apply(s, ev), n) <= Work(s, n)
  {
    forall k | 0 <= k < n
      ensures StampWork(Apply(s, ev), k) <= StampWork(s, k)
    {
      StampWorkFalls(s, ev, k);
    }
    WorkMonotone(s, Apply(s, ev), n);
  }

  lemma OldestNext(b: nat -> State, e: nat -> Option<Event>, i: nat, p: Place, k: nat, n: nat)
    requires Behavior(b, e) && Served(b(i)) && k < n <= b(i).clock
    ensures Work(b(i + 1), n) <= Work(b(i), n)
    ensures Oldest(b(i), p, k) ==> Oldest(b(i + 1), p, k) || Work(b(i + 1), n) < Work(b(i), n)
  {
    hide Inv, Order, Apply, Enabled, Reliable, Served, Oldest;
    BehaviorInv(b, e, i);
    assert Happens(b, e, i);
    if e(i).Some? {
      WorkFalls(b(i), e(i).value, n);
      if Oldest(b(i), p, k) {
        OldestStep(b(i), e(i).value, p, k, n);
      }
    }
  }

  /** Until the work falls, the oldest delivery stays where it is. */
  lemma {:induction false} OldestUntil(b: nat -> State, e: nat -> Option<Event>, i: nat, j: nat, p: Place, k: nat, n: nat)
    requires Behavior(b, e) && i <= j && Served(b(i))
    requires Oldest(b(i), p, k) && k < n <= b(i).clock
    ensures Work(b(j), n) <= Work(b(i), n)
    ensures Oldest(b(j), p, k) || Work(b(j), n) < Work(b(i), n)
    decreases j - i
  {
    hide Behavior, Oldest, Served, Work;
    if i < j {
      OldestUntil(b, e, i, j - 1, p, k, n);
      Grows(b, e, i, j - 1, 0);
      OldestNext(b, e, j - 1, p, k, n);
    }
  }

  /** Some publication below `n` with work left is the oldest. */
  lemma {:induction false} FindOldest(s: State, n: nat) returns (p: Place, k: nat)
    requires Inv(s) && Order(s) && Work(s, n) > 0
    ensures k < n && Oldest(s, p, k)
    decreases n
  {
    hide Inv, Order;
    if Work(s, n - 1) > 0 {
      p, k := FindOldest(s, n - 1);
    } else {
      k := n - 1;
      NoWork(s, n - 1);
      p :| HasStamp(s, p, k);
    }
  }

  lemma {:induction false} NoWork(s: State, n: nat)
    requires Work(s, n) == 0
    ensures forall j :: 0 <= j < n ==> StampWork(s, j) == 0
  {
    if n > 0 {
      NoWork(s, n - 1);
    }
  }

  /** While work is left on the first `n` publications, it falls at some later moment. */
  lemma WorkFallsLater(b: nat -> State, e: nat -> Option<Event>, i: nat, n: nat) returns (m: nat)
    requires Behavior(b, e) && Fair(b, e) && Served(b(i))
    requires n <= b(i).clock && Work(b(i), n) > 0
    ensures i <= m && Work(b(m), n) < Work(b(i), n)
  {
    hide Behavior, Inv, Order, Served, Fair, Oldest, Work;
    BehaviorInv(b, e, i);
    var p, k := FindOldest(b(i), n);
    m := OldestFallsLater(b, e, i, p, k, n);
  }

  lemma OldestFallsLater(b: nat -> State, e: nat -> Option<Event>, i: nat, p: Place, k: nat, n: nat) returns (m: nat)
    requires Behavior(b, e) && Fair(b, e) && Served(b(i))
    requires Oldest(b(i), p, k) && k < n <= b(i).clock
    ensures i <= m && Work(b(m), n) < Work(b(i), n)
  {
    hide Behavior, Served, Fair, Turn, Work;
    var j := ItsTurn(b, e, i, p, k);
    OldestUntil(b, e, i, j, p, k, n);
    Grows(b, e, i, j, 0);
    if Work(b(j), n) < Work(b(i), n) {
      m := j;
    } else {
      TurnTaken(b, e, j, p, k, n);
      m := j + 1;
    }
  }

  /** At moment `j` the one who can move a delivery in place `p` does so, or cannot. */
  ghost predicate Turn(b: nat -> State, e: nat -> Option<Event>, j: nat, p: Place) {
    match p
    case AtQueue(q, _) => FetchesAt(b, e, j, q)
    case AtInbox(c, _) => StepsAt(b, e, j, c)
    case AtHand(c) => StepsAt(b, e, j, c)
    case _ => false
  }

  lemma ItsTurn(b: nat -> State, e: nat -> Option<Event>, i: nat, p: Place, k: nat) returns (j: nat)
    requires Fair(b, e) && HasStamp(b(i), p, k)
    ensures i <= j && Turn(b, e, j, p)
  {
    if p.AtQueue? {
      assert LaterFetches(b, e, i, p.queue);
      j :| i <= j && FetchesAt(b, e, j, p.queue);
    } else {
      assert LaterSteps(b, e, i, p.consumer);
      j :| i <= j && StepsAt(b, e, j, p.consumer);
    }
  }

  lemma TurnTaken(b: nat -> State, e: nat -> Option<Event>, j: nat, p: Place, k: nat, n: nat)
    requires Behavior(b, e) && Served(b(j)) && Oldest(b(j), p, k) && k < n <= b(j).clock
    requires Turn(b, e, j, p)
    ensures Work(b(j + 1), n) < Work(b(j), n)
  {
    hide Inv, Order, Apply, Enabled, Reliable, Work, Served;
    BehaviorInv(b, e, j);
    assert Happens(b, e, j);
    OldestMovable(b(j), p, k);
    OldestMoves(b(j), e(j).value, p, k);
    WorkFalls(b(j), e(j).value, n);
    WorkStrict(b(j), b(j + 1), n, k);
  }

  /** There is work left on a published job that is not settled. */
  lemma HasWork(s: State, id: Id)
    requires Inv(s) && Order(s) && id in s.stampOf && !Settled(s, id)
    ensures s.stampOf[id] < s.clock && Work(s, s.stampOf[id] + 1) > 0
  {
    hide Inv, Ordered, UpdatesFirst, Settled;
    var p :| Unfinished(s, p) && TaskAt(s, p).value.id == id;
    StampWorkAt(s, p, s.stampOf[id]);
  }

  /** Every published job reaches a terminal status (or its document is deleted). */
  lemma {:induction false} Progress(b: nat -> State, e: nat -> Option<Event>, i: nat, id: Id)
    requires Behavior(b, e) && Fair(b, e) && Served(b(i))
    requires id in b(i).stampOf
    ensures exists j: nat :: i <= j && Settled(b(j), id)
    decreases Work(b(i), b(i).stampOf[id] + 1)
  {
    hide Behavior, Inv, Order, Served, Fair, Settled, Work;
    BehaviorInv(b, e, i);
    if !Settled(b(i), id) {
      var n := b(i).stampOf[id] + 1;
      HasWork(b(i), id);
      var m := WorkFallsLater(b, e, i, n);
      Grows(b, e, i, m, id);
      Progress(b, e, m, id);
    }
  }
}
