/** Progress: under a fair scheduler every live subscription with something to read reads
    it, and every message handed to `publish` reaches the log.

    The proof ranks a pending task by where it stands in its loop and by the work the lock
    has to get through before its turn.  Whatever step is taken, the rank does not grow;
    and some task that can run at once, and stays able to run until it does, would lower
    it. */
module BrokerLiveness {
  import opened Common
  import opened Broker
  import opened BrokerSafety
  import Justice

  /** The subscription is live and the log holds the entry it wants next. */
  predicate Waiting<M>(r: Room<M>, s: nat) {
    s in r.subs && r.subs[s].pc != Gone && r.subs[s].cursor < |r.log|
  }

  /** A task with something to accomplish: an entry to read, or a message to append. */
  predicate Pending<M>(r: Room<M>, t: Task) {
    match t
    case Subscriber(s) => Waiting(r, s)
    case Publisher(p) => p in r.pubs && (r.pubs[p].pc.Queueing? || r.pubs[p].pc.Writing?)
  }

  /** What a task has accomplished: items yielded, or messages appended. */
  function Count<M>(r: Room<M>, t: Task): nat {
    match t
    case Subscriber(s) => if s in r.subs then |r.subs[s].seen| else 0
    case Publisher(p) => if p in r.pubs then |Published(r.pubs[p])| else 0
  }

  // ----- schedules -----

  /** The task that takes an action; arrivals and departures belong to the environment. */
  function Owner<M>(a: Action<M>): Option<Task> {
    match a
    case Poll(s) => Some(Subscriber(s))
    case Deliver(s) => Some(Subscriber(s))
    case Register(s) => Some(Subscriber(s))
    case Park(s) => Some(Subscriber(s))
    case Wake(s) => Some(Subscriber(s))
    case Grant(t) => Some(t)
    case Push(p) => Some(Publisher(p))
    case Notify(p) => Some(Publisher(p))
    case Release(p) => Some(Publisher(p))
    case _ => None
  }

  /** The action by which a task gives up: the subscription is dropped, the call cancelled. */
  predicate Leaves<M>(a: Action<M>, t: Task) {
    match t
    case Subscriber(s) => a == Drop(s)
    case Publisher(p) => a == Abandon(p)
  }

  /** The one action a task would take next. */
  function NextOf<M>(r: Room<M>, t: Task): Action<M> {
    match t
    case Subscriber(s) =>
      if s !in r.subs then Idle
      else (match r.subs[s].pc
            case Ready => Poll(s)
            case Queued => Grant(t)
            case Reading => if r.subs[s].cursor < |r.log| then Deliver(s) else Register(s)
            case Registered => Park(s)
            case Parked => Wake(s)
            case Gone => Idle)
    case Publisher(p) =>
      if p !in r.pubs then Idle
      else (match r.pubs[p].pc
            case Resting => Idle
            case Queueing(_) => Grant(t)
            case Writing(_) => Push(p)
            case Pushed => Notify(p)
            case Notified => Release(p))
  }

  predicate CanAct<M>(r: Room<M>, t: Task) {
    Owner(NextOf(r, t)) == Some(t) && Enabled(r, NextOf(r, t))
  }

  /** A task can act exactly when some action of its own is enabled. */
  lemma CanActIff<M(!new)>(r: Room<M>, t: Task)
    ensures CanAct(r, t) <==> exists a :: Owner(a) == Some(t) && Enabled(r, a)
  {
    if a :| Owner(a) == Some(t) && Enabled(r, a) { assert a == NextOf(r, t); }
  }

  ghost predicate IsRun<M>(states: nat -> Room<M>, sched: nat -> Action<M>) {
    && states(0) == Empty()
    && forall i: nat :: Enabled(states(i), sched(i)) && states(i + 1) == Apply(states(i), sched(i))
  }

  /** From step `i` on, task `t` takes a step or is at some point unable to. */
  ghost predicate Served<M>(states: nat -> Room<M>, sched: nat -> Action<M>, t: Task, i: nat) {
    exists j: nat :: i <= j && (Owner(sched(j)) == Some(t) || !CanAct(states(j), t))
  }

  /** Weak fairness: no task stays able to run forever without running. */
  ghost predicate Fair<M>(states: nat -> Room<M>, sched: nat -> Action<M>) {
    forall t, i: nat :: Served(states, sched, t, i)
  }

  /** That is: no task from some point on could always take some step and never takes one. */
  lemma FairIsWeak<M(!new)>(states: nat -> Room<M>, sched: nat -> Action<M>)
    ensures Fair(states, sched) <==> !exists t, i: nat :: Starves(states, sched, t, i)
  {
    forall t, i: nat ensures Starves(states, sched, t, i) <==> !Served(states, sched, t, i) {
      forall j: nat | i <= j ensures CanAct(states(j), t) <==> CouldStep(states(j), t) {
        CanActIff(states(j), t);
      }
      if !Served(states, sched, t, i) {
        forall j: nat | i <= j ensures CouldStep(states(j), t) && Owner(sched(j)) != Some(t) {
        }
      }
    }
  }

  ghost predicate CouldStep<M(!new)>(r: Room<M>, t: Task) {
    exists a :: Owner(a) == Some(t) && Enabled(r, a)
  }

  ghost predicate Starves<M(!new)>(states: nat -> Room<M>, sched: nat -> Action<M>, t: Task, i: nat) {
    forall j: nat :: i <= j ==> CouldStep(states(j), t) && Owner(sched(j)) != Some(t)
  }

  /** Doing nothing is a fair run: nobody could do anything. */
  lemma IdleIsFair<M(!new)>()
    ensures IsRun<M>((k: nat) => Empty(), (k: nat) => Idle)
    ensures Fair<M>((k: nat) => Empty(), (k: nat) => Idle)
  {
    var states, sched := (k: nat) => Empty<M>(), (k: nat) => Action<M>.Idle;
    forall t: Task, i: nat ensures Served(states, sched, t, i) {
      assert !CanAct(states(i), t);
    }
  }

  // ----- the rank -----

  ghost function Registrants<M>(r: Room<M>): set<nat> {
    set s | s in r.readers && SubAt(r, s, Registered)
  }

  /** Steps the current lock holders need until the lock is free. */
  ghost function HolderWork<M>(r: Room<M>): int {
    ReaderWork(r) + WriterWork(r)
  }

  function WriterWork<M>(r: Room<M>): nat {
    if r.writer == None || r.writer.value !in r.pubs then 0
    else match r.pubs[r.writer.value].pc
         case Writing(_) => 3
         case Pushed => 2
         case Notified => 1
         case _ => 0
  }

  function Position(q: seq<Task>, t: Task): (i: nat)
    ensures t in q ==> i < |q| && q[i] == t
  {
    if q == [] || q[0] == t then 0 else 1 + Position(q[1..], t)
  }

  function Phase<M>(r: Room<M>, t: Task): nat
    requires Pending(r, t)
  {
    match t
    case Subscriber(s) =>
      var sub := r.subs[s];
      if sub.pc == Parked && sub.ticket == r.notifies then 3
      else if sub.pc == Parked || sub.pc == Ready then 2
      else if sub.pc == Queued then 1
      else 0
    case Publisher(p) => if r.pubs[p].pc.Queueing? then 1 else 0
  }

  ghost function QueueWork<M>(r: Room<M>, t: Task): int {
    HolderWork(r) + 4 * Position(r.queue, t)
  }

  ghost function Work<M>(r: Room<M>, t: Task): int
    requires Pending(r, t)
  {
    if Phase(r, t) == 1 then QueueWork(r, t) else 0
  }

  /** Tasks whose next step moves the lock's queue on. */
  predicate LockHelper<M>(r: Room<M>, u: Task) {
    if r.writer.Some? then u == Publisher(r.writer.value)
    else if r.readers != {} then u.Subscriber? && u.id in r.readers
    else r.queue != [] && u == r.queue[0]
  }

  /** Tasks whose next step lowers the rank of `t`. */
  predicate Helpful<M>(r: Room<M>, t: Task, u: Task)
    requires Pending(r, t)
  {
    match Phase(r, t)
    case 3 => r.writer.Some? && u == Publisher(r.writer.value)
    case 1 => LockHelper(r, u)
    case _ => u == t
  }

  ghost predicate RankFalls<M>(r: Room<M>, r': Room<M>, t: Task)
    requires Pending(r, t) && Pending(r', t)
  {
    || Phase(r', t) < Phase(r, t)
    || (Phase(r', t) == Phase(r, t) && 0 <= Work(r', t) < Work(r, t))
  }

  ghost predicate RankStays<M>(r: Room<M>, r': Room<M>, t: Task)
    requires Pending(r, t) && Pending(r', t)
  {
    Phase(r', t) == Phase(r, t) && Work(r', t) == Work(r, t)
  }

  /** The invariants the progress argument needs. */
  ghost predicate Sane<M>(r: Room<M>, t: Task) {
    && LockOk(r)
    && match t
       case Subscriber(s) => s in r.subs ==> WakeOk(r, s)
       case Publisher(p) => Pending(r, t) ==> r.pubs[p].sent != []
  }

  // ----- one step -----

  lemma HolderWorkIsNatural<M>(r: Room<M>)
    ensures 0 <= HolderWork(r)
  {
    SubsetSize(Registrants(r), r.readers);
  }

  lemma {:induction false} SubsetSize(a: set<nat>, b: set<nat>)
    requires a <= b
    ensures |a| <= |b|
    decreases |a|
  {
    if a != {} {
      var x :| x in a;
      SubsetSize(a - {x}, b - {x});
    }
  }

  lemma {:induction false} PositionOnAppend(q: seq<Task>, t: Task, u: Task)
    requires t in q
    ensures Position(q + [u], t) == Position(q, t)
  {
    if q[0] != t {
      PositionOnAppend(q[1..], t, u);
      assert (q + [u])[1..] == q[1..] + [u];
    }
  }

  lemma {:induction false} PositionOnRemove(q: seq<Task>, t: Task, u: Task)
    requires t in q && u != t
    ensures Position(Remove(q, u), t) <= Position(q, t)
    ensures NoDuplicates(q) && q[0] == t ==> Position(Remove(q, u), t) == 0
  {
    if q[0] != t {
      PositionOnRemove(q[1..], t, u);
      if q[0] != u { assert ([q[0]] + Remove(q[1..], u))[1..] == Remove(q[1..], u); }
    }
  }

  /** Somebody can always help, and whoever can help can run. */
  lemma HelperCanAct<M>(r: Room<M>, t: Task) returns (u: Task)
    requires Sane(r, t) && Pending(r, t)
    ensures Helpful(r, t, u)
    ensures forall v :: Helpful(r, t, v) ==> CanAct(r, v)
  {
    if Phase(r, t) == 1 {
      assert t in r.queue && r.queue[0] in r.queue;
      if r.writer.Some? { u := Publisher(r.writer.value); }
      else if r.readers != {} { var x :| x in r.readers; u := Subscriber(x); }
      else { u := r.queue[0]; }
    } else if Phase(r, t) == 3 {
      u := Publisher(r.writer.value);
    } else {
      u := t;
    }
  }

  ghost function ReaderWork<M>(r: Room<M>): int {
    Weight(r.readers, Registrants(r))
  }

  lemma ReaderWorkStep<M>(r: Room<M>, a: Action<M>)
    requires HoldersOk(r) && Enabled(r, a)
    ensures var d := ReaderWork(Apply(r, a)) - ReaderWork(r);
            match a
            case Grant(t) => d == if t.Subscriber? then 2 else 0
            case Deliver(_) => d == -2
            case Register(_) => d == -1
            case Park(_) => d == -1
            case Drop(x) => if x in r.readers then d < 0 else d == 0
            case _ => d == 0
  {
    RegistrantsStep(r, a);
    ReadersStep(r, a);
    if a.Register? { WeightOnRegister(r.readers, Registrants(r), a.s); }
    else if a.Deliver? || a.Park? || a.Drop? { WeightOnLeave(r.readers, Registrants(r), a.s); }
  }

  function Weight(readers: set<nat>, registrants: set<nat>): int {
    2 * |readers| - |registrants|
  }

  lemma WeightOnRegister(readers: set<nat>, registrants: set<nat>, s: nat)
    requires s !in registrants
    ensures Weight(readers, registrants + {s}) == Weight(readers, registrants) - 1
  {
  }

  lemma WeightOnLeave(readers: set<nat>, registrants: set<nat>, s: nat)
    requires registrants <= readers
    ensures Weight(readers - {s}, registrants - {s}) == Weight(readers, registrants)
      - (if s in registrants then 1 else if s in readers then 2 else 0)
    ensures Weight(readers - {s}, registrants) == Weight(readers, registrants)
      - (if s in readers then 2 else 0)
  {
    if s !in readers { assert readers - {s} == readers; }
    if s !in registrants { assert registrants - {s} == registrants; }
  }

  lemma ReadersStep<M>(r: Room<M>, a: Action<M>)
    requires HoldersOk(r) && Enabled(r, a)
    ensures Apply(r, a).readers
         == match a
            case Grant(t) => if t.Subscriber? then r.readers + {t.id} else r.readers
            case Deliver(s) => r.readers - {s}
            case Park(s) => r.readers - {s}
            case Drop(s) => r.readers - {s}
            case _ => r.readers
    ensures a.Grant? && a.t.Subscriber? ==> a.t.id !in r.readers
  {
  }

  lemma RegistrantsStep<M>(r: Room<M>, a: Action<M>)
    requires HoldersOk(r) && Enabled(r, a)
    ensures Registrants(Apply(r, a))
         == match a
            case Register(s) => Registrants(r) + {s}
            case Park(s) => Registrants(r) - {s}
            case Drop(s) => Registrants(r) - {s}
            case _ => Registrants(r)
  {
    ReadersStep(r, a);
  }

  lemma WriterWorkStep<M>(r: Room<M>, a: Action<M>)
    requires HoldersOk(r) && Enabled(r, a)
    ensures var d := WriterWork(Apply(r, a)) - WriterWork(r);
            match a
            case Grant(t) => d == if t.Publisher? then 3 else 0
            case Push(_) => d == -1
            case Notify(_) => d == -1
            case Release(_) => d == -1
            case _ => d == 0
  {
    match a
    case Push(p) => assert r.writer == Some(p);
    case Notify(p) => assert r.writer == Some(p);
    case Release(p) => assert r.writer == Some(p);
    case _ =>
  }

  /** What a step does for a task in the lock's queue: it leaves the queue, or comes nearer
      to the lock, or nothing changes for it and no helper has moved. */
  ghost predicate QueueServes<M>(r: Room<M>, a: Action<M>, t: Task)
    requires Enabled(r, a)
  {
    var r' := Apply(r, a);
    || (t !in r'.queue && (a == Grant(t) || Leaves(a, t)))
    || (t in r'.queue && 0 <= QueueWork(r', t) < QueueWork(r, t))
    || (&& t in r'.queue && QueueWork(r', t) == QueueWork(r, t)
        && forall u :: LockHelper(r, u) ==> Owner(a) != Some(u) && LockHelper(r', u))
  }

  lemma GrantServesQueue<M>(r: Room<M>, g: Task, t: Task)
    requires LockOk(r) && t in r.queue && Enabled(r, Grant(g))
    ensures QueueServes(r, Grant(g), t)
  {
    var r' := Apply(r, Grant(g));
    ReaderWorkStep(r, Grant(g));
    WriterWorkStep(r, Grant(g));
    HolderWorkIsNatural(r');
    assert r.queue == [g] + r.queue[1..];
    if t != g { assert Position(r.queue, t) == 1 + Position(r'.queue, t); }
  }

  lemma ArrivalServesQueue<M>(r: Room<M>, a: Action<M>, t: Task)
    requires LockOk(r) && t in r.queue && Enabled(r, a)
    requires a.Poll? || a.Wake? || a.Begin?
    ensures QueueServes(r, a, t)
  {
    var r' := Apply(r, a);
    ReaderWorkStep(r, a);
    WriterWorkStep(r, a);
    PositionOnAppend(r.queue, t, if a.Begin? then Publisher(a.p) else Subscriber(a.s));
    assert r'.queue[0] == r.queue[0];
  }

  lemma LeaverServesQueue<M>(r: Room<M>, a: Action<M>, u: Task, t: Task)
    requires LockOk(r) && t in r.queue && Enabled(r, a) && Leaves(a, u)
    ensures QueueServes(r, a, t)
  {
    if t != u {
      var r' := Apply(r, a);
      ReaderWorkStep(r, a);
      WriterWorkStep(r, a);
      HolderWorkIsNatural(r');
      PositionOnRemove(r.queue, t, u);
      if (u.Subscriber? ==> u.id !in r.readers) && Position(r'.queue, t) == Position(r.queue, t) {
        assert r'.readers == r.readers;
        HeadSurvives(r.queue, t, u);
      }
    }
  }

  /** Removing a task that leaves another's position alone leaves the head alone. */
  lemma {:induction false} HeadSurvives(q: seq<Task>, t: Task, u: Task)
    requires t in q && t != u && NoDuplicates(q)
    requires Position(Remove(q, u), t) == Position(q, t)
    ensures Remove(q, u) != [] && Remove(q, u)[0] == q[0]
  {
    if q[0] == u {
      PositionOnRemove(q[1..], t, u);
    }
  }

  /** Any step of a lock holder shortens the wait. */
  lemma HolderServesQueue<M>(r: Room<M>, a: Action<M>, t: Task)
    requires LockOk(r) && t in r.queue && Enabled(r, a)
    requires a.Deliver? || a.Register? || a.Park? || a.Push? || a.Notify? || a.Release?
    ensures QueueServes(r, a, t)
  {
    ReaderWorkStep(r, a);
    WriterWorkStep(r, a);
    HolderWorkIsNatural(Apply(r, a));
    assert Apply(r, a).queue == r.queue;
  }

  lemma QueueIsServed<M>(r: Room<M>, a: Action<M>, t: Task)
    requires LockOk(r) && t in r.queue && Enabled(r, a)
    ensures QueueServes(r, a, t)
  {
    match a
    case Grant(g) => GrantServesQueue(r, g, t);
    case Poll(_) => ArrivalServesQueue(r, a, t);
    case Wake(_) => ArrivalServesQueue(r, a, t);
    case Begin(_, _) => ArrivalServesQueue(r, a, t);
    case Drop(x) => LeaverServesQueue(r, a, Subscriber(x), t);
    case Abandon(x) => LeaverServesQueue(r, a, Publisher(x), t);
    case Idle =>
    case Subscribe(_, _) =>
      ReaderWorkStep(r, a);
      WriterWorkStep(r, a);
    case _ => HolderServesQueue(r, a, t);
  }

  /** What a step does for a pending task: it accomplishes something, or its rank falls, or
      its rank stays, no helpful task has moved, and all of them are helpful still. */
  ghost predicate Serves<M>(r: Room<M>, a: Action<M>, r': Room<M>, t: Task)
    requires Pending(r, t)
  {
    || Count(r', t) > Count(r, t)
    || (&& Pending(r', t) && Count(r', t) == Count(r, t)
        && (|| RankFalls(r, r', t)
            || (RankStays(r, r', t)
                && forall u :: Helpful(r, t, u) ==> Owner(a) != Some(u) && Helpful(r', t, u))))
  }

  lemma ServesParked<M>(r: Room<M>, a: Action<M>, t: Task)
    requires Sane(r, t) && Pending(r, t) && Enabled(r, a) && t.Subscriber? && a != Drop(t.id)
    requires r.subs[t.id].pc == Parked
    ensures Serves(r, a, Apply(r, a), t)
  {
  }

  lemma ServesReady<M>(r: Room<M>, a: Action<M>, t: Task)
    requires Pending(r, t) && Enabled(r, a) && t.Subscriber? && a != Drop(t.id)
    requires r.subs[t.id].pc == Ready
    ensures Serves(r, a, Apply(r, a), t)
  {
    var r' := Apply(r, a);
    if a == Poll(t.id) { assert Phase(r', t) == 1; }
    else { assert r'.subs[t.id] == r.subs[t.id]; }
  }

  lemma ServesReading<M>(r: Room<M>, a: Action<M>, t: Task)
    requires Pending(r, t) && Enabled(r, a) && t.Subscriber? && a != Drop(t.id)
    requires r.subs[t.id].pc == Reading
    ensures Serves(r, a, Apply(r, a), t)
  {
    var r' := Apply(r, a);
    if a != Deliver(t.id) { assert r'.subs[t.id] == r.subs[t.id]; }
  }

  /** A queued task that the step neither admits nor drops is where it was. */
  lemma QueuedTaskUnmoved<M>(r: Room<M>, a: Action<M>, t: Task)
    requires LockOk(r) && Pending(r, t) && Phase(r, t) == 1 && Enabled(r, a)
    requires a != Grant(t) && !Leaves(a, t)
    ensures Pending(Apply(r, a), t) && Phase(Apply(r, a), t) == 1
    ensures Count(Apply(r, a), t) == Count(r, t)
  {
    var r' := Apply(r, a);
    if t.Subscriber? { assert t.id in r'.subs && r'.subs[t.id] == r.subs[t.id]; }
    else { assert t.id in r'.pubs && r'.pubs[t.id] == r.pubs[t.id]; }
  }

  lemma ServesQueued<M>(r: Room<M>, a: Action<M>, t: Task)
    requires LockOk(r) && Pending(r, t) && Phase(r, t) == 1 && Enabled(r, a)
    requires !Leaves(a, t)
    ensures Serves(r, a, Apply(r, a), t)
  {
    if a == Grant(t) {
      GrantAdmits(r, t);
    } else {
      assert t in r.queue;
      QueueIsServed(r, a, t);
      QueuedTaskUnmoved(r, a, t);
    }
  }

  lemma GrantAdmits<M>(r: Room<M>, t: Task)
    requires Pending(r, t) && Phase(r, t) == 1 && Enabled(r, Grant(t))
    ensures Serves(r, Grant(t), Apply(r, Grant(t)), t)
  {
    var r' := Apply(r, Grant(t));
    assert Pending(r', t) && Phase(r', t) == 0 && Count(r', t) == Count(r, t);
    assert RankFalls(r, r', t);
  }

  lemma ServesWriting<M>(r: Room<M>, a: Action<M>, t: Task)
    requires Sane(r, t) && Pending(r, t) && t.Publisher? && Phase(r, t) == 0 && Enabled(r, a)
    ensures Serves(r, a, Apply(r, a), t)
  {
    var r' := Apply(r, a);
    if a != Push(t.id) { assert r'.pubs[t.id] == r.pubs[t.id]; }
  }

  lemma StepServes<M>(r: Room<M>, a: Action<M>, t: Task)
    requires Sane(r, t) && Pending(r, t) && Enabled(r, a)
    requires !Leaves(a, t)
    ensures Serves(r, a, Apply(r, a), t)
  {
    if Phase(r, t) == 1 { ServesQueued(r, a, t); }
    else if t.Publisher? { ServesWriting(r, a, t); }
    else if r.subs[t.id].pc == Parked { ServesParked(r, a, t); }
    else if r.subs[t.id].pc == Ready { ServesReady(r, a, t); }
    else { ServesReading(r, a, t); }
  }

  // ----- whole runs -----

  lemma {:induction false} RunInv<M>(states: nat -> Room<M>, sched: nat -> Action<M>, i: nat)
    requires IsRun(states, sched)
    ensures Inv(states(i))
  {
    if i > 0 {
      RunInv(states, sched, i - 1);
      Step(states(i - 1), sched(i - 1));
      assert states(i - 1 + 1) == Apply(states(i - 1), sched(i - 1));
    }
  }

  lemma InvIsSane<M>(r: Room<M>, t: Task)
    requires Inv(r)
    ensures Sane(r, t)
  {
    if t.Publisher? && t.id in r.pubs { assert PublisherOk(r.log, r.authors, t.id, r.pubs[t.id]); }
  }

  lemma RunHelper<M>(states: nat -> Room<M>, sched: nat -> Action<M>, t: Task, i: nat)
    returns (u: Task)
    requires IsRun(states, sched) && Pending(states(i), t)
    ensures Helpful(states(i), t, u)
    ensures forall v :: Helpful(states(i), t, v) ==> CanAct(states(i), v)
  {
    RunInv(states, sched, i);
    InvIsSane(states(i), t);
    u := HelperCanAct(states(i), t);
  }

  lemma RunServes<M>(states: nat -> Room<M>, sched: nat -> Action<M>, t: Task, i: nat)
    requires IsRun(states, sched) && Pending(states(i), t)
    requires !Leaves(sched(i), t)
    ensures Serves(states(i), sched(i), states(i + 1), t)
  {
    RunInv(states, sched, i);
    InvIsSane(states(i), t);
    assert Enabled(states(i), sched(i)) && states(i + 1) == Apply(states(i), sched(i));
    StepServes(states(i), sched(i), t);
  }

  /** The task does not give up from step `i` on. */
  ghost predicate Stays<M>(sched: nat -> Action<M>, t: Task, i: nat) {
    forall j: nat :: i <= j ==> !Leaves(sched(j), t)
  }

  /** Under a fair schedule a pending task accomplishes something: a subscription that stays
      and has something to read yields an item, a message being published is appended unless
      the call is cancelled. */
  lemma EventuallyServed<M>(
    states: nat -> Room<M>, sched: nat -> Action<M>, t: Task, i: nat)
    returns (j: nat)
    requires IsRun(states, sched) && Fair(states, sched)
    requires Pending(states(i), t) && Stays(sched, t, i)
    ensures i < j && Count(states(j), t) > Count(states(i), t)
  {
    var c := ClaimOf(states, sched, t);
    forall k: nat | i <= k ensures Justice.SomeoneHelps(c, k) && Justice.StepServes(c, k) {
      ClaimStep(states, sched, t, k);
    }
    forall u, k: nat | i <= k ensures Justice.Attended(c, u, k) {
      ClaimAttended(states, sched, t, u, k);
    }
    j := Justice.Concludes(c, i);
  }

  lemma ClaimStep<M>(states: nat -> Room<M>, sched: nat -> Action<M>, t: Task, k: nat)
    requires IsRun(states, sched) && !Leaves(sched(k), t)
    ensures Justice.SomeoneHelps(ClaimOf(states, sched, t), k)
    ensures Justice.StepServes(ClaimOf(states, sched, t), k)
  {
    if Pending(states(k), t) {
      var u := RunHelper(states, sched, t, k);
      HolderWorkIsNatural(states(k));
      assert ClaimOf(states, sched, t).helpful(k, u);
      RunServes(states, sched, t, k);
      ServesIsStepServes(states, sched, t, k);
    }
  }

  lemma ServesIsStepServes<M>(states: nat -> Room<M>, sched: nat -> Action<M>, t: Task, k: nat)
    requires Pending(states(k), t) && Serves(states(k), sched(k), states(k + 1), t)
    ensures Justice.StepServes(ClaimOf(states, sched, t), k)
  {
  }

  lemma ClaimAttended<M>(
    states: nat -> Room<M>, sched: nat -> Action<M>, t: Task, u: Task, k: nat)
    requires IsRun(states, sched) && Fair(states, sched)
    ensures Justice.Attended(ClaimOf(states, sched, t), u, k)
  {
    var c := ClaimOf(states, sched, t);
    assert Served(states, sched, u, k);
    var n: nat :| k <= n && (Owner(sched(n)) == Some(u) || !CanAct(states(n), u));
    if c.helpful(n, u) { var v := RunHelper(states, sched, t, n); }
    assert Justice.MovesOrRests(c, u, n);
  }

  ghost function ClaimOf<M>(states: nat -> Room<M>, sched: nat -> Action<M>, t: Task)
    : Justice.Claim<Task>
  {
    Justice.Claim(
      (k: nat) => Pending(states(k), t), (k: nat) => Count(states(k), t),
      (k: nat) => if Pending(states(k), t) then Phase(states(k), t) else 0,
      (k: nat) => if Pending(states(k), t) then Work(states(k), t) else 0,
      (k: nat, u: Task) => Pending(states(k), t) && Helpful(states(k), t, u),
      (k: nat, u: Task) => Owner(sched(k)) == Some(u))
  }

  lemma StaysLive<M>(r: Room<M>, a: Action<M>, s: nat)
    requires Enabled(r, a) && s in r.subs && r.subs[s].pc != Gone && a != Drop(s)
    ensures |r.log| <= |Apply(r, a).log| && s in Apply(r, a).subs
    ensures Apply(r, a).subs[s].pc != Gone && Apply(r, a).subs[s].start == r.subs[s].start
  {
  }

  lemma {:induction false} RunIsStable<M>(
    states: nat -> Room<M>, sched: nat -> Action<M>, s: nat, i: nat, j: nat)
    requires IsRun(states, sched) && i <= j && Stays(sched, Subscriber(s), i)
    requires s in states(i).subs && states(i).subs[s].pc != Gone
    ensures |states(i).log| <= |states(j).log|
    ensures s in states(j).subs && states(j).subs[s].pc != Gone
    ensures states(j).subs[s].start == states(i).subs[s].start
    decreases j - i
  {
    if i < j {
      RunIsStable(states, sched, s, i, j - 1);
      var r, a := states(j - 1), sched(j - 1);
      assert Enabled(r, a) && states(j - 1 + 1) == Apply(r, a);
      StaysLive(r, a, s);
    }
  }

  /** Under a fair schedule a subscription reads every entry the log ever holds from its start
      on, up to the width of the cursor: entry `n` becomes item `n - start`. */
  lemma {:induction false} EveryEntryIsRead<M>(
    states: nat -> Room<M>, sched: nat -> Action<M>, s: nat, i: nat, n: nat)
    returns (j: nat)
    requires IsRun(states, sched) && Fair(states, sched) && Stays(sched, Subscriber(s), i)
    requires s in states(i).subs && states(i).subs[s].pc != Gone
    requires states(i).subs[s].start <= n < |states(i).log| && n < U16_SIZE
    ensures i <= j && s in states(j).subs && states(j).subs[s].start == states(i).subs[s].start
    ensures var k := n - states(i).subs[s].start;
            && k < |states(j).subs[s].seen| && n < |states(j).log|
            && states(j).subs[s].seen[k] == (n, states(j).log[n])
    decreases n - |states(i).subs[s].seen|
  {
    RunInv(states, sched, i);
    var start := states(i).subs[s].start;
    if n - start < |states(i).subs[s].seen| {
      j := i;
      assert ItemOk(states(i).log, states(i).subs[s], n - start);
    } else {
      var k := EventuallyServed(states, sched, Subscriber(s), i);
      RunIsStable(states, sched, s, i, k);
      j := EveryEntryIsRead(states, sched, s, k, n);
    }
  }
}
