/** The broker's map of rooms (sse/src/lib.rs, `Db::get_room_or_create_for_index`) under any
    interleaving of callers: a look under the read guard, and only if that misses the write
    guard and a second look before the insert.  It refines an atomic get-or-create.  The lock
    admits its waiters in arrival order. */
module Directory {
  import opened Common

  datatype Pc =
    | Start           // waiting in `rooms.read()`
    | Looking         // holds the read guard
    | Missed          // read guard dropped, waiting in `rooms.write()`
    | Entering        // holds the write guard
    | Vacant          // holds the write guard, the entry is vacant
    | Done(room: nat) // returned, guards dropped

  datatype Call = Call(name: string, pc: Pc)

  /** Rooms are numbered in order of creation; the number stands for the shared pointer. */
  datatype Db = Db(
    rooms: map<string, nat>, created: nat,
    queue: seq<nat>, readers: set<nat>, writer: Option<nat>, calls: map<nat, Call>)

  datatype Action =
    | Invoke(c: nat, name: string)
    | ReadLock(c: nat)
    | Look(c: nat)
    | WriteLock(c: nat)
    | Enter(c: nat)
    | Insert(c: nat)

  const EMPTY_DB := Db(map[], 0, [], {}, None, map[])

  predicate At(d: Db, c: nat, pc: Pc) {
    c in d.calls && d.calls[c].pc == pc
  }

  predicate IsNext(d: Db, c: nat) {
    d.queue != [] && d.queue[0] == c
  }

  predicate Enabled(d: Db, a: Action) {
    match a
    case Invoke(c, name) => c !in d.calls
    case ReadLock(c) => At(d, c, Start) && IsNext(d, c) && d.writer == None
    case Look(c) => At(d, c, Looking)
    case WriteLock(c) => At(d, c, Missed) && IsNext(d, c) && d.writer == None && d.readers == {}
    case Enter(c) => At(d, c, Entering)
    case Insert(c) => At(d, c, Vacant)
  }

  function Move(d: Db, c: nat, pc: Pc): Db
    requires c in d.calls
  {
    d.(calls := d.calls[c := d.calls[c].(pc := pc)])
  }

  function Apply(d: Db, a: Action): Db
    requires Enabled(d, a)
  {
    match a
    case Invoke(c, name) => d.(calls := d.calls[c := Call(name, Start)], queue := d.queue + [c])
    case ReadLock(c) => Move(d, c, Looking).(readers := d.readers + {c}, queue := d.queue[1..])
    case Look(c) =>
      var name := d.calls[c].name;
      if name in d.rooms then Move(d, c, Done(d.rooms[name])).(readers := d.readers - {c})
      else Move(d, c, Missed).(readers := d.readers - {c}, queue := d.queue + [c])
    case WriteLock(c) => Move(d, c, Entering).(writer := Some(c), queue := d.queue[1..])
    case Enter(c) =>
      var name := d.calls[c].name;
      if name in d.rooms then Move(d, c, Done(d.rooms[name])).(writer := None)
      else Move(d, c, Vacant)
    case Insert(c) =>
      var name := d.calls[c].name;
      Move(d, c, Done(d.created))
      .(rooms := d.rooms[name := d.created], created := d.created + 1, writer := None)
  }

  predicate Legal(d: Db, acts: seq<Action>)
    decreases |acts|
  {
    acts == [] || (Enabled(d, acts[0]) && Legal(Apply(d, acts[0]), acts[1..]))
  }

  function Exec(d: Db, acts: seq<Action>): Db
    requires Legal(d, acts)
    decreases |acts|
  {
    if acts == [] then d else Exec(Apply(d, acts[0]), acts[1..])
  }

  // ----- the specification: get-or-create in one step -----

  /** The bindings, and what each finished call asked for and got. */
  datatype Spec = Spec(rooms: map<string, nat>, results: map<nat, (string, nat)>)

  function Abs(d: Db): Spec {
    Spec(d.rooms, map c | c in d.calls && d.calls[c].pc.Done? :: (d.calls[c].name, d.calls[c].pc.room))
  }

  /** Call `c` for `name` takes effect: it gets the bound room, or binds one nobody has. */
  ghost predicate GetOrCreate(s: Spec, s': Spec, c: nat, name: string) {
    && c !in s.results && name in s'.rooms
    && s'.results == s.results[c := (name, s'.rooms[name])]
    && (if name in s.rooms then s'.rooms == s.rooms
        else s'.rooms == s.rooms[name := s'.rooms[name]]
             && forall other <- s.rooms :: s.rooms[other] != s'.rooms[name])
  }

  ghost predicate SpecStep(s: Spec, s': Spec) {
    s' == s || exists c, name :: GetOrCreate(s, s', c, name)
  }

  // ----- invariant -----

  ghost predicate LocksOk(d: Db) {
    && (forall c: nat :: c in d.readers <==> At(d, c, Looking))
    && (forall c: nat :: d.writer == Some(c) <==> At(d, c, Entering) || At(d, c, Vacant))
    && (d.writer.Some? ==> d.readers == {})
  }

  predicate Waits(d: Db, c: nat) {
    At(d, c, Start) || At(d, c, Missed)
  }

  ghost predicate QueueOk(d: Db) {
    && (forall c: nat :: c in d.queue <==> Waits(d, c))
    && Distinct(d.queue)
  }

  predicate Distinct(q: seq<nat>) {
    forall i, j :: 0 <= i < j < |q| ==> q[i] != q[j]
  }

  ghost predicate RoomsOk(d: Db) {
    && (forall c: nat :: At(d, c, Vacant) ==> d.calls[c].name !in d.rooms)
    && (forall name <- d.rooms :: d.rooms[name] < d.created)
    && (forall m, n :: m in d.rooms && n in d.rooms && m != n ==> d.rooms[m] != d.rooms[n])
    && (forall c <- d.calls :: d.calls[c].pc.Done? ==>
          d.calls[c].name in d.rooms && d.rooms[d.calls[c].name] == d.calls[c].pc.room)
  }

  ghost predicate Inv(d: Db) {
    LocksOk(d) && QueueOk(d) && RoomsOk(d)
  }

  lemma LocksStep(d: Db, a: Action)
    requires LocksOk(d) && Enabled(d, a)
    ensures LocksOk(Apply(d, a))
  {
  }

  lemma QueueStep(d: Db, a: Action)
    requires QueueOk(d) && Enabled(d, a)
    ensures QueueOk(Apply(d, a))
  {
    if a.ReadLock? || a.WriteLock? { HeadLeaves(d.queue); }
    else if a.Invoke? || a.Look? { TailJoins(d.queue, a.c); }
    forall c: nat ensures c in Apply(d, a).queue <==> Waits(Apply(d, a), c) {
      if c != a.c { assert Waits(Apply(d, a), c) <==> Waits(d, c); }
    }
  }

  lemma HeadLeaves(q: seq<nat>)
    requires Distinct(q) && q != []
    ensures Distinct(q[1..]) && forall c :: c in q[1..] <==> c in q && c != q[0]
  {
    forall c | c in q && c != q[0] ensures c in q[1..] {
      var i :| 0 <= i < |q| && q[i] == c;
      assert q[1..][i - 1] == c;
    }
  }

  lemma TailJoins(q: seq<nat>, c: nat)
    requires Distinct(q) && c !in q
    ensures Distinct(q + [c])
  {
  }

  lemma RoomsStep(d: Db, a: Action)
    requires Inv(d) && Enabled(d, a)
    ensures RoomsOk(Apply(d, a))
  {
    if a.Insert? {
      assert At(d, a.c, Vacant);
      forall c: nat | At(d, c, Vacant) ensures c == a.c { assert At(d, c, Entering) || At(d, c, Vacant); }
      assert forall c: nat :: !At(Apply(d, a), c, Vacant) by {
        assert forall c: nat :: c != a.c ==> (At(Apply(d, a), c, Vacant) <==> At(d, c, Vacant));
      }
    }
  }

  lemma Step(d: Db, a: Action)
    requires Inv(d) && Enabled(d, a)
    ensures Inv(Apply(d, a))
  {
    LocksStep(d, a);
    QueueStep(d, a);
    RoomsStep(d, a);
  }

  lemma {:induction false} RunKeeps(d: Db, acts: seq<Action>)
    requires Inv(d) && Legal(d, acts)
    ensures Inv(Exec(d, acts))
    decreases |acts|
  {
    if acts != [] {
      Step(d, acts[0]);
      RunKeeps(Apply(d, acts[0]), acts[1..]);
    }
  }

  // ----- theorems -----

  /** Linearizability: each step of the code is no step of the specification, or the whole of
      one call.  A call takes effect in a step of its own, so between its start and its end. */
  lemma StepIsAtomic(d: Db, a: Action)
    requires Inv(d) && Enabled(d, a)
    ensures Abs(Apply(d, a)) == Abs(d)
         || (!a.Invoke? && GetOrCreate(Abs(d), Abs(Apply(d, a)), a.c, d.calls[a.c].name))
  {
    var d' := Apply(d, a);
    if Finishes(d, a) {
      ResultsGrow(d, d', a.c);
    } else {
      ResultsStay(d, d', a.c);
    }
  }

  /** The code refines the specification: along any run the abstract state changes by its steps
      alone. */
  lemma {:induction false} RunRefines(d: Db, acts: seq<Action>)
    requires Inv(d) && Legal(d, acts)
    ensures SpecRun(Trace(d, acts))
    decreases |acts|
  {
    if acts != [] {
      var d' := Apply(d, acts[0]);
      StepIsAtomic(d, acts[0]);
      assert SpecStep(Abs(d), Abs(d'));
      Step(d, acts[0]);
      RunRefines(d', acts[1..]);
      assert Trace(d, acts)[1..] == Trace(d', acts[1..]);
    }
  }

  /** The abstract states along a run. */
  function Trace(d: Db, acts: seq<Action>): (t: seq<Spec>)
    requires Legal(d, acts)
    ensures |t| == |acts| + 1 && t[0] == Abs(d)
    decreases |acts|
  {
    [Abs(d)] + (if acts == [] then [] else Trace(Apply(d, acts[0]), acts[1..]))
  }

  ghost predicate SpecRun(t: seq<Spec>) {
    |t| < 2 || (SpecStep(t[0], t[1]) && SpecRun(t[1..]))
  }

  /** The steps in which a call gets its room. */
  predicate Finishes(d: Db, a: Action)
    requires Enabled(d, a)
  {
    a.Insert? || ((a.Look? || a.Enter?) && d.calls[a.c].name in d.rooms)
  }

  lemma ResultsGrow(d: Db, d': Db, c: nat)
    requires c in d.calls && !d.calls[c].pc.Done? && c in d'.calls && d'.calls[c].pc.Done?
    requires d'.calls == d.calls[c := d'.calls[c]]
    ensures Abs(d').results == Abs(d).results[c := (d'.calls[c].name, d'.calls[c].pc.room)]
  {
  }

  lemma ResultsStay(d: Db, d': Db, c: nat)
    requires (c in d.calls ==> !d.calls[c].pc.Done?) && c in d'.calls && !d'.calls[c].pc.Done?
    requires d'.calls == d.calls[c := d'.calls[c]]
    ensures Abs(d').results == Abs(d).results
  {
  }

  /** All callers with one id get one room, callers with different ids different rooms. */
  lemma OneRoomPerId(acts: seq<Action>, c1: nat, c2: nat)
    requires Legal(EMPTY_DB, acts)
    requires c1 in Exec(EMPTY_DB, acts).calls && c2 in Exec(EMPTY_DB, acts).calls
    requires Exec(EMPTY_DB, acts).calls[c1].pc.Done? && Exec(EMPTY_DB, acts).calls[c2].pc.Done?
    ensures var calls := Exec(EMPTY_DB, acts).calls;
            calls[c1].pc.room == calls[c2].pc.room <==> calls[c1].name == calls[c2].name
  {
    RunKeeps(EMPTY_DB, acts);
  }

  lemma BindingsKept(d: Db, a: Action)
    requires Inv(d) && Enabled(d, a)
    ensures forall name <- d.rooms ::
      name in Apply(d, a).rooms && Apply(d, a).rooms[name] == d.rooms[name]
    ensures forall c <- d.calls :: d.calls[c].pc.Done? ==>
      c in Apply(d, a).calls && Apply(d, a).calls[c] == d.calls[c]
  {
  }

  /** A binding, once made, never changes, and neither does what a call has returned. */
  lemma {:induction false} BindingsAreForever(d: Db, acts: seq<Action>)
    requires Inv(d) && Legal(d, acts)
    ensures forall name <- d.rooms ::
      name in Exec(d, acts).rooms && Exec(d, acts).rooms[name] == d.rooms[name]
    ensures forall c <- d.calls :: d.calls[c].pc.Done? ==>
      c in Exec(d, acts).calls && Exec(d, acts).calls[c] == d.calls[c]
    decreases |acts|
  {
    if acts != [] {
      Step(d, acts[0]);
      BindingsKept(d, acts[0]);
      BindingsAreForever(Apply(d, acts[0]), acts[1..]);
    }
  }

  // ----- calls return -----

  /** How many steps a call has left at most. */
  function StepsLeft(pc: Pc): nat {
    match pc
    case Start => 5
    case Looking => 4
    case Missed => 3
    case Entering => 2
    case Vacant => 1
    case Done(_) => 0
  }

  function Budget(d: Db, c: nat): nat {
    if c in d.calls then StepsLeft(d.calls[c].pc) else 0
  }

  /** The steps a call takes itself. */
  function StepsOf(acts: seq<Action>, c: nat): nat {
    if acts == [] then 0
    else (if acts[0].c == c && !acts[0].Invoke? then 1 else 0) + StepsOf(acts[1..], c)
  }

  lemma StepSpends(d: Db, a: Action, c: nat)
    requires Enabled(d, a) && c in d.calls
    ensures c in Apply(d, a).calls
    ensures a.c == c ==> !a.Invoke? && Budget(Apply(d, a), c) < Budget(d, c)
    ensures a.c != c ==> Budget(Apply(d, a), c) == Budget(d, c)
  {
  }

  /** A call needs at most five steps of its own, however many others arrive meanwhile. */
  lemma {:induction false} FiveStepsAtMost(d: Db, acts: seq<Action>, c: nat)
    requires Legal(d, acts) && c in d.calls
    ensures StepsOf(acts, c) + Budget(Exec(d, acts), c) <= Budget(d, c) <= 5
    decreases |acts|
  {
    if acts != [] {
      StepSpends(d, acts[0], c);
      FiveStepsAtMost(Apply(d, acts[0]), acts[1..], c);
    }
  }

  /** What calls 0 .. n - 1 have left together. */
  function TotalBudget(d: Db, n: nat): nat {
    if n == 0 then 0 else TotalBudget(d, n - 1) + Budget(d, n - 1)
  }

  lemma {:induction false} StepSpendsOne(d: Db, a: Action, n: nat)
    requires Enabled(d, a) && !a.Invoke?
    ensures TotalBudget(Apply(d, a), n) + (if a.c < n then 1 else 0) <= TotalBudget(d, n)
  {
    if n > 0 {
      StepSpendsOne(d, a, n - 1);
      if n - 1 in d.calls { StepSpends(d, a, n - 1); }
    }
  }

  /** Once no new call arrives, no run is longer than what the calls have left. */
  lemma {:induction false} RunsAreBounded(d: Db, acts: seq<Action>, n: nat)
    requires Legal(d, acts) && (forall a <- acts :: !a.Invoke?) && forall c <- d.calls :: c < n
    ensures |acts| + TotalBudget(Exec(d, acts), n) <= TotalBudget(d, n)
    decreases |acts|
  {
    if acts != [] {
      assert acts[0] in acts && forall a <- acts[1..] :: a in acts;
      StepSpendsOne(d, acts[0], n);
      assert forall c <- Apply(d, acts[0]).calls :: c in d.calls;
      RunsAreBounded(Apply(d, acts[0]), acts[1..], n);
    }
  }

  /** No call can take a step. */
  ghost predicate AtRest(d: Db) {
    forall a :: Enabled(d, a) ==> a.Invoke?
  }

  /** `b` does not wait, or waits behind `c`. */
  ghost predicate Behind(q: seq<nat>, b: nat, c: nat) {
    c in q && forall i, j :: 0 <= i < |q| && 0 <= j < |q| && q[i] == c && q[j] == b ==> i < j
  }

  lemma BehindStep(d: Db, a: Action, b: nat, c: nat)
    requires Inv(d) && Enabled(d, a) && Waits(d, c) && Behind(d.queue, b, c) && a.c != c
    ensures a != ReadLock(b) && a != WriteLock(b)
    ensures Waits(Apply(d, a), c) && Behind(Apply(d, a).queue, b, c)
  {
    var i :| 0 <= i < |d.queue| && d.queue[i] == c;
    if a.ReadLock? || a.WriteLock? {
      assert i > 0 && d.queue[1..][i - 1] == c;
    } else {
      assert Apply(d, a).queue[i] == c;
    }
    assert Waits(Apply(d, a), c) <==> Waits(d, c);
  }

  /** First come, first served: while a call waits for the lock, no call that was not already
      waiting is admitted before it, for reading or for writing. */
  lemma {:induction false} FirstComeFirstServed(d: Db, acts: seq<Action>, b: nat, c: nat)
    requires Inv(d) && Legal(d, acts) && Waits(d, c) && Behind(d.queue, b, c)
    requires forall a <- acts :: a.c != c
    ensures ReadLock(b) !in acts && WriteLock(b) !in acts
    decreases |acts|
  {
    if acts != [] {
      assert acts[0] in acts && forall a <- acts[1..] :: a in acts;
      BehindStep(d, acts[0], b, c);
      Step(d, acts[0]);
      FirstComeFirstServed(Apply(d, acts[0]), acts[1..], b, c);
    }
  }

  /** Double-checked locking does not deadlock: calls come to rest only when all have returned. */
  lemma AtRestIffReturned(d: Db)
    requires Inv(d)
    ensures AtRest(d) <==> forall c <- d.calls :: d.calls[c].pc.Done?
  {
    if c :| c in d.calls && !d.calls[c].pc.Done? {
      var a := SomeoneCanStep(d, c);
    }
  }

  lemma SomeoneCanStep(d: Db, c: nat) returns (a: Action)
    requires Inv(d) && c in d.calls && !d.calls[c].pc.Done?
    ensures Enabled(d, a) && !a.Invoke?
  {
    if d.writer.Some? {
      var w := d.writer.value;
      a := if At(d, w, Entering) then Enter(w) else Insert(w);
    } else if d.readers != {} {
      var x :| x in d.readers;
      a := Look(x);
    } else {
      assert !At(d, c, Looking) && !At(d, c, Entering) && !At(d, c, Vacant);
      assert Waits(d, c) && d.queue != [];
      var first := d.queue[0];
      assert Waits(d, first);
      a := if At(d, first, Start) then ReadLock(first) else WriteLock(first);
    }
  }

  /** Every state without further arrivals has a run to rest, and there all calls have
      returned: whoever is scheduled, five steps per call are enough. */
  lemma {:induction false} CallsReturn(d: Db, n: nat) returns (acts: seq<Action>)
    requires Inv(d) && forall c <- d.calls :: c < n
    ensures Legal(d, acts) && (forall a <- acts :: !a.Invoke?) && |acts| <= TotalBudget(d, n)
    ensures forall c <- Exec(d, acts).calls :: Exec(d, acts).calls[c].pc.Done?
    decreases TotalBudget(d, n)
  {
    if c :| c in d.calls && !d.calls[c].pc.Done? {
      var a := SomeoneCanStep(d, c);
      Step(d, a);
      StepSpendsOne(d, a, n);
      assert a.c in d.calls;
      var rest := CallsReturn(Apply(d, a), n);
      acts := [a] + rest;
      assert acts[1..] == rest;
    } else {
      acts := [];
    }
  }

  /** A call can be made at any time for any id, and once no other arrives it returns the room
      that is bound to the id from then on, the old one if there was one. */
  lemma NewCallReturns(d: Db, c: nat, name: string, n: nat) returns (acts: seq<Action>)
    requires Inv(d) && c !in d.calls && c < n && forall k <- d.calls :: k < n
    ensures acts != [] && acts[0] == Invoke(c, name) && Legal(d, acts)
    ensures forall k :: 0 < k < |acts| ==> !acts[k].Invoke?
    ensures var end := Exec(d, acts);
            && c in end.calls && name in end.rooms && end.calls[c].pc == Done(end.rooms[name])
            && (name in d.rooms ==> end.rooms[name] == d.rooms[name])
  {
    var called := Apply(d, Invoke(c, name));
    Step(d, Invoke(c, name));
    var rest := CallsReturn(called, n);
    acts := [Invoke(c, name)] + rest;
    assert acts[1..] == rest;
    RunKeeps(called, rest);
    BindingsAreForever(called, rest);
    NameKept(called, rest, c);
  }

  lemma {:induction false} NameKept(d: Db, acts: seq<Action>, c: nat)
    requires Legal(d, acts) && c in d.calls
    ensures c in Exec(d, acts).calls && Exec(d, acts).calls[c].name == d.calls[c].name
    decreases |acts|
  {
    if acts != [] { NameKept(Apply(d, acts[0]), acts[1..], c); }
  }
}
