/** The one-shot shutdown slot shared by the clones of a participant server
    (participant/src/lib.rs).  Each `start` makes a oneshot channel, puts the sender into the
    slot and serves until its receiver resolves.  Putting a sender into a full slot drops the
    old one, and dropping a sender resolves its receiver just as sending does. */
module ShutdownSlot {
  import opened Common

  datatype Stage =
    | Local     // the sender is still in the start call
    | Serving   // the sender went into the slot, `serve_with_shutdown` runs
    | Ended     // `serve_with_shutdown` has returned, shut down or failed

  /** One call of `start`: how far it is, and whether its receiver has resolved. */
  datatype Server = Server(stage: Stage, signalled: bool)

  datatype State = State(slot: Option<nat>, servers: map<nat, Server>)

  datatype Action =
    | Launch(i: nat)    // the channel is made
    | Store(i: nat)     // the sender goes into the slot, under the lock
    | Shutdown          // the sender is taken from the slot and used, under the lock
    | Finish(i: nat)    // serving ends because the receiver has resolved
    | Fail(i: nat)      // serving ends with an error, such as an address in use

  const INITIAL := State(None, map[])

  predicate At(st: State, i: nat, stage: Stage) {
    i in st.servers && st.servers[i].stage == stage
  }

  predicate Enabled(st: State, a: Action) {
    match a
    case Launch(i) => i !in st.servers
    case Store(i) => At(st, i, Local)
    case Shutdown => true
    case Finish(i) => At(st, i, Serving) && st.servers[i].signalled
    case Fail(i) => At(st, i, Serving)
  }

  /** The receiver of the sender in the slot, if there is one, resolves. */
  function Signal(slot: Option<nat>, servers: map<nat, Server>): map<nat, Server> {
    if slot.Some? && slot.value in servers
    then servers[slot.value := servers[slot.value].(signalled := true)] else servers
  }

  function Apply(st: State, a: Action): State
    requires Enabled(st, a)
  {
    match a
    case Launch(i) => st.(servers := st.servers[i := Server(Local, false)])
    case Store(i) =>
      var servers := Signal(st.slot, st.servers);
      State(Some(i), servers[i := servers[i].(stage := Serving)])
    case Shutdown => State(None, Signal(st.slot, st.servers))
    case Finish(i) => st.(servers := st.servers[i := st.servers[i].(stage := Ended)])
    case Fail(i) => st.(servers := st.servers[i := st.servers[i].(stage := Ended)])
  }

  predicate Legal(st: State, acts: seq<Action>)
    decreases |acts|
  {
    acts == [] || (Enabled(st, acts[0]) && Legal(Apply(st, acts[0]), acts[1..]))
  }

  function Exec(st: State, acts: seq<Action>): State
    requires Legal(st, acts)
    decreases |acts|
  {
    if acts == [] then st else Exec(Apply(st, acts[0]), acts[1..])
  }

  /** A receiver is unresolved exactly while its sender is in the slot or still in its own
      start call. */
  ghost predicate Inv(st: State) {
    && (st.slot.Some? ==> st.slot.value in st.servers && st.servers[st.slot.value].stage != Local)
    && forall i <- st.servers ::
         !st.servers[i].signalled <==> st.slot == Some(i) || st.servers[i].stage == Local
  }

  lemma Step(st: State, a: Action)
    requires Inv(st) && Enabled(st, a)
    ensures Inv(Apply(st, a))
  {
  }

  lemma {:induction false} RunKeeps(st: State, acts: seq<Action>)
    requires Inv(st) && Legal(st, acts)
    ensures Inv(Exec(st, acts))
    decreases |acts|
  {
    if acts != [] {
      Step(st, acts[0]);
      RunKeeps(Apply(st, acts[0]), acts[1..]);
    }
  }

  /** Over any interleaving of starts and shutdowns at most one server that has stored its
      sender is unsignalled, and it is the one the slot points to. */
  lemma OneUnsignalled(acts: seq<Action>, i: nat)
    requires Legal(INITIAL, acts) && i in Exec(INITIAL, acts).servers
    requires Exec(INITIAL, acts).servers[i].stage != Local
    ensures !Exec(INITIAL, acts).servers[i].signalled <==> Exec(INITIAL, acts).slot == Some(i)
  {
    RunKeeps(INITIAL, acts);
  }

  /** A second start signals every server stored before it, and only the new one is left. */
  lemma StoreSignalsOthers(st: State, i: nat, j: nat)
    requires Inv(st) && Enabled(st, Store(i)) && j in st.servers && st.servers[j].stage != Local
    ensures Apply(st, Store(i)).servers[j].signalled && !Apply(st, Store(i)).servers[i].signalled
  {
  }

  /** A shutdown signals every server stored so far; a start call that has not stored its
      sender yet is missed, and serves until a later shutdown. */
  lemma ShutdownSignals(st: State, j: nat)
    requires Inv(st) && j in st.servers
    ensures Apply(st, Shutdown).servers[j].signalled <==> st.servers[j].stage != Local
  {
  }

  /** A server keeps serving through the whole run unless it fails itself, exactly as long as
      nobody stores another sender or shuts down. */
  lemma {:induction false} ServesUntilReplaced(st: State, i: nat, acts: seq<Action>)
    requires Inv(st) && At(st, i, Serving) && st.slot == Some(i) && Legal(st, acts)
    requires Fail(i) !in acts
    ensures At(Exec(st, acts), i, Serving) && !Exec(st, acts).servers[i].signalled
       <==> forall a <- acts :: !a.Store? && !a.Shutdown?
    decreases |acts|
  {
    if acts != [] {
      var st' := Apply(st, acts[0]);
      Step(st, acts[0]);
      assert forall a <- acts :: a == acts[0] || a in acts[1..];
      if acts[0].Store? || acts[0].Shutdown? {
        assert acts[0] in acts;
        SignalsStay(st', i, acts[1..]);
      } else {
        ServesUntilReplaced(st', i, acts[1..]);
      }
    }
  }

  lemma {:induction false} SignalsStay(st: State, i: nat, acts: seq<Action>)
    requires i in st.servers && st.servers[i].signalled && st.servers[i].stage != Local
    requires Legal(st, acts)
    ensures i in Exec(st, acts).servers && Exec(st, acts).servers[i].signalled
    decreases |acts|
  {
    if acts != [] { SignalsStay(Apply(st, acts[0]), i, acts[1..]); }
  }

  /** The sender is stored before the address is bound.  So a second start that fails, say
      because the first server still has the address, ends the first server too, and the slot
      keeps a sender nobody listens to. */
  lemma FailedRestartEndsBoth() returns (acts: seq<Action>)
    ensures Legal(INITIAL, acts) && acts == [Launch(0), Store(0), Launch(1), Store(1), Fail(1), Finish(0)]
    ensures var st := Exec(INITIAL, acts);
            At(st, 0, Ended) && At(st, 1, Ended) && st.slot == Some(1)
  {
    acts := [Launch(0), Store(0), Launch(1), Store(1), Fail(1), Finish(0)];
    var s1 := Apply(INITIAL, Launch(0));
    var s2 := Apply(s1, Store(0));
    var s3 := Apply(s2, Launch(1));
    var s4 := Apply(s3, Store(1));
    var s5 := Apply(s4, Fail(1));
    assert acts[1..][1..][1..][1..][1..] == [Finish(0)] && [Finish(0)][1..] == [];
    assert Legal(s5, [Finish(0)]);
    assert acts[1..][1..][1..][1..] == [Fail(1), Finish(0)];
    assert Legal(s4, [Fail(1), Finish(0)]);
    assert acts[1..][1..][1..] == [Store(1), Fail(1), Finish(0)];
    assert Legal(s3, [Store(1), Fail(1), Finish(0)]);
    assert acts[1..][1..] == [Launch(1), Store(1), Fail(1), Finish(0)];
    assert Legal(s2, acts[1..][1..]);
    assert Legal(s1, acts[1..]);
  }

  // ----- the object -----

  /** The slot and the start calls, each method one critical section of the source. */
  class ParticipantServer {
    var slot: Option<nat>
    var servers: map<nat, Server>

    ghost function Abs(): State
      reads this
    {
      State(slot, servers)
    }

    ghost predicate Valid()
      reads this
    {
      Inv(Abs())
    }

    constructor ()
      ensures Valid() && Abs() == INITIAL
    {
      slot, servers := None, map[];
    }

    method StartLaunch(i: nat)
      requires Valid() && i !in servers
      modifies this
      ensures Valid() && Abs() == Apply(old(Abs()), Launch(i))
    {
      servers := servers[i := Server(Local, false)];
      Step(old(Abs()), Launch(i));
    }

    method StartStore(i: nat)
      requires Valid() && At(Abs(), i, Local)
      modifies this
      ensures Valid() && Abs() == Apply(old(Abs()), Store(i))
    {
      if slot.Some? {
        // the sender that was in the slot is dropped
        servers := servers[slot.value := servers[slot.value].(signalled := true)];
      }
      slot := Some(i);
      servers := servers[i := servers[i].(stage := Serving)];
      Step(old(Abs()), Store(i));
    }

    /** Succeeds either way; `found` says whether there was a sender to use. */
    method StopServing() returns (found: bool)
      requires Valid()
      modifies this
      ensures Valid() && Abs() == Apply(old(Abs()), Shutdown)
      ensures found <==> old(slot).Some?
    {
      found := slot.Some?;
      if found {
        servers := servers[slot.value := servers[slot.value].(signalled := true)];
        slot := None;
      }
      Step(old(Abs()), Shutdown);
    }
  }
}
