/** Concurrent signing through the gateway (sign-gateway/src/grpc.rs): one mutex guards the
    connection to the remote participant and is held for the whole upstream call, while each
    session's local participant is called directly (mpc-client/src/signer.rs).

    A run of the signing protocol is taken as some rounds; in each a participant sends its
    message and then waits for the peer's message of that round.  The room keeps messages, so
    a participant may send before its peer has joined.  A participant's connection to the room
    has a timeout, after which its call returns an error. */
module Gateway {
  import opened Common

  /** How many rounds the protocol has, and whether connections time out. */
  datatype Params = Params(rounds: nat, timeouts: bool)

  datatype Side =
    | Idle                            // not called, or not called yet
    | Blocked                         // the call waits for the gateway's mutex
    | Running(round: nat, sent: bool) // in a round, its message sent or not
    | Returned
    | Expired(round: nat, sent: bool) // timed out in that round

  /** One session; `threshold` is how many of its clients, gateway first, are called. */
  datatype Session = Session(threshold: nat, called: bool, remote: Side, local: Side)

  datatype State = State(holder: Option<nat>, sessions: seq<Session>)

  datatype Action =
    | Call(i: nat)                 // the client sends its requests, all at once
    | Lock(i: nat)                 // the session's upstream call gets the mutex
    | Unlock(i: nat)               // it has returned, the guard is dropped
    | SendRemote(i: nat) | SendLocal(i: nat)
    | RecvRemote(i: nat) | RecvLocal(i: nat)
    | ExpireRemote(i: nat) | ExpireLocal(i: nat)

  function Fresh(threshold: nat): Session {
    Session(threshold, false, Idle, Idle)
  }

  function Initial(thresholds: seq<nat>): State {
    State(None, seq(|thresholds|, i requires 0 <= i < |thresholds| => Fresh(thresholds[i])))
  }

  /** How many messages a side has put into the room. */
  function SentBy(p: Params, s: Side): nat {
    match s
    case Running(k, sent) => if sent then k + 1 else k
    case Returned => p.rounds
    case Expired(k, sent) => if sent then k + 1 else k
    case _ => 0
  }

  predicate CanSend(s: Side) {
    s.Running? && !s.sent
  }

  predicate CanReceive(p: Params, s: Side, peer: Side) {
    s.Running? && s.sent && SentBy(p, peer) > s.round
  }

  function AfterReceive(p: Params, s: Side): Side
    requires s.Running?
  {
    if s.round + 1 >= p.rounds then Returned else Running(s.round + 1, false)
  }

  /** The call has returned, with a signature or an error. */
  predicate Answered(s: Side) {
    s.Returned? || s.Expired?
  }

  predicate Enabled(p: Params, st: State, a: Action) {
    && a.i < |st.sessions|
    && var s := st.sessions[a.i];
       match a
       case Call(_) => !s.called
       case Lock(i) => st.holder == None && s.remote == Blocked
       case Unlock(i) => st.holder == Some(i) && Answered(s.remote)
       case SendRemote(_) => CanSend(s.remote)
       case SendLocal(_) => CanSend(s.local)
       case RecvRemote(_) => CanReceive(p, s.remote, s.local)
       case RecvLocal(_) => CanReceive(p, s.local, s.remote)
       case ExpireRemote(_) => p.timeouts && s.remote.Running?
       case ExpireLocal(_) => p.timeouts && s.local.Running?
  }

  function After(p: Params, s: Session, a: Action): Session
    requires a.SendRemote? || a.RecvRemote? || a.ExpireRemote? ==> s.remote.Running?
    requires a.SendLocal? || a.RecvLocal? || a.ExpireLocal? ==> s.local.Running?
  {
    match a
    case Call(_) =>
      s.(called := true,
         remote := if s.threshold >= 1 then Blocked else Idle,
         local := if s.threshold >= 2 then Running(0, false) else Idle)
    case Lock(_) => s.(remote := Running(0, false))
    case Unlock(_) => s
    case SendRemote(_) => s.(remote := Running(s.remote.round, true))
    case SendLocal(_) => s.(local := Running(s.local.round, true))
    case RecvRemote(_) => s.(remote := AfterReceive(p, s.remote))
    case RecvLocal(_) => s.(local := AfterReceive(p, s.local))
    case ExpireRemote(_) => s.(remote := Expired(s.remote.round, s.remote.sent))
    case ExpireLocal(_) => s.(local := Expired(s.local.round, s.local.sent))
  }

  function Apply(p: Params, st: State, a: Action): State
    requires Enabled(p, st, a)
  {
    State(
      match a case Lock(i) => Some(i) case Unlock(_) => None case _ => st.holder,
      st.sessions[a.i := After(p, st.sessions[a.i], a)])
  }

  predicate Legal(p: Params, st: State, acts: seq<Action>)
    decreases |acts|
  {
    acts == [] || (Enabled(p, st, acts[0]) && Legal(p, Apply(p, st, acts[0]), acts[1..]))
  }

  function Exec(p: Params, st: State, acts: seq<Action>): State
    requires Legal(p, st, acts)
    decreases |acts|
  {
    if acts == [] then st else Exec(p, Apply(p, st, acts[0]), acts[1..])
  }

  // ----- invariant -----

  predicate SideOk(p: Params, s: Side) {
    && (s.Running? || s.Expired? ==> s.round < p.rounds)
    && (s.Expired? ==> p.timeouts)
  }

  predicate SessionOk(p: Params, s: Session) {
    && SideOk(p, s.remote) && SideOk(p, s.local)
    && (s.called && s.threshold >= 1 ==> s.remote != Idle)
    && (s.called && s.threshold >= 2 ==> s.local.Running? || Answered(s.local))
    && (!s.called || s.threshold < 1 ==> s.remote == Idle)
    && (!s.called || s.threshold < 2 ==> s.local == Idle)
    && SentBy(p, s.remote) <= ReceivedBy(p, s.remote) + 1
    && ReceivedBy(p, s.remote) <= SentBy(p, s.local)
    && ReceivedBy(p, s.local) <= SentBy(p, s.remote)
  }

  /** How many of the peer's messages a side has taken. */
  function ReceivedBy(p: Params, s: Side): nat {
    match s
    case Running(k, _) => k
    case Returned => p.rounds
    case Expired(k, _) => k
    case _ => 0
  }

  ghost predicate Inv(p: Params, st: State) {
    && (forall i :: 0 <= i < |st.sessions| ==> SessionOk(p, st.sessions[i]))
    && (st.holder.Some? ==> st.holder.value < |st.sessions|)
    && (forall i :: 0 <= i < |st.sessions| && st.sessions[i].remote.Running? ==> st.holder == Some(i))
    && (st.holder.Some? ==> var h := st.sessions[st.holder.value].remote; h.Running? || Answered(h))
  }

  lemma Step(p: Params, st: State, a: Action)
    requires p.rounds >= 1 && Inv(p, st) && Enabled(p, st, a)
    ensures Inv(p, Apply(p, st, a))
  {
    SessionStep(p, st, a);
  }

  lemma SessionStep(p: Params, st: State, a: Action)
    requires p.rounds >= 1 && Enabled(p, st, a) && SessionOk(p, st.sessions[a.i])
    ensures SessionOk(p, After(p, st.sessions[a.i], a))
  {
  }

  lemma {:induction false} RunKeeps(p: Params, st: State, acts: seq<Action>)
    requires p.rounds >= 1 && Inv(p, st) && Legal(p, st, acts)
    ensures Inv(p, Exec(p, st, acts))
    decreases |acts|
  {
    if acts != [] {
      Step(p, st, acts[0]);
      RunKeeps(p, Apply(p, st, acts[0]), acts[1..]);
    }
  }

  // ----- termination: every step uses something up -----

  function SideCost(p: Params, s: Side): nat {
    match s
    case Idle => 0
    case Blocked => 2 * p.rounds + 2
    case Running(k, sent) => (if k < p.rounds then 2 * (p.rounds - k) else 0) + (if sent then 0 else 1)
    case Returned => 0
    case Expired(_, _) => 0
  }

  function Cost(p: Params, s: Session): nat {
    (if s.called then 0 else 4 * p.rounds + 4) + SideCost(p, s.remote) + SideCost(p, s.local)
  }

  function TotalCost(p: Params, ss: seq<Session>): nat {
    if ss == [] then 0 else TotalCost(p, ss[..|ss| - 1]) + Cost(p, ss[|ss| - 1])
  }

  function Remaining(p: Params, st: State): nat {
    2 * TotalCost(p, st.sessions) + (if st.holder.Some? then 1 else 0)
  }

  lemma {:induction false} CostAfterUpdate(p: Params, ss: seq<Session>, i: nat, s: Session)
    requires i < |ss|
    ensures TotalCost(p, ss[i := s]) == TotalCost(p, ss) - Cost(p, ss[i]) + Cost(p, s)
  {
    var n := |ss| - 1;
    if i < n {
      CostAfterUpdate(p, ss[..n], i, s);
      assert ss[i := s][..n] == ss[..n][i := s];
    } else {
      assert ss[i := s][..n] == ss[..n];
    }
  }

  /** Every step brings the system nearer its end, so no run is longer than `Remaining`. */
  lemma StepsRunOut(p: Params, st: State, a: Action)
    requires p.rounds >= 1 && Inv(p, st) && Enabled(p, st, a)
    ensures Remaining(p, Apply(p, st, a)) < Remaining(p, st)
  {
    CostFalls(p, st, a);
    CostAfterUpdate(p, st.sessions, a.i, After(p, st.sessions[a.i], a));
  }

  lemma CostFalls(p: Params, st: State, a: Action)
    requires p.rounds >= 1 && Enabled(p, st, a) && SessionOk(p, st.sessions[a.i])
    ensures var s := st.sessions[a.i];
            Cost(p, After(p, s, a)) + (if a.Unlock? then 0 else 1) <= Cost(p, s)
  {
  }

  // ----- deadlock -----

  /** The session's client has sent its requests and has every answer. */
  predicate SessionFinished(s: Session) {
    && s.called
    && (s.threshold >= 1 ==> Answered(s.remote))
    && (s.threshold >= 2 ==> Answered(s.local))
  }

  ghost predicate Finished(st: State) {
    st.holder == None && forall i :: 0 <= i < |st.sessions| ==> SessionFinished(st.sessions[i])
  }

  ghost predicate Stuck(p: Params, st: State) {
    forall a :: !Enabled(p, st, a)
  }

  /** Whoever holds the mutex, its session can take a step, because its local participant is
      not behind the mutex: the holder can send, or the local peer can, or one of the two has
      something to receive, or the call has returned.  Failing that, the call times out. */
  lemma HolderCanStep(p: Params, st: State, i: nat) returns (a: Action)
    requires Inv(p, st) && st.holder == Some(i) && (st.sessions[i].threshold >= 2 || p.timeouts)
    ensures Enabled(p, st, a) && a.i == i
    ensures a.ExpireRemote? ==> st.sessions[i].local.Expired? || st.sessions[i].threshold < 2
  {
    var s := st.sessions[i];
    assert SessionOk(p, s);
    if Answered(s.remote) { a := Unlock(i); }
    else if CanSend(s.remote) { a := SendRemote(i); }
    else if CanSend(s.local) { a := SendLocal(i); }
    else if CanReceive(p, s.remote, s.local) { a := RecvRemote(i); }
    else if CanReceive(p, s.local, s.remote) { a := RecvLocal(i); }
    else { a := ExpireRemote(i); }
  }

  /** No session calls exactly one client. */
  ghost predicate NoLoneRemote(st: State) {
    forall i :: 0 <= i < |st.sessions| ==> st.sessions[i].threshold != 1
  }

  /** While no session calls the gateway alone, or calls time out, some step is possible until
      all is done. */
  lemma NeverStuck(p: Params, st: State)
    requires Inv(p, st) && (NoLoneRemote(st) || p.timeouts) && Stuck(p, st)
    ensures Finished(st)
  {
    if st.holder.Some? {
      assert SessionOk(p, st.sessions[st.holder.value]);
      var a := HolderCanStep(p, st, st.holder.value);
      assert false;
    }
    forall i | 0 <= i < |st.sessions| ensures SessionFinished(st.sessions[i]) {
      var s := st.sessions[i];
      assert SessionOk(p, s);
      assert !Enabled(p, st, Call(i)) && !Enabled(p, st, Lock(i));
      assert !Enabled(p, st, SendLocal(i)) && !Enabled(p, st, RecvLocal(i));
      assert !Enabled(p, st, ExpireLocal(i));
    }
  }

  // ----- whole runs -----

  lemma StartsOk(p: Params, thresholds: seq<nat>)
    ensures Inv(p, Initial(thresholds))
  {
  }

  lemma {:induction false} ThresholdsStay(p: Params, st: State, acts: seq<Action>)
    requires Legal(p, st, acts)
    ensures var end := Exec(p, st, acts);
            && |end.sessions| == |st.sessions|
            && forall i :: 0 <= i < |st.sessions| ==> end.sessions[i].threshold == st.sessions[i].threshold
    decreases |acts|
  {
    if acts != [] { ThresholdsStay(p, Apply(p, st, acts[0]), acts[1..]); }
  }

  // ----- messages -----

  /** How often a run takes a step. */
  function Times(acts: seq<Action>, a: Action): nat {
    if acts == [] then 0 else (if acts[0] == a then 1 else 0) + Times(acts[1..], a)
  }

  lemma StepCounts(p: Params, st: State, a: Action, i: nat)
    requires p.rounds >= 1 && Inv(p, st) && Enabled(p, st, a) && i < |st.sessions|
    ensures var s, s' := st.sessions[i], Apply(p, st, a).sessions[i];
            && SentBy(p, s'.remote) == SentBy(p, s.remote) + (if a == SendRemote(i) then 1 else 0)
            && SentBy(p, s'.local) == SentBy(p, s.local) + (if a == SendLocal(i) then 1 else 0)
            && ReceivedBy(p, s'.remote) == ReceivedBy(p, s.remote) + (if a == RecvRemote(i) then 1 else 0)
            && ReceivedBy(p, s'.local) == ReceivedBy(p, s.local) + (if a == RecvLocal(i) then 1 else 0)
  {
    if a.i == i { OwnStepCounts(p, st, a); }
  }

  lemma OwnStepCounts(p: Params, st: State, a: Action)
    requires p.rounds >= 1 && Enabled(p, st, a) && SessionOk(p, st.sessions[a.i])
    ensures var s, s' := st.sessions[a.i], After(p, st.sessions[a.i], a);
            && SentBy(p, s'.remote) == SentBy(p, s.remote) + (if a.SendRemote? then 1 else 0)
            && SentBy(p, s'.local) == SentBy(p, s.local) + (if a.SendLocal? then 1 else 0)
            && ReceivedBy(p, s'.remote) == ReceivedBy(p, s.remote) + (if a.RecvRemote? then 1 else 0)
            && ReceivedBy(p, s'.local) == ReceivedBy(p, s.local) + (if a.RecvLocal? then 1 else 0)
  {
  }

  /** What the sides count is what the run did: a message is sent by a send step and taken by a
      receive step, and by nothing else. */
  lemma {:induction false} RunCounts(p: Params, st: State, acts: seq<Action>, i: nat)
    requires p.rounds >= 1 && Inv(p, st) && Legal(p, st, acts) && i < |st.sessions|
    ensures |Exec(p, st, acts).sessions| == |st.sessions|
    ensures var s, s' := st.sessions[i], Exec(p, st, acts).sessions[i];
            && SentBy(p, s'.remote) == SentBy(p, s.remote) + Times(acts, SendRemote(i))
            && SentBy(p, s'.local) == SentBy(p, s.local) + Times(acts, SendLocal(i))
            && ReceivedBy(p, s'.remote) == ReceivedBy(p, s.remote) + Times(acts, RecvRemote(i))
            && ReceivedBy(p, s'.local) == ReceivedBy(p, s.local) + Times(acts, RecvLocal(i))
    decreases |acts|
  {
    if acts != [] {
      StepCounts(p, st, acts[0], i);
      Step(p, st, acts[0]);
      RunCounts(p, Apply(p, st, acts[0]), acts[1..], i);
    }
  }

  /** Along every run from the start no side takes a message before its peer has sent it, and
      when both have returned with a signature, each has sent and taken one message a round. */
  lemma MessagesMatch(p: Params, thresholds: seq<nat>, acts: seq<Action>, i: nat)
    requires p.rounds >= 1 && Legal(p, Initial(thresholds), acts) && i < |thresholds|
    ensures Times(acts, RecvRemote(i)) <= Times(acts, SendLocal(i))
    ensures Times(acts, RecvLocal(i)) <= Times(acts, SendRemote(i))
    ensures i < |Exec(p, Initial(thresholds), acts).sessions|
    ensures var s := Exec(p, Initial(thresholds), acts).sessions[i];
            && (s.remote == Returned ==>
                  Times(acts, SendRemote(i)) == p.rounds && Times(acts, RecvRemote(i)) == p.rounds)
            && (s.local == Returned ==>
                  Times(acts, SendLocal(i)) == p.rounds && Times(acts, RecvLocal(i)) == p.rounds)
  {
    StartsOk(p, thresholds);
    RunCounts(p, Initial(thresholds), acts, i);
    RunKeeps(p, Initial(thresholds), acts);
    assert SessionOk(p, Exec(p, Initial(thresholds), acts).sessions[i]);
  }

  /** No run is infinite. */
  lemma {:induction false} RunsAreBounded(p: Params, st: State, acts: seq<Action>)
    requires p.rounds >= 1 && Inv(p, st) && Legal(p, st, acts)
    ensures |acts| + Remaining(p, Exec(p, st, acts)) <= Remaining(p, st)
    decreases |acts|
  {
    if acts != [] {
      StepsRunOut(p, st, acts[0]);
      Step(p, st, acts[0]);
      RunsAreBounded(p, Apply(p, st, acts[0]), acts[1..]);
    }
  }

  /** Every state has a run to where nothing more can happen. */
  lemma {:induction false} RunToEnd(p: Params, st: State) returns (acts: seq<Action>)
    requires p.rounds >= 1 && Inv(p, st)
    ensures Legal(p, st, acts) && Stuck(p, Exec(p, st, acts))
    decreases Remaining(p, st)
  {
    if a :| Enabled(p, st, a) {
      StepsRunOut(p, st, a);
      Step(p, st, a);
      var rest := RunToEnd(p, Apply(p, st, a));
      acts := [a] + rest;
      assert acts[1..] == rest;
    } else {
      acts := [];
    }
  }

  /** Whatever the interleaving, when nothing more can happen everybody has an answer. */
  ghost predicate AllRunsFinish(p: Params, thresholds: seq<nat>) {
    forall acts ::
      Legal(p, Initial(thresholds), acts) && Stuck(p, Exec(p, Initial(thresholds), acts))
      ==> Finished(Exec(p, Initial(thresholds), acts))
  }

  /** For any number of sessions, signing through the gateway never deadlocks if and only if
      calls time out or no session calls exactly one client. */
  lemma DeadlockFreeIff(p: Params, thresholds: seq<nat>)
    requires p.rounds >= 1
    ensures AllRunsFinish(p, thresholds)
       <==> p.timeouts || forall i :: 0 <= i < |thresholds| ==> thresholds[i] != 1
  {
    var st := Initial(thresholds);
    StartsOk(p, thresholds);
    if p.timeouts || forall i :: 0 <= i < |thresholds| ==> thresholds[i] != 1 {
      forall acts | Legal(p, st, acts) && Stuck(p, Exec(p, st, acts))
        ensures Finished(Exec(p, st, acts))
      {
        RunKeeps(p, st, acts);
        ThresholdsStay(p, st, acts);
        NeverStuck(p, Exec(p, st, acts));
      }
    } else {
      var i :| 0 <= i < |thresholds| && thresholds[i] == 1;
      var acts := RunToEnd(p, st);
      RunKeeps(p, st, acts);
      ThresholdsStay(p, st, acts);
      LoneRemoteNeverReturns(p, Exec(p, st, acts), i);
    }
  }

  /** A remote participant called alone waits for a peer that nobody calls: it never gets a
      signature, and unless it times out it never answers. */
  lemma LoneRemoteNeverReturns(p: Params, st: State, i: nat)
    requires p.rounds >= 1 && Inv(p, st) && i < |st.sessions| && st.sessions[i].threshold == 1
    ensures st.sessions[i].remote != Returned
    ensures SessionFinished(st.sessions[i]) ==> st.sessions[i].remote.Expired?
    ensures Enabled(p, st, Unlock(i)) ==> st.sessions[i].remote.Expired?
  {
    assert SessionOk(p, st.sessions[i]);
  }

  /** One such session with the mutex keeps it as long as it does not time out, and until then
      every session that waits for the mutex goes on waiting. */
  lemma {:induction false} LoneRemoteBlocksAll(p: Params, st: State, i: nat, acts: seq<Action>)
    requires p.rounds >= 1 && Inv(p, st) && st.holder == Some(i) && st.sessions[i].threshold == 1
    requires st.sessions[i].remote.Running?
    requires Legal(p, st, acts) && ExpireRemote(i) !in acts
    ensures var end := Exec(p, st, acts);
            && end.holder == Some(i) && |end.sessions| == |st.sessions|
            && end.sessions[i].remote.Running?
            && forall j :: 0 <= j < |st.sessions| && st.sessions[j].remote == Blocked
                 ==> end.sessions[j].remote == Blocked
    decreases |acts|
  {
    if acts != [] {
      assert acts[0] in acts && forall a <- acts[1..] :: a in acts;
      LoneRemoteNeverReturns(p, st, i);
      assert acts[0] != Unlock(i) && acts[0] != ExpireRemote(i);
      Step(p, st, acts[0]);
      BlockedStays(p, st, acts[0]);
      LoneRemoteNeverReturns(p, Apply(p, st, acts[0]), i);
      LoneRemoteBlocksAll(p, Apply(p, st, acts[0]), i, acts[1..]);
    }
  }

  lemma BlockedStays(p: Params, st: State, a: Action)
    requires Inv(p, st) && Enabled(p, st, a) && st.holder.Some? && !a.Unlock?
    ensures Apply(p, st, a).holder == st.holder
    ensures forall j :: 0 <= j < |st.sessions| && st.sessions[j].remote == Blocked
              ==> Apply(p, st, a).sessions[j].remote == Blocked
  {
    assert SessionOk(p, st.sessions[a.i]);
  }
}
