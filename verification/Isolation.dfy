/** Many sessions on one broker: each works in the room its id names (sse/src/lib.rs keeps one
    log per room id and never deletes one).  A session's subscriptions see its own messages
    only, exactly when no other session collides with it. */
module Isolation {
  import opened Common
  import opened Broker
  import opened BrokerSafety
  import opened TxIds

  /** A message together with the session whose participants sent it. */
  datatype Tagged<M> = Tagged(session: Session, payload: M)

  type World<M> = map<string, Room<Tagged<M>>>

  datatype Move<M> = Move(session: Session, action: Action<Tagged<M>>)

  function RoomIn<M>(w: World<M>, name: string): Room<Tagged<M>> {
    if name in w then w[name] else Empty()
  }

  /** A session takes a broker step in its room; what its participants publish is its own. */
  predicate Allowed<M>(w: World<M>, among: set<Session>, v: Move<M>) {
    && v.session in among
    && Enabled(RoomIn(w, RoomOf(v.session)), v.action)
    && (v.action.Begin? ==> v.action.m.session == v.session)
  }

  function Make<M>(w: World<M>, among: set<Session>, v: Move<M>): World<M>
    requires Allowed(w, among, v)
  {
    var name := RoomOf(v.session);
    w[name := Apply(RoomIn(w, name), v.action)]
  }

  /** The moves can be made one after the other, from a broker that has no room yet. */
  predicate Playable<M>(among: set<Session>, moves: seq<Move<M>>)
    decreases |moves|, 0
  {
    moves == [] ||
    (var n := |moves| - 1; Playable(among, moves[..n]) && Allowed(Play(among, moves[..n]), among, moves[n]))
  }

  function Play<M>(among: set<Session>, moves: seq<Move<M>>): World<M>
    requires Playable(among, moves)
    decreases |moves|, 1
  {
    if moves == [] then map[]
    else var n := |moves| - 1; Make(Play(among, moves[..n]), among, moves[n])
  }

  /** A state the sessions in `among` can bring the broker to. */
  ghost predicate Happens<M(!new)>(among: set<Session>, w: World<M>) {
    exists moves: seq<Move<M>> :: Playable(among, moves) && Play(among, moves) == w
  }

  // ----- what every room holds -----

  /** All messages of a room, logged or on their way, belong to sessions that use the room. */
  ghost predicate OwnMessages<M>(among: set<Session>, name: string, r: Room<Tagged<M>>) {
    && Inv(r)
    && (forall m <- r.log :: m.session in among && RoomOf(m.session) == name)
    && (forall p <- r.pubs :: r.pubs[p].pc.Queueing? || r.pubs[p].pc.Writing? ==>
          r.pubs[p].pc.msg.session in among && RoomOf(r.pubs[p].pc.msg.session) == name)
  }

  lemma OwnMessagesStep<M>(
    among: set<Session>, r: Room<Tagged<M>>, s: Session, a: Action<Tagged<M>>)
    requires OwnMessages(among, RoomOf(s), r) && Enabled(r, a) && s in among
    requires a.Begin? ==> a.m.session == s
    ensures OwnMessages(among, RoomOf(s), Apply(r, a))
  {
    Step(r, a);
    LogFrame(r, a);
    var r' := Apply(r, a);
    forall p <- r'.pubs | r'.pubs[p].pc.Queueing? || r'.pubs[p].pc.Writing?
      ensures r'.pubs[p].pc.msg.session in among && RoomOf(r'.pubs[p].pc.msg.session) == RoomOf(s)
    {
      if Actor(a) != Some(Publisher(p)) { PubFrame(r, a, p); }
    }
  }

  lemma {:induction false} PlayKeepsOwnMessages<M>(among: set<Session>, moves: seq<Move<M>>)
    requires Playable(among, moves)
    ensures forall name <- Play(among, moves) :: OwnMessages(among, name, Play(among, moves)[name])
    decreases |moves|
  {
    if moves != [] {
      var n := |moves| - 1;
      PlayKeepsOwnMessages(among, moves[..n]);
      MakeKeepsOwnMessages(Play(among, moves[..n]), among, moves[n]);
    }
  }

  lemma MakeKeepsOwnMessages<M>(w: World<M>, among: set<Session>, v: Move<M>)
    requires Allowed(w, among, v) && forall name <- w :: OwnMessages(among, name, w[name])
    ensures forall name <- Make(w, among, v) :: OwnMessages(among, name, Make(w, among, v)[name])
  {
    OwnMessagesStep(among, RoomIn(w, RoomOf(v.session)), v.session, v.action);
  }

  // ----- every room runs alone -----

  /** The broker steps taken in one room. */
  function ActionsIn<M>(moves: seq<Move<M>>, name: string): seq<Action<Tagged<M>>> {
    if moves == [] then []
    else
      var v := moves[|moves| - 1];
      ActionsIn(moves[..|moves| - 1], name) + (if RoomOf(v.session) == name then [v.action] else [])
  }

  /** The broker steps of one session's own tasks. */
  function ActionsOf<M>(moves: seq<Move<M>>, s: Session): seq<Action<Tagged<M>>> {
    if moves == [] then []
    else
      var v := moves[|moves| - 1];
      ActionsOf(moves[..|moves| - 1], s) + (if v.session == s then [v.action] else [])
  }

  /** Whatever happens in the other rooms, a room is in the state that the steps taken in it
      alone lead to.  So what is proved of a single room holds of each room of a broker. */
  lemma {:induction false} RoomRunsAlone<M>(among: set<Session>, moves: seq<Move<M>>, name: string)
    requires Playable(among, moves)
    ensures Legal(Empty(), ActionsIn(moves, name))
    ensures Exec(Empty(), ActionsIn(moves, name)) == RoomIn(Play(among, moves), name)
    decreases |moves|
  {
    if moves != [] {
      var n := |moves| - 1;
      RoomRunsAlone(among, moves[..n], name);
      if RoomOf(moves[n].session) == name {
        var acts := Then(Empty(), ActionsIn(moves[..n], name), moves[n].action);
      } else {
        assert ActionsIn(moves, name) == ActionsIn(moves[..n], name);
      }
    }
  }

  /** A session that no other collides with runs as if it had the broker to itself. */
  lemma SessionRunsAlone<M>(among: set<Session>, moves: seq<Move<M>>, s: Session)
    requires Playable(among, moves) && s in among
    requires forall t <- among :: t.instance < U16_SIZE && (t != s ==> !Collide(s, t))
    ensures Legal(Empty(), ActionsOf(moves, s))
    ensures Exec(Empty(), ActionsOf(moves, s)) == RoomIn(Play(among, moves), RoomOf(s))
  {
    RoomRunsAlone(among, moves, RoomOf(s));
    OwnRoomOwnActions(among, moves, s);
  }

  lemma {:induction false} OwnRoomOwnActions<M>(among: set<Session>, moves: seq<Move<M>>, s: Session)
    requires Playable(among, moves) && s in among
    requires forall t <- among :: t.instance < U16_SIZE && (t != s ==> !Collide(s, t))
    ensures ActionsIn(moves, RoomOf(s)) == ActionsOf(moves, s)
    decreases |moves|
  {
    if moves != [] {
      var n := |moves| - 1;
      OwnRoomOwnActions(among, moves[..n], s);
      SameRoomIff(s, moves[n].session);
    }
  }

  // ----- isolation -----

  /** Every item yielded in the session's room was sent by the session. */
  ghost predicate ReadsOwn<M>(w: World<M>, s: Session) {
    RoomOf(s) in w ==>
      forall t <- w[RoomOf(s)].subs, k: nat :: k < |w[RoomOf(s)].subs[t].seen| ==>
        w[RoomOf(s)].subs[t].seen[k].1.session == s
  }

  ghost predicate Isolated<M(!new)>(among: set<Session>, s: Session) {
    forall w: World<M> :: Happens(among, w) ==> ReadsOwn(w, s)
  }

  lemma SeenIsOwn<M(!new)>(among: set<Session>, s: Session, w: World<M>, t: nat, k: nat)
    requires Happens(among, w) && RoomOf(s) in w
    requires t in w[RoomOf(s)].subs && k < |w[RoomOf(s)].subs[t].seen|
    ensures var m := w[RoomOf(s)].subs[t].seen[k].1;
            m.session in among && RoomOf(m.session) == RoomOf(s)
  {
    var moves: seq<Move<M>> :| Playable(among, moves) && Play(among, moves) == w;
    PlayKeepsOwnMessages(among, moves);
    var r := w[RoomOf(s)];
    assert ItemOk(r.log, r.subs[t], k);
  }

  /** Among any sessions, a session is isolated if and only if no other one has the same instance
      id and a congruent call number: neither a later call of its own signer nor a call, say the
      first, of another signer that has drawn the same instance id. */
  lemma IsolationIsExact<M(!new)>(among: set<Session>, s: Session, payload: M)
    requires s in among && forall t <- among :: t.instance < U16_SIZE
    ensures Isolated<M>(among, s) <==> forall t <- among :: t != s ==> !Collide(s, t)
  {
    if forall t <- among :: t != s ==> !Collide(s, t) {
      forall w: World<M> | Happens(among, w) ensures ReadsOwn(w, s) {
        if RoomOf(s) in w {
          forall t <- w[RoomOf(s)].subs, k: nat | k < |w[RoomOf(s)].subs[t].seen|
            ensures w[RoomOf(s)].subs[t].seen[k].1.session == s
          {
            SeenIsOwn(among, s, w, t, k);
            SameRoomIff(s, w[RoomOf(s)].subs[t].seen[k].1.session);
          }
        }
      }
    } else {
      var t :| t in among && t != s && Collide(s, t);
      var w := CollisionIsSeen(among, s, t, payload);
      assert w[RoomOf(s)].subs[0].seen[0].1.session == t;
      assert !ReadsOwn(w, s);
    }
  }

  /** Two signers that have drawn the same instance id are in each other's rooms from their
      first call on. */
  lemma TwinSigners<M(!new)>(a: nat, b: nat, instance: nat, payload: M)
    requires a != b && instance < U16_SIZE
    ensures var s, t := Session(a, instance, 0), Session(b, instance, 0);
            !Isolated<M>({s, t}, s) && !Isolated<M>({s, t}, t)
  {
    var s, t := Session(a, instance, 0), Session(b, instance, 0);
    IsolationIsExact({s, t}, s, payload);
    IsolationIsExact({s, t}, t, payload);
    assert Collide(s, t) && Collide(t, s);
  }

  /** A room outlives its session: a session that gets a used room reads the old messages. */
  lemma CollisionIsSeen<M(!new)>(among: set<Session>, s: Session, t: Session, payload: M)
    returns (w: World<M>)
    requires s in among && t in among && s.instance < U16_SIZE && t.instance < U16_SIZE
    requires t != s && Collide(s, t)
    ensures Happens(among, w) && RoomOf(s) in w && 0 in w[RoomOf(s)].subs
    ensures w[RoomOf(s)].subs[0].seen == [(0, Tagged(t, payload))]
  {
    SameRoomIff(s, t);
    var acts := PublishAlone(Empty(), 0, Tagged(t, payload));
    var used := Exec(Empty(), acts);
    var moves := PlayInRoom(among, [], t, acts);
    var reading := JoinAndRead(used, 0, None);
    moves := PlayInRoom(among, moves, s, reading);
    w := Play(among, moves);
    assert Happens(among, w);
  }

  /** A legal run of one room, taken by one session after the moves made so far. */
  lemma {:induction false} PlayInRoom<M>(
    among: set<Session>, before: seq<Move<M>>, s: Session, acts: seq<Action<Tagged<M>>>)
    returns (moves: seq<Move<M>>)
    requires Playable(among, before) && s in among
    requires Legal(RoomIn(Play(among, before), RoomOf(s)), acts)
    requires forall a <- acts :: a.Begin? ==> a.m.session == s
    ensures Playable(among, moves)
    ensures RoomIn(Play(among, moves), RoomOf(s))
         == Exec(RoomIn(Play(among, before), RoomOf(s)), acts)
    ensures acts != [] || RoomOf(s) in Play(among, before) ==> RoomOf(s) in Play(among, moves)
    decreases |acts|
  {
    moves := before;
    if acts != [] {
      assert acts[0] in acts && forall a <- acts[1..] :: a in acts;
      var next := before + [Move(s, acts[0])];
      assert next[..|before|] == before;
      moves := PlayInRoom(among, next, s, acts[1..]);
    }
  }
}
