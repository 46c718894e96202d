/** The signing room: parties 0 and 1 (participant/src/signing.rs fixes `[0, 1]`).  Each
    addresses everybody or the other one.  The shared, broadcast-only room then refines two
    FIFO channels, and under a fair schedule the channels are reliable. */
module FifoPair {
  import opened Common
  import opened Broker
  import opened BrokerSafety
  import opened BrokerLiveness
  import opened Transport

  // ----- the specification: one directed channel -----

  /** `accepted` is what the sender has handed over, `delivered` what the receiver got. */
  datatype Channel<B> = Channel(accepted: seq<Incoming<B>>, delivered: seq<Incoming<B>>)

  /** The sender hands over one more message. */
  predicate Accepting<B(==)>(c: Channel<B>, c': Channel<B>, it: Incoming<B>) {
    c' == Channel(c.accepted + [it], c.delivered)
  }

  /** The sender takes back its latest message, which the receiver has not got. */
  predicate Withdrawing<B(==)>(c: Channel<B>, c': Channel<B>) {
    && |c.delivered| < |c.accepted|
    && c' == Channel(c.accepted[..|c.accepted| - 1], c.delivered)
  }

  /** The receiver gets the oldest message it has not got yet. */
  predicate Delivering<B(==)>(c: Channel<B>, c': Channel<B>) {
    && |c.delivered| < |c.accepted|
    && c' == Channel(c.accepted, c.delivered + [c.accepted[|c.delivered|]])
  }

  // ----- the room as a channel -----

  function ClassifyAll<B>(ms: seq<Msg<B>>): (its: seq<Incoming<B>>)
    ensures |its| == |ms|
    ensures forall k :: 0 <= k < |ms| ==> its[k] == Classify(ms[k])
  {
    seq(|ms|, k requires 0 <= k < |ms| => Classify(ms[k]))
  }

  function ChannelFrom<B>(r: Room<Msg<B>>, i: nat): Channel<B>
    requires i < 2
  {
    Channel(ClassifyAll(SentBy(r, i)), Received(r, 1 - i))
  }

  predicate PairAction<B>(a: Action<Msg<B>>) {
    && TransportAction(a)
    && (a.Begin? ==> a.p < 2 && (a.m.receiver == None || a.m.receiver == Some(1 - a.p)))
  }

  /** Whatever the room's tasks do is allowed, except that a party's sink is given messages for all
      or for the other party only, and that subscriptions are made without a header. */
  lemma PairActionIff<B(!new)>(a: Action<Msg<B>>)
    ensures PairAction(a)
       <==> && (a.Subscribe? ==> a.last == None)
            && (a.Begin? ==> a.p < 2 && exists out: Outgoing<B> ::
                  a.m == Stamp(a.p, out) && (out.recipient == AllParties || out.recipient == OneParty(1 - a.p)))
  {
    if a.Begin? {
      var to := match a.m.receiver case None => AllParties case Some(p) => OneParty(p);
      assert a.m.sender == a.p ==> Stamp(a.p, Outgoing(to, a.m.body)) == a.m;
    }
  }

  ghost predicate PairRun<B(!new)>(acts: seq<Action<Msg<B>>>, r: Room<Msg<B>>) {
    TransportRun(acts, r) && forall a <- acts :: PairAction(a)
  }

  /** A room in which only parties 0 and 1 publish, to all or to each other. */
  ghost predicate SigningRoom<B(!new)>(r: Room<Msg<B>>) {
    exists acts :: PairRun(acts, r)
  }

  ghost predicate AddressedOk<B>(r: Room<Msg<B>>) {
    && (forall p <- r.pubs :: p < 2 && forall m <- r.pubs[p].sent :: Addressed(p, m))
    && (forall p <- r.pubs :: r.pubs[p].pc.Queueing? || r.pubs[p].pc.Writing?
          ==> Addressed(p, r.pubs[p].pc.msg))
    && (forall m <- r.log :: m.sender < 2 && Addressed(m.sender, m))
  }

  predicate Addressed<B>(p: nat, m: Msg<B>) {
    m.sender == p && p < 2 && (m.receiver == None || m.receiver == Some(1 - p))
  }

  lemma AddressedStep<B>(r: Room<Msg<B>>, a: Action<Msg<B>>)
    requires AddressedOk(r) && Enabled(r, a) && PairAction(a)
    ensures AddressedOk(Apply(r, a))
  {
    LogFrame(r, a);
    var r' := Apply(r, a);
    forall p <- r'.pubs
      ensures p < 2 && forall m <- r'.pubs[p].sent :: Addressed(p, m)
      ensures r'.pubs[p].pc.Queueing? || r'.pubs[p].pc.Writing? ==> Addressed(p, r'.pubs[p].pc.msg)
    {
      if Actor(a) != Some(Publisher(p)) { PubFrame(r, a, p); }
    }
  }

  lemma {:induction false} RunKeepsAddressed<B>(r: Room<Msg<B>>, acts: seq<Action<Msg<B>>>)
    requires AddressedOk(r) && Legal(r, acts) && forall a <- acts :: PairAction(a)
    ensures AddressedOk(Exec(r, acts))
    decreases |acts|
  {
    if acts != [] {
      assert acts[0] in acts && forall a <- acts[1..] :: a in acts;
      AddressedStep(r, acts[0]);
      RunKeepsAddressed(Apply(r, acts[0]), acts[1..]);
    }
  }

  lemma SigningRoomFacts<B(!new)>(r: Room<Msg<B>>)
    requires SigningRoom(r)
    ensures InUse(r) && AddressedOk(r)
  {
    var acts :| PairRun(acts, r);
    RunKeepsAddressed(Empty(), acts);
    assert TransportRun(acts, r);
  }

  lemma SigningIsInUse<B(!new)>(r: Room<Msg<B>>)
    requires SigningRoom(r)
    ensures InUse(r)
  {
    SigningRoomFacts(r);
  }

  /** In a signing room a party's inbox is the other party's entries, all of them. */
  lemma {:induction false} InboxIsPeerStream<B>(i: nat, log: seq<Msg<B>>, authors: seq<nat>)
    requires i < 2 && |log| == |authors|
    requires forall k :: 0 <= k < |log| ==> log[k].sender == authors[k] < 2 && Addressed(authors[k], log[k])
    ensures Inbox(1 - i, log) == ClassifyAll(By(log, authors, i))
  {
    if log != [] {
      var n := |log| - 1;
      InboxIsPeerStream(i, log[..n], authors[..n]);
      assert Addressed(authors[n], log[n]);
    }
  }

  /** What party `1 - i` has received is an initial stretch of what `i` has sent. */
  lemma DeliveredPrefix<B(!new)>(r: Room<Msg<B>>, i: nat) returns (n: nat)
    requires SigningRoom(r) && |r.log| < U16_SIZE && i < 2
    ensures n <= |SentBy(r, i)|
    ensures Received(r, 1 - i) == ClassifyAll(SentBy(r, i)[..n])
    ensures |r.authors| == |r.log|
    ensures 1 - i in r.subs ==>
      |r.subs[1 - i].seen| <= |r.log| &&
      n == |By(r.log[..|r.subs[1 - i].seen|], r.authors[..|r.subs[1 - i].seen|], i)|
  {
    SigningIsInUse(r);
    var c := 0;
    if 1 - i in r.subs {
      SeenIsLogPrefix(r, 1 - i);
      c := |r.subs[1 - i].seen|;
    }
    n := LoggedPrefix(r, i, c);
    PeerEntries(r, i, c);
  }

  lemma PeerEntries<B(!new)>(r: Room<Msg<B>>, i: nat, c: nat)
    requires SigningRoom(r) && i < 2 && c <= |r.log|
    ensures |r.authors| == |r.log|
    ensures Inbox(1 - i, r.log[..c]) == ClassifyAll(By(r.log[..c], r.authors[..c], i))
  {
    SigningRoomFacts(r);
    Stamped(r);
    forall k | 0 <= k < c ensures r.log[k].sender == r.authors[k] < 2 && Addressed(r.authors[k], r.log[k]) {
      assert r.log[k] in r.log;
    }
    InboxIsPeerStream(i, r.log[..c], r.authors[..c]);
  }

  // ----- safety: every step of the room is a step of the channel -----

  lemma StartsEmpty<B>(i: nat)
    requires i < 2
    ensures ChannelFrom(Empty<Msg<B>>(), i) == Channel([], [])
  {
  }

  /** What one step of the room is for the channel from `i`. */
  predicate ChannelStep<B(==)>(
    r: Room<Msg<B>>, a: Action<Msg<B>>, i: nat, c: Channel<B>, c': Channel<B>)
    requires i < 2 && Enabled(r, a)
  {
    match a
    case Begin(p, m) => if p == i then Accepting(c, c', Classify(m)) else c' == c
    case Abandon(p) => if p == i then Withdrawing(c, c') else c' == c
    case Deliver(s) =>
      if s == 1 - i && r.log[r.subs[s].cursor].sender == i then Delivering(c, c') else c' == c
    case _ => c' == c
  }

  /** Refinement: whoever joined first, in each direction of a signing room handing over a
      message accepts that message, cancelling the call withdraws it, reading an entry of the
      sender delivers the oldest undelivered message, and no other step changes anything.  So
      nothing is lost, repeated, reordered or echoed. */
  lemma RoomRefinesFifo<B(!new)>(r: Room<Msg<B>>, a: Action<Msg<B>>, i: nat)
    requires SigningRoom(r) && |r.log| < U16_SIZE
    requires Enabled(r, a) && PairAction(a) && i < 2
    ensures ChannelStep(r, a, i, ChannelFrom(r, i), ChannelFrom(Apply(r, a), i))
  {
    if a == Deliver(1 - i) { DeliverRefines(r, i); }
    else if a.Begin? && a.p == i { BeginAccepts(r, i, a.m); }
    else if a == Abandon(i) { AbandonWithdraws(r, i); }
    else { OthersKeepChannel(r, a, i); }
  }

  lemma OthersKeepChannel<B>(r: Room<Msg<B>>, a: Action<Msg<B>>, i: nat)
    requires i < 2 && Enabled(r, a) && a != Deliver(1 - i)
    requires !(a.Begin? && a.p == i) && a != Abandon(i)
    ensures ChannelFrom(Apply(r, a), i) == ChannelFrom(r, i)
  {
    ReceivedFrame(r, a, 1 - i);
    SentFrame(r, a, i);
  }

  lemma BeginAccepts<B>(r: Room<Msg<B>>, i: nat, m: Msg<B>)
    requires i < 2 && Enabled(r, Begin(i, m))
    ensures Accepting(ChannelFrom(r, i), ChannelFrom(Apply(r, Begin(i, m)), i), Classify(m))
  {
    ReceivedFrame(r, Begin(i, m), 1 - i);
    SentFrame(r, Begin(i, m), i);
    AppendClassified(SentBy(r, i), m);
  }

  lemma AbandonWithdraws<B(!new)>(r: Room<Msg<B>>, i: nat)
    requires SigningRoom(r) && |r.log| < U16_SIZE && i < 2 && Enabled(r, Abandon(i))
    ensures Withdrawing(ChannelFrom(r, i), ChannelFrom(Apply(r, Abandon(i)), i))
  {
    ReceivedFrame(r, Abandon(i), 1 - i);
    SentFrame(r, Abandon(i), i);
    SigningRoomStep(r, Abandon(i));
    LogFrame(r, Abandon(i));
    var n := DeliveredPrefix(Apply(r, Abandon(i)), i);
    PendingMessage(r, i);
    var sent := SentBy(r, i);
    assert sent == sent[..|sent| - 1] + [sent[|sent| - 1]];
    AppendClassified(sent[..|sent| - 1], sent[|sent| - 1]);
  }

  /** A message on its way is the last one sent. */
  lemma PendingMessage<B(!new)>(r: Room<Msg<B>>, i: nat)
    requires SigningRoom(r) && i in r.pubs && r.pubs[i].pc.Queueing?
    ensures SentBy(r, i) != []
  {
    SigningIsInUse(r);
    InUseFacts(r);
    assert PublisherOk(r.log, r.authors, i, r.pubs[i]);
  }

  lemma SigningRoomStep<B(!new)>(r: Room<Msg<B>>, a: Action<Msg<B>>)
    requires SigningRoom(r) && Enabled(r, a) && PairAction(a)
    ensures SigningRoom(Apply(r, a))
  {
    var acts :| PairRun(acts, r);
    var next := Then(Empty(), acts, a);
    assert PairRun(next, Apply(r, a));
  }

  lemma AppendClassified<B>(ms: seq<Msg<B>>, m: Msg<B>)
    ensures ClassifyAll(ms + [m]) == ClassifyAll(ms) + [Classify(m)]
  {
  }

  lemma ReceivedFrame<B>(r: Room<Msg<B>>, a: Action<Msg<B>>, j: nat)
    requires Enabled(r, a) && a != Deliver(j)
    ensures Received(Apply(r, a), j) == Received(r, j)
  {
    if Actor(a) != Some(Subscriber(j)) { SubFrame(r, a, j); }
  }

  lemma SentFrame<B>(r: Room<Msg<B>>, a: Action<Msg<B>>, i: nat)
    requires Enabled(r, a)
    ensures SentBy(Apply(r, a), i)
         == if a.Begin? && a.p == i then SentBy(r, i) + [a.m]
            else if a == Abandon(i) then Published(r.pubs[i])
            else SentBy(r, i)
  {
  }

  /** A delivery hands over exactly the next message of the sender, or none of its messages. */
  lemma DeliverRefines<B(!new)>(r: Room<Msg<B>>, i: nat)
    requires SigningRoom(r) && |r.log| < U16_SIZE && i < 2 && Enabled(r, Deliver(1 - i))
    ensures var c, c' := ChannelFrom(r, i), ChannelFrom(Apply(r, Deliver(1 - i)), i);
            if r.log[r.subs[1 - i].cursor].sender == i then Delivering(c, c') else c' == c
  {
    var n := NextEntry(r, i);
    ReadingDelivers(r, i, n);
  }

  lemma ReadingDelivers<B>(r: Room<Msg<B>>, i: nat, n: nat)
    requires i < 2 && Enabled(r, Deliver(1 - i)) && IsNextEntry(r, i, n)
    ensures var c, c' := ChannelFrom(r, i), ChannelFrom(Apply(r, Deliver(1 - i)), i);
            if r.log[r.subs[1 - i].cursor].sender == i then Delivering(c, c') else c' == c
  {
    var m := r.log[r.subs[1 - i].cursor];
    var got := DeliverReceives(r, 1 - i, i);
    NextDelivered(SentBy(r, i), n, Received(r, 1 - i), got, i, m);
  }

  /** What the channel makes of one more entry that was read. */
  lemma NextDelivered<B>(
    sent: seq<Msg<B>>, n: nat, received: seq<Incoming<B>>, received': seq<Incoming<B>>, i: nat, m: Msg<B>)
    requires n <= |sent| && received == ClassifyAll(sent[..n])
    requires m.sender == i ==> n < |sent| && sent[n] == m && received' == received + [Classify(m)]
    requires m.sender != i ==> received' == received
    ensures var c, c' := Channel(ClassifyAll(sent), received), Channel(ClassifyAll(sent), received');
            if m.sender == i then Delivering(c, c') else c' == c
  {
  }

  /** The first `n` messages of `i` are delivered, and the entry at the receiver's cursor is the
      next one, or one of the receiver's own. */
  ghost predicate IsNextEntry<B>(r: Room<Msg<B>>, i: nat, n: nat)
    requires i < 2 && Enabled(r, Deliver(1 - i))
  {
    var m := r.log[r.subs[1 - i].cursor];
    && n <= |SentBy(r, i)| && Received(r, 1 - i) == ClassifyAll(SentBy(r, i)[..n])
    && (m.sender == i ==> Accepts(1 - i, m) && n < |SentBy(r, i)| && SentBy(r, i)[n] == m)
    && (m.sender != i ==> !Accepts(1 - i, m))
  }

  lemma NextEntry<B(!new)>(r: Room<Msg<B>>, i: nat) returns (n: nat)
    requires SigningRoom(r) && |r.log| < U16_SIZE && i < 2 && Enabled(r, Deliver(1 - i))
    ensures IsNextEntry(r, i, n)
  {
    n := DeliveredPrefix(r, i);
    EntryFacts(r, 1 - i);
    var c := |r.subs[1 - i].seen|;
    if r.log[c].sender == i { OldestUndelivered(r, i, c); }
  }

  lemma EntryFacts<B(!new)>(r: Room<Msg<B>>, j: nat)
    requires SigningRoom(r) && |r.log| < U16_SIZE && Enabled(r, Deliver(j))
    ensures r.subs[j].cursor == |r.subs[j].seen| < |r.log|
    ensures var m := r.log[|r.subs[j].seen|]; Addressed(m.sender, m)
  {
    SigningRoomFacts(r);
    SeenIsLogPrefix(r, j);
    assert r.log[|r.subs[j].seen|] in r.log;
  }

  /** An entry of `i` at position `c` is what `i` sent after its entries before `c`. */
  lemma OldestUndelivered<B(!new)>(r: Room<Msg<B>>, i: nat, c: nat)
    requires SigningRoom(r)
    requires c < |r.log| == |r.authors| && r.log[c].sender == i
    ensures var n := |By(r.log[..c], r.authors[..c], i)|;
            n < |SentBy(r, i)| && SentBy(r, i)[n] == r.log[c]
  {
    SigningIsInUse(r);
    AuthorIsSender(r, c);
    var n := LoggedPrefix(r, i, c);
    var n' := LoggedPrefix(r, i, c + 1);
    assert r.log[..c + 1] == r.log[..c] + [r.log[c]] && r.authors[..c + 1] == r.authors[..c] + [r.authors[c]];
    PushAppends(r.log[..c], r.authors[..c], r.authors[c], r.log[c], i);
    assert SentBy(r, i)[..n'][n] == SentBy(r, i)[n];
  }

  lemma AuthorIsSender<B(!new)>(r: Room<Msg<B>>, c: nat)
    requires InUse(r) && c < |r.log| == |r.authors|
    ensures r.log[c].sender == r.authors[c]
  {
    Stamped(r);
  }

  /** What a party has received once one more entry is read; what is sent stays. */
  lemma DeliverReceives<B>(r: Room<Msg<B>>, j: nat, i: nat) returns (got: seq<Incoming<B>>)
    requires Enabled(r, Deliver(j))
    ensures got == Received(Apply(r, Deliver(j)), j)
    ensures Accepts(j, r.log[r.subs[j].cursor]) ==> got == Received(r, j) + [Classify(r.log[r.subs[j].cursor])]
    ensures !Accepts(j, r.log[r.subs[j].cursor]) ==> got == Received(r, j)
    ensures SentBy(Apply(r, Deliver(j)), i) == SentBy(r, i)
  {
    var seen := r.subs[j].seen;
    var item := (r.subs[j].cursor, r.log[r.subs[j].cursor]);
    assert (seen + [item])[..|seen|] == seen;
    InboxAppend(j, Payloads(seen), item.1);
    got := Received(Apply(r, Deliver(j)), j);
  }

  // ----- the width of the cursor -----

  /** In every signing room with at most `n` messages, both parties have received no more and no
      other than a prefix of what the other sent. */
  ghost predicate KeepsFifo<B(!new)>(n: nat) {
    forall r: Room<Msg<B>>, i: nat :: SigningRoom(r) && |r.log| <= n && i < 2 ==>
      IsPrefix(Received(r, 1 - i), ClassifyAll(SentBy(r, i)))
  }

  /** 65,535 messages is the exact limit: with one more a party can read past the end of the
      u16 range and receive the first message again. */
  lemma FifoBoundIsExact<B(!new)>(n: nat, body: B)
    ensures KeepsFifo<B>(n) <==> n < U16_SIZE
  {
    if n < U16_SIZE {
      forall r: Room<Msg<B>>, i: nat | SigningRoom(r) && |r.log| <= n && i < 2
        ensures IsPrefix(Received(r, 1 - i), ClassifyAll(SentBy(r, i)))
      {
        var d := DeliveredPrefix(r, i);
      }
    } else {
      var m := Msg(0, None, body);
      var acts := Overrun(m);
      var r := Exec(Empty(), acts);
      assert forall a <- acts :: OverrunAction(a, m);
      assert PairRun(acts, r);
      AllFromZero(r);
      assert |Received(r, 1 - 0)| > |ClassifyAll(SentBy(r, 0))|;
    }
  }

  /** If party 0 alone publishes, party 1 receives every item its subscription yields. */
  lemma AllFromZero<B(!new)>(r: Room<Msg<B>>)
    requires SigningRoom(r) && r.pubs.Keys == {0} && 1 in r.subs
    ensures |Received(r, 1)| == |r.subs[1].seen|
  {
    SigningIsReachable(r);
    var ms := Payloads(r.subs[1].seen);
    forall k | 0 <= k < |ms| ensures Accepts(1, ms[k]) {
      OrderedDelivery(r, 1, k);
      AcceptedFromZero(r, (r.subs[1].start + k) % U16_SIZE);
    }
    AllAccepted(1, ms);
  }

  lemma AcceptedFromZero<B(!new)>(r: Room<Msg<B>>, e: nat)
    requires SigningRoom(r) && r.pubs.Keys == {0} && e < |r.log|
    ensures Accepts(1, r.log[e])
  {
    SigningRoomFacts(r);
    SigningIsReachable(r);
    LogInterleavesPublishers(r, 0);
    AuthorIsSender(r, e);
    assert r.authors[e] in r.authors && r.log[e] in r.log;
  }

  lemma SigningIsReachable<B(!new)>(r: Room<Msg<B>>)
    requires SigningRoom(r)
    ensures Reachable(r)
  {
    SigningIsInUse(r);
    InUseFacts(r);
  }

  lemma {:induction false} AllAccepted<B>(j: nat, ms: seq<Msg<B>>)
    requires forall k :: 0 <= k < |ms| ==> Accepts(j, ms[k])
    ensures |Inbox(j, ms)| == |ms|
  {
    if ms != [] { AllAccepted(j, ms[..|ms| - 1]); }
  }

  // ----- liveness: under a fair schedule the channels are reliable -----

  ghost predicate SigningRunOf<B>(states: nat -> Room<Msg<B>>, sched: nat -> Action<Msg<B>>) {
    && IsRun(states, sched)
    && forall k: nat :: PairAction(sched(k)) && |states(k).log| < U16_SIZE
  }

  lemma {:induction false} RunIsSigningRoom<B(!new)>(
    states: nat -> Room<Msg<B>>, sched: nat -> Action<Msg<B>>, k: nat)
    returns (acts: seq<Action<Msg<B>>>)
    requires SigningRunOf(states, sched)
    ensures PairRun(acts, states(k)) && SigningRoom(states(k))
  {
    if k == 0 {
      acts := [];
    } else {
      var before := RunIsSigningRoom(states, sched, k - 1);
      assert Enabled(states(k - 1), sched(k - 1)) && PairAction(sched(k - 1));
      assert states(k - 1 + 1) == Apply(states(k - 1), sched(k - 1));
      acts := Then(Empty(), before, sched(k - 1));
    }
    assert PairRun(acts, states(k));
  }

  /** Along a run the log, and what a party that cancels no call has sent, only grow at the end. */
  lemma {:induction false} LogGrows<B>(
    states: nat -> Room<Msg<B>>, sched: nat -> Action<Msg<B>>, k: nat, k': nat)
    requires IsRun(states, sched) && k <= k'
    ensures IsPrefix(states(k).log, states(k').log)
    ensures IsPrefix(states(k).authors, states(k').authors)
    decreases k' - k
  {
    if k < k' {
      LogGrows(states, sched, k, k' - 1);
      var r, a := states(k' - 1), sched(k' - 1);
      assert Enabled(r, a) && states(k' - 1 + 1) == Apply(r, a);
      LogGrowsInStep(r, a);
      PrefixOfPrefix(states(k).log, r.log, states(k').log);
      PrefixOfPrefix(states(k).authors, r.authors, states(k').authors);
    }
  }

  lemma LogGrowsInStep<M>(r: Room<M>, a: Action<M>)
    requires Enabled(r, a)
    ensures IsPrefix(r.log, Apply(r, a).log) && IsPrefix(r.authors, Apply(r, a).authors)
  {
    LogFrame(r, a);
  }

  lemma {:induction false} SentGrows<B>(
    states: nat -> Room<Msg<B>>, sched: nat -> Action<Msg<B>>, i: nat, k: nat, k': nat)
    requires IsRun(states, sched) && k <= k' && Stays(sched, Publisher(i), k)
    ensures IsPrefix(SentBy(states(k), i), SentBy(states(k'), i))
    decreases k' - k
  {
    if k < k' {
      SentGrows(states, sched, i, k, k' - 1);
      var r, a := states(k' - 1), sched(k' - 1);
      assert Enabled(r, a) && states(k' - 1 + 1) == Apply(r, a) && !Leaves(a, Publisher(i));
      SentGrowsInStep(r, a, i);
      PrefixOfPrefix(SentBy(states(k), i), SentBy(r, i), SentBy(states(k'), i));
    }
  }

  lemma PrefixOfPrefix<T>(s: seq<T>, t: seq<T>, u: seq<T>)
    requires IsPrefix(s, t) && IsPrefix(t, u)
    ensures IsPrefix(s, u)
  {
  }

  lemma SentGrowsInStep<B>(r: Room<Msg<B>>, a: Action<Msg<B>>, i: nat)
    requires Enabled(r, a) && a != Abandon(i)
    ensures IsPrefix(SentBy(r, i), SentBy(Apply(r, a), i))
  {
    SentFrame(r, a, i);
  }

  lemma {:induction false} EntryNumber<M>(log: seq<M>, authors: seq<nat>, p: nat, n: nat)
    returns (c: nat)
    requires |log| == |authors| && n < |By(log, authors, p)|
    ensures c < |log| && |By(log[..c + 1], authors[..c + 1], p)| == n + 1
  {
    c := |log| - 1;
    if n < |By(log[..c], authors[..c], p)| {
      var d := EntryNumber(log[..c], authors[..c], p, n);
      assert log[..c][..d + 1] == log[..d + 1] && authors[..c][..d + 1] == authors[..d + 1];
      c := d;
    } else {
      assert log[..c + 1] == log && authors[..c + 1] == authors;
    }
  }

  /** A message that party `i` has handed to its sink gets into the log, unless a call is
      cancelled. */
  lemma EventuallyLogged<B(!new)>(
    states: nat -> Room<Msg<B>>, sched: nat -> Action<Msg<B>>, i: nat, k: nat, n: nat)
    returns (k': nat)
    requires SigningRunOf(states, sched) && Fair(states, sched)
    requires n < |SentBy(states(k), i)| && Stays(sched, Publisher(i), k)
    ensures k <= k' && |states(k').authors| == |states(k').log|
    ensures n < |By(states(k').log, states(k').authors, i)|
  {
    RunInv(states, sched, k);
    assert PublisherOk(states(k).log, states(k).authors, i, states(k).pubs[i]);
    if n < |Published(states(k).pubs[i])| {
      k' := k;
    } else {
      k' := EventuallyServed(states, sched, Publisher(i), k);
      RunInv(states, sched, k');
      assert PublisherOk(states(k').log, states(k').authors, i, states(k').pubs[i]);
    }
  }

  /** Reliability: once party `1 - i` has joined and stays, and party `i` cancels no call, every
      message party `i` has handed to its sink arrives, as the message of that number. */
  lemma EverySentMessageArrives<B(!new)>(
    states: nat -> Room<Msg<B>>, sched: nat -> Action<Msg<B>>, i: nat, k: nat, n: nat)
    returns (j: nat)
    requires SigningRunOf(states, sched) && Fair(states, sched) && i < 2
    requires 1 - i in states(k).subs && states(k).subs[1 - i].pc != Gone
    requires Stays(sched, Subscriber(1 - i), k) && Stays(sched, Publisher(i), k)
    requires n < |SentBy(states(k), i)|
    ensures k <= j && n < |Received(states(j), 1 - i)|
    ensures Received(states(j), 1 - i)[n] == Classify(SentBy(states(k), i)[n])
  {
    var k1 := EventuallyLogged(states, sched, i, k, n);
    var c := EntryNumber(states(k1).log, states(k1).authors, i, n);
    RunIsStable(states, sched, 1 - i, k, k1);
    var acts := RunIsSigningRoom(states, sched, k1);
    SigningRoomFacts(states(k1));
    InUseFacts(states(k1));
    assert |states(k1).log| < U16_SIZE by { assert PairAction(sched(k1)); }
    j := EveryEntryIsRead(states, sched, 1 - i, k1, c);
    ArrivedBy(states, sched, i, k1, c, n, j);
    SentGrows(states, sched, i, k, j);
  }

  /** When the entry holding message `n` has been read, message `n` has been received. */
  lemma ArrivedBy<B(!new)>(
    states: nat -> Room<Msg<B>>, sched: nat -> Action<Msg<B>>, i: nat, k: nat, c: nat, n: nat, j: nat)
    requires SigningRunOf(states, sched) && i < 2 && k <= j
    requires c < |states(k).log| == |states(k).authors|
    requires |By(states(k).log[..c + 1], states(k).authors[..c + 1], i)| == n + 1
    requires 1 - i in states(j).subs && c < |states(j).subs[1 - i].seen|
    ensures n < |Received(states(j), 1 - i)| && n < |SentBy(states(j), i)|
    ensures Received(states(j), 1 - i)[n] == Classify(SentBy(states(j), i)[n])
  {
    var r := states(j);
    var acts := RunIsSigningRoom(states, sched, j);
    assert |r.log| < U16_SIZE by { assert PairAction(sched(j)); }
    var n' := DeliveredPrefix(r, i);
    LogGrows(states, sched, k, j);
    var d := |r.subs[1 - i].seen|;
    ByPrefix(r.log[..d], r.authors[..d], i, c + 1);
    assert r.log[..d][..c + 1] == states(k).log[..c + 1];
    assert r.authors[..d][..c + 1] == states(k).authors[..c + 1];
  }
}
