/** The participants' transport (participant/src/client.rs): a room that only broadcasts is
    turned into addressed, typed streams by stamping what is sent and filtering what is read.

    JSON encoding is taken as faithful, so a log entry is the message itself.  Party `i`
    publishes as publisher `i` and subscribes as subscription `i`, without a Last-Event-ID. */
module Transport {
  import opened Common
  import opened Broker
  import opened BrokerSafety

  datatype Msg<B> = Msg(sender: nat, receiver: Option<nat>, body: B)

  datatype Destination = AllParties | OneParty(party: nat)
  datatype Outgoing<B> = Outgoing(recipient: Destination, msg: B)

  datatype MessageType = Broadcast | P2P
  datatype Incoming<B> = Incoming(id: nat, sender: nat, msgType: MessageType, msg: B)

  /** The outgoing sink of party `index`. */
  function Stamp<B>(index: nat, out: Outgoing<B>): Msg<B> {
    Msg(index, match out.recipient case AllParties => None case OneParty(p) => Some(p), out.msg)
  }

  /** The address filter of party `index`. */
  predicate Accepts<B>(index: nat, m: Msg<B>) {
    m.sender != index && (m.receiver == None || m.receiver == Some(index))
  }

  function Classify<B>(m: Msg<B>): Incoming<B> {
    Incoming(0, m.sender, if m.receiver == None then Broadcast else P2P, m.body)
  }

  /** What the sink of party `i` sends reaches another party exactly when it was meant for all
      or for it, typed by how it was addressed, and never comes back to `i`. */
  lemma StampedIsRouted<B>(i: nat, j: nat, out: Outgoing<B>)
    ensures Accepts(j, Stamp(i, out))
       <==> j != i && (out.recipient == AllParties || out.recipient == OneParty(j))
    ensures Classify(Stamp(i, out)).sender == i && Classify(Stamp(i, out)).msg == out.msg
    ensures Classify(Stamp(i, out)).id == 0
    ensures Classify(Stamp(i, out)).msgType == Broadcast <==> out.recipient == AllParties
  {
  }

  /** The sink of party `i` can send just the messages that carry its index. */
  lemma SinkSends<B(!new)>(i: nat, m: Msg<B>)
    ensures m.sender == i <==> exists out: Outgoing<B> :: Stamp(i, out) == m
  {
    var to := match m.receiver case None => AllParties case Some(p) => OneParty(p);
    assert m.sender == i ==> Stamp(i, Outgoing(to, m.body)) == m;
  }

  /** The incoming stream of party `index` when the subscription has yielded `ms`. */
  function Inbox<B>(index: nat, ms: seq<Msg<B>>): seq<Incoming<B>> {
    if ms == [] then []
    else
      var m := ms[|ms| - 1];
      Inbox(index, ms[..|ms| - 1]) + (if Accepts(index, m) then [Classify(m)] else [])
  }

  function Payloads<M>(items: seq<(nat, M)>): (ms: seq<M>)
    ensures |ms| == |items|
    ensures forall k :: 0 <= k < |items| ==> ms[k] == items[k].1
  {
    if items == [] then [] else Payloads(items[..|items| - 1]) + [items[|items| - 1].1]
  }

  /** Everything party `j` has received. */
  function Received<B>(r: Room<Msg<B>>, j: nat): seq<Incoming<B>> {
    if j in r.subs then Inbox(j, Payloads(r.subs[j].seen)) else []
  }

  function SentBy<B>(r: Room<Msg<B>>, i: nat): seq<Msg<B>> {
    if i in r.pubs then r.pubs[i].sent else []
  }

  // ----- rooms used by the transport -----

  /** Sinks stamp their own index; subscribers join from the beginning. */
  predicate TransportAction<B>(a: Action<Msg<B>>) {
    && (a.Begin? ==> a.m.sender == a.p)
    && (a.Subscribe? ==> a.last == None)
  }

  ghost predicate TransportRun<B(!new)>(acts: seq<Action<Msg<B>>>, r: Room<Msg<B>>) {
    && Legal(Empty(), acts) && Exec(Empty(), acts) == r
    && forall a <- acts :: TransportAction(a)
  }

  ghost predicate InUse<B(!new)>(r: Room<Msg<B>>) {
    exists acts :: TransportRun(acts, r)
  }

  ghost predicate StampsOk<B>(r: Room<Msg<B>>) {
    && |r.authors| == |r.log|
    && (forall p <- r.pubs :: StampedBy(p, r.pubs[p]))
    && (forall k :: 0 <= k < |r.log| ==> r.log[k].sender == r.authors[k])
    && (forall s <- r.subs :: r.subs[s].start == 0)
  }

  ghost predicate StampedBy<B>(p: nat, pub: Pub<Msg<B>>) {
    && (forall m <- pub.sent :: m.sender == p)
    && (pub.pc.Queueing? || pub.pc.Writing? ==> pub.pc.msg.sender == p)
  }

  lemma StampsStep<B>(r: Room<Msg<B>>, a: Action<Msg<B>>)
    requires StampsOk(r) && Enabled(r, a) && TransportAction(a)
    ensures StampsOk(Apply(r, a))
  {
    LogFrame(r, a);
    var r' := Apply(r, a);
    forall p <- r'.pubs ensures StampedBy(p, r'.pubs[p]) { StampedStep(r, a, p); }
    forall s <- r'.subs ensures r'.subs[s].start == 0 { StartStep(r, a, s); }
  }

  lemma StampedStep<B>(r: Room<Msg<B>>, a: Action<Msg<B>>, p: nat)
    requires (p in r.pubs ==> StampedBy(p, r.pubs[p])) && Enabled(r, a) && TransportAction(a)
    requires p in Apply(r, a).pubs
    ensures StampedBy(p, Apply(r, a).pubs[p])
  {
  }

  lemma StartStep<B>(r: Room<Msg<B>>, a: Action<Msg<B>>, s: nat)
    requires (s in r.subs ==> r.subs[s].start == 0) && Enabled(r, a) && TransportAction(a)
    requires s in Apply(r, a).subs
    ensures Apply(r, a).subs[s].start == 0
  {
  }

  lemma {:induction false} RunKeepsStamps<B>(r: Room<Msg<B>>, acts: seq<Action<Msg<B>>>)
    requires StampsOk(r) && Legal(r, acts) && forall a <- acts :: TransportAction(a)
    ensures StampsOk(Exec(r, acts))
    decreases |acts|
  {
    if acts != [] {
      assert acts[0] in acts && forall a <- acts[1..] :: a in acts;
      StampsStep(r, acts[0]);
      RunKeepsStamps(Apply(r, acts[0]), acts[1..]);
    }
  }

  lemma InUseFacts<B(!new)>(r: Room<Msg<B>>)
    requires InUse(r)
    ensures Reachable(r) && Inv(r) && StampsOk(r)
  {
    var acts :| TransportRun(acts, r);
    RunKeepsStamps(Empty(), acts);
    assert Legal(Empty(), acts) && Exec(Empty(), acts) == r;
    ReachableInv(r);
  }

  lemma Stamped<B(!new)>(r: Room<Msg<B>>)
    requires InUse(r)
    ensures StampsOk(r)
  {
    InUseFacts(r);
  }

  // ----- routing, for any number of parties -----

  function FromSender<B>(items: seq<Incoming<B>>, i: nat): seq<Incoming<B>> {
    if items == [] then []
    else
      var it := items[|items| - 1];
      FromSender(items[..|items| - 1], i) + (if it.sender == i then [it] else [])
  }

  /** Filtering by address and then by sender is reading the sender's entries alone. */
  lemma {:induction false} SenderStream<B>(j: nat, log: seq<Msg<B>>, authors: seq<nat>, i: nat)
    requires |log| == |authors|
    requires forall k :: 0 <= k < |log| ==> log[k].sender == authors[k]
    ensures FromSender(Inbox(j, log), i) == if i == j then [] else Inbox(j, By(log, authors, i))
  {
    if log != [] {
      var n := |log| - 1;
      var m := log[n];
      SenderStream(j, log[..n], authors[..n], i);
      var early, mine := Inbox(j, log[..n]), By(log[..n], authors[..n], i);
      InboxAppend(j, mine, m);
      assert Inbox(j, log) == early + (if Accepts(j, m) then [Classify(m)] else []);
      assert By(log, authors, i) == mine + (if authors[n] == i then [m] else []);
      if authors[n] != i { assert By(log, authors, i) == mine; }
      if Accepts(j, m) { FromSenderAppend(early, Classify(m), i); } else { assert Inbox(j, log) == early; }
    }
  }

  lemma InboxAppend<B>(j: nat, ms: seq<Msg<B>>, m: Msg<B>)
    ensures Inbox(j, ms + [m]) == Inbox(j, ms) + (if Accepts(j, m) then [Classify(m)] else [])
  {
    assert (ms + [m])[..|ms|] == ms;
  }

  lemma FromSenderAppend<B>(items: seq<Incoming<B>>, it: Incoming<B>, i: nat)
    ensures FromSender(items + [it], i) == FromSender(items, i) + (if it.sender == i then [it] else [])
  {
    assert (items + [it])[..|items|] == items;
  }

  lemma {:induction false} ByPrefix<M>(log: seq<M>, authors: seq<nat>, p: nat, c: nat)
    requires |log| == |authors| && c <= |log|
    ensures IsPrefix(By(log[..c], authors[..c], p), By(log, authors, p))
  {
    if c < |log| {
      var n := |log| - 1;
      ByPrefix(log[..n], authors[..n], p, c);
      assert log[..n][..c] == log[..c] && authors[..n][..c] == authors[..c];
    } else {
      assert log[..c] == log && authors[..c] == authors;
    }
  }

  /** A subscription from the beginning has yielded a prefix of the log. */
  lemma SeenIsLogPrefix<B(!new)>(r: Room<Msg<B>>, j: nat)
    requires InUse(r) && |r.log| < U16_SIZE && j in r.subs
    ensures |r.subs[j].seen| <= |r.log|
    ensures Payloads(r.subs[j].seen) == r.log[..|r.subs[j].seen|]
    ensures r.subs[j].cursor == |r.subs[j].seen|
  {
    InUseFacts(r);
    CursorBound(r, j);
    var sub := r.subs[j];
    forall k | 0 <= k < |sub.seen| ensures Payloads(sub.seen)[k] == r.log[k] {
      assert ItemOk(r.log, sub, k);
    }
  }

  /** What party `j` has received from party `i` is the accepted part of an initial stretch
      of what `i` sent, in order; nothing comes back to its sender; and once `j` has read the
      whole log and `i` has no message on its way, nothing is missing. */
  lemma RoutedInOrder<B(!new)>(r: Room<Msg<B>>, i: nat, j: nat) returns (n: nat)
    requires InUse(r) && |r.log| < U16_SIZE && j in r.subs
    ensures i == j ==> FromSender(Received(r, j), i) == []
    ensures n <= |SentBy(r, i)|
    ensures i != j ==> FromSender(Received(r, j), i) == Inbox(j, SentBy(r, i)[..n])
    ensures (|r.subs[j].seen| == |r.log| && (i in r.pubs ==> r.pubs[i].pc.Resting?))
        ==> (n == |SentBy(r, i)|)
  {
    SeenIsLogPrefix(r, j);
    var c := |r.subs[j].seen|;
    n := LoggedPrefix(r, i, c);
    Stamped(r);
    assert forall k :: 0 <= k < c ==> r.log[..c][k].sender == r.authors[..c][k];
    SenderStream(j, r.log[..c], r.authors[..c], i);
  }

  /** The first `c` log entries hold an initial stretch of what publisher `i` sent. */
  lemma LoggedPrefix<B(!new)>(r: Room<Msg<B>>, i: nat, c: nat) returns (n: nat)
    requires InUse(r) && c <= |r.log|
    ensures |r.authors| == |r.log| && n <= |SentBy(r, i)|
    ensures By(r.log[..c], r.authors[..c], i) == SentBy(r, i)[..n]
    ensures c == |r.log| && (i in r.pubs ==> r.pubs[i].pc.Resting?) ==> n == |SentBy(r, i)|
  {
    InUseFacts(r);
    ByPrefix(r.log, r.authors, i, c);
    n := |By(r.log[..c], r.authors[..c], i)|;
    if i in r.pubs { LogInterleavesPublishers(r, i); } else { NotAuthor(r.log, r.authors, i); }
    if c == |r.log| { assert r.log[..c] == r.log && r.authors[..c] == r.authors; }
  }

  // ----- conservation, for parties 0 .. n - 1 -----

  /** How many of `n` parties a message is meant for: all but the sender, or the addressee,
      or nobody when the addressee is the sender or no party at all. */
  function FanOut<B>(n: nat, m: Msg<B>): nat {
    match m.receiver
    case None => if m.sender < n then n - 1 else n
    case Some(p) => if p < n && p != m.sender then 1 else 0
  }

  function TotalFanOut<B>(n: nat, ms: seq<Msg<B>>): nat {
    if ms == [] then 0 else TotalFanOut(n, ms[..|ms| - 1]) + FanOut(n, ms[|ms| - 1])
  }

  /** Sizes of the inboxes of parties 0 .. n - 1 when each has read `ms`. */
  function TotalInboxes<B>(n: nat, ms: seq<Msg<B>>): nat {
    if n == 0 then 0 else TotalInboxes(n - 1, ms) + |Inbox(n - 1, ms)|
  }

  lemma {:induction false} InboxesConserve<B>(n: nat, ms: seq<Msg<B>>)
    ensures TotalInboxes(n, ms) == TotalFanOut(n, ms)
  {
    if ms == [] {
      EmptyInboxes<B>(n);
    } else {
      InboxesConserve(n, ms[..|ms| - 1]);
      OneMoreMessage(n, ms);
    }
  }

  lemma {:induction false} EmptyInboxes<B>(n: nat)
    ensures TotalInboxes<B>(n, []) == 0
  {
    if n > 0 { EmptyInboxes<B>(n - 1); }
  }

  lemma {:induction false} OneMoreMessage<B>(n: nat, ms: seq<Msg<B>>)
    requires ms != []
    ensures TotalInboxes(n, ms) == TotalInboxes(n, ms[..|ms| - 1]) + FanOut(n, ms[|ms| - 1])
  {
    if n > 0 { OneMoreMessage(n - 1, ms); }
  }

  /** Where in `ms` the entries of party `j`'s inbox come from. */
  function Positions<B>(j: nat, ms: seq<Msg<B>>): seq<nat> {
    if ms == [] then []
    else
      var k := |ms| - 1;
      Positions(j, ms[..k]) + (if Accepts(j, ms[k]) then [k] else [])
  }

  /** An inbox picks the accepted entries, each once and in order. */
  lemma {:induction false} InboxPicksAccepted<B>(j: nat, ms: seq<Msg<B>>)
    ensures var at := Positions(j, ms);
            && |at| == |Inbox(j, ms)|
            && (forall x :: 0 <= x < |at| ==> at[x] < |ms| && Inbox(j, ms)[x] == Classify(ms[at[x]]))
            && (forall x, y :: 0 <= x < y < |at| ==> at[x] < at[y])
            && (forall k :: 0 <= k < |ms| ==> (k in at <==> Accepts(j, ms[k])))
  {
    if ms != [] { InboxPicksAccepted(j, ms[..|ms| - 1]); }
  }

  /** How many of the parties 0 .. n - 1 satisfy `p`. */
  function CountIf(n: nat, p: nat -> bool): nat {
    if n == 0 then 0 else CountIf(n - 1, p) + (if p(n - 1) then 1 else 0)
  }

  /** How many of the parties 0 .. n - 1 have entry `k` in their inboxes. */
  function Recipients<B>(n: nat, ms: seq<Msg<B>>, k: nat): nat {
    CountIf(n, (j: nat) => k in Positions(j, ms))
  }

  lemma RecipientsAreFanOut<B>(n: nat, ms: seq<Msg<B>>, k: nat)
    requires k < |ms|
    ensures Recipients(n, ms, k) == FanOut(n, ms[k])
  {
    var has, accepts := (j: nat) => k in Positions(j, ms), (j: nat) => Accepts(j, ms[k]);
    forall j: nat | j < n ensures has(j) == accepts(j) { InboxPicksAccepted(j, ms); }
    CountsAgree(n, has, accepts);
    AcceptingIsFanOut(n, ms[k], accepts);
  }

  lemma {:induction false} CountsAgree(n: nat, p: nat -> bool, q: nat -> bool)
    requires forall j: nat :: j < n ==> p(j) == q(j)
    ensures CountIf(n, p) == CountIf(n, q)
  {
    if n > 0 { CountsAgree(n - 1, p, q); }
  }

  lemma {:induction false} AcceptingIsFanOut<B>(n: nat, m: Msg<B>, accepts: nat -> bool)
    requires forall j: nat :: j < n ==> accepts(j) == Accepts(j, m)
    ensures CountIf(n, accepts) == FanOut(n, m)
  {
    if n > 0 { AcceptingIsFanOut(n - 1, m, accepts); }
  }

  /** Parties 0 .. n - 1 have joined and read the whole log. */
  ghost predicate AllHaveRead<B>(r: Room<Msg<B>>, n: nat) {
    forall j :: 0 <= j < n ==> j in r.subs && |r.subs[j].seen| == |r.log|
  }

  function TotalReceived<B>(r: Room<Msg<B>>, n: nat): nat {
    if n == 0 then 0 else TotalReceived(r, n - 1) + |Received(r, n - 1)|
  }

  /** Conservation: when parties 0 .. n - 1 have read the log, what each has received is its
      inbox of the log, every entry is in as many inboxes as it is meant for, and together they
      have received as many messages as were addressed. */
  lemma RoutingConserves<B(!new)>(r: Room<Msg<B>>, n: nat)
    requires InUse(r) && |r.log| < U16_SIZE && AllHaveRead(r, n)
    ensures forall j :: 0 <= j < n ==> Received(r, j) == Inbox(j, r.log)
    ensures forall k :: 0 <= k < |r.log| ==> Recipients(n, r.log, k) == FanOut(n, r.log[k])
    ensures TotalReceived(r, n) == TotalFanOut(n, r.log)
  {
    forall j | 0 <= j < n ensures Received(r, j) == Inbox(j, r.log) {
      SeenIsLogPrefix(r, j);
      assert r.log[..|r.log|] == r.log;
    }
    forall k | 0 <= k < |r.log| ensures Recipients(n, r.log, k) == FanOut(n, r.log[k]) {
      RecipientsAreFanOut(n, r.log, k);
    }
    InboxesConserve(n, r.log);
    TotalsAgree(r, n);
  }

  lemma {:induction false} TotalsAgree<B>(r: Room<Msg<B>>, n: nat)
    requires forall j :: 0 <= j < n ==> Received(r, j) == Inbox(j, r.log)
    ensures TotalReceived(r, n) == TotalInboxes(n, r.log)
  {
    if n > 0 { TotalsAgree(r, n - 1); }
  }
}
