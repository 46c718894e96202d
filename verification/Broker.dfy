/** The room of the message broker (sse/src/lib.rs) as a small-step transition system.

    Any number of publishers and subscribers share one room.  `messages` sits behind a
    tokio RwLock, which serves its waiters in arrival order; `message_appeared` is a tokio
    Notify.  Every step below is one stretch of the source between two points at which
    another task can run.

    The one fact taken from the library: `notify_waiters` completes every `Notified`
    future that existed when it was called, whether or not that future had been polled.
    tokio does this by counting the calls; a future keeps the count it was created at
    (`ticket`) and is complete as soon as the count has moved on.

    Cursors are u16.  `next_event = event_id + 1` wraps in a release build (and panics in
    a debug build at the same point), so the steps use `Succ16`. */
module Broker {
  import opened Common

  /** Where a subscription stands in `Subscription::next`. */
  datatype SubPc =
    | Ready        // outside `next`
    | Queued       // waiting in `messages.read()`
    | Reading      // holds the read guard, history not examined yet
    | Registered   // holds the read guard, `notified()` has been called
    | Parked       // guard dropped, awaiting the notification
    | Gone         // the subscription was dropped

  datatype Sub<M> = Sub(pc: SubPc, start: nat, cursor: nat, ticket: nat, seen: seq<(nat, M)>)

  /** Where a publisher stands in `Room::publish`. */
  datatype PubPc<M> =
    | Resting            // no call in progress
    | Queueing(msg: M)   // waiting in `messages.write()`
    | Writing(msg: M)    // holds the write guard
    | Pushed             // message appended, waiters not notified yet
    | Notified           // waiters notified, guard still held

  /** `sent` lists, for the proofs only, what this publisher has called `publish` with, without
      the calls that were cancelled. */
  datatype Pub<M> = Pub(pc: PubPc<M>, sent: seq<M>)

  datatype Task = Subscriber(id: nat) | Publisher(id: nat)

  /** `log` is `messages`; `authors` records, for the proofs only, who pushed each entry. */
  datatype Room<M> = Room(
    log: seq<M>, authors: seq<nat>, notifies: nat,
    queue: seq<Task>, readers: set<nat>, writer: Option<nat>,
    subs: map<nat, Sub<M>>, pubs: map<nat, Pub<M>>)

  datatype Action<M> =
    | Idle
    | Subscribe(s: nat, last: Option<nat>)
    | Poll(s: nat)            // `next` is called
    | Grant(t: Task)          // the lock admits the head of its queue
    | Deliver(s: nat)         // an entry is there: advance, release, return it
    | Register(s: nat)        // nothing there: create the Notified future
    | Park(s: nat)            // drop(history), then await
    | Wake(s: nat)            // the notification completes, back to the loop head
    | Drop(s: nat)            // the subscription is dropped, wherever it stands
    | Begin(p: nat, m: M)     // `publish(m)` is called
    | Abandon(p: nat)         // the call is cancelled; it can be at its one await, for the lock
    | Push(p: nat)
    | Notify(p: nat)
    | Release(p: nat)

  const EMPTY_QUEUE: seq<Task> := []

  function Empty<M>(): Room<M> {
    Room([], [], 0, EMPTY_QUEUE, {}, None, map[], map[])
  }

  /** First event a new subscription looks for, given the last one its client has seen. */
  function FirstEvent(last: Option<nat>): nat {
    match last
    case None => 0
    case Some(i) => Succ16(i)
  }

  predicate SubAt<M>(r: Room<M>, s: nat, pc: SubPc) {
    s in r.subs && r.subs[s].pc == pc
  }

  predicate HoldsRead(pc: SubPc) {
    pc == Reading || pc == Registered
  }

  predicate HoldsWrite<M>(pc: PubPc<M>) {
    pc.Writing? || pc.Pushed? || pc.Notified?
  }

  /** The lock admits its oldest waiter only, a writer only when nobody holds the lock. */
  predicate CanGrant<M>(r: Room<M>, t: Task) {
    && r.queue != [] && r.queue[0] == t
    && r.writer == None
    && match t
       case Subscriber(s) => SubAt(r, s, Queued)
       case Publisher(p) => p in r.pubs && r.pubs[p].pc.Queueing? && r.readers == {}
  }

  predicate Enabled<M>(r: Room<M>, a: Action<M>) {
    match a
    case Idle => true
    case Subscribe(s, last) => s !in r.subs && (last.Some? ==> last.value < U16_SIZE)
    case Poll(s) => SubAt(r, s, Ready)
    case Grant(t) => CanGrant(r, t)
    case Deliver(s) => SubAt(r, s, Reading) && r.subs[s].cursor < |r.log|
    case Register(s) => SubAt(r, s, Reading) && |r.log| <= r.subs[s].cursor
    case Park(s) => SubAt(r, s, Registered)
    case Wake(s) => SubAt(r, s, Parked) && r.subs[s].ticket != r.notifies
    case Drop(s) => s in r.subs && r.subs[s].pc != Gone
    case Begin(p, m) => p in r.pubs ==> r.pubs[p].pc.Resting?
    case Abandon(p) => p in r.pubs && r.pubs[p].pc.Queueing?
    case Push(p) => p in r.pubs && r.pubs[p].pc.Writing?
    case Notify(p) => p in r.pubs && r.pubs[p].pc.Pushed?
    case Release(p) => p in r.pubs && r.pubs[p].pc.Notified?
  }

  function Remove(q: seq<Task>, t: Task): (q': seq<Task>)
    ensures |q'| <= |q|
    ensures forall u :: u in q' <==> u in q && u != t
  {
    if q == [] then []
    else if q[0] == t then Remove(q[1..], t)
    else [q[0]] + Remove(q[1..], t)
  }

  function SetSub<M>(r: Room<M>, s: nat, sub: Sub<M>): Room<M> {
    r.(subs := r.subs[s := sub])
  }

  function SetPub<M>(r: Room<M>, p: nat, pub: Pub<M>): Room<M> {
    r.(pubs := r.pubs[p := pub])
  }

  function Apply<M>(r: Room<M>, a: Action<M>): Room<M>
    requires Enabled(r, a)
  {
    match a
    case Idle => r
    case Subscribe(s, last) =>
      SetSub(r, s, Sub(Ready, FirstEvent(last), FirstEvent(last), 0, []))
    case Poll(s) =>
      SetSub(r, s, r.subs[s].(pc := Queued)).(queue := r.queue + [Subscriber(s)])
    case Grant(t) =>
      var r' := r.(queue := r.queue[1..]);
      (match t
       case Subscriber(s) => SetSub(r', s, r.subs[s].(pc := Reading)).(readers := r.readers + {s})
       case Publisher(p) => SetPub(r', p, r.pubs[p].(pc := Writing(r.pubs[p].pc.msg))).(writer := Some(p)))
    case Deliver(s) =>
      var sub := r.subs[s];
      SetSub(r, s, sub.(pc := Ready, cursor := Succ16(sub.cursor),
                        seen := sub.seen + [(sub.cursor, r.log[sub.cursor])]))
      .(readers := r.readers - {s})
    case Register(s) => SetSub(r, s, r.subs[s].(pc := Registered, ticket := r.notifies))
    case Park(s) => SetSub(r, s, r.subs[s].(pc := Parked)).(readers := r.readers - {s})
    case Wake(s) =>
      SetSub(r, s, r.subs[s].(pc := Queued)).(queue := r.queue + [Subscriber(s)])
    case Drop(s) =>
      SetSub(r, s, r.subs[s].(pc := Gone))
      .(readers := r.readers - {s}, queue := Remove(r.queue, Subscriber(s)))
    case Begin(p, m) =>
      var sent := if p in r.pubs then r.pubs[p].sent else [];
      SetPub(r, p, Pub(Queueing(m), sent + [m])).(queue := r.queue + [Publisher(p)])
    case Abandon(p) =>
      SetPub(r, p, Pub(Resting, Published(r.pubs[p]))).(queue := Remove(r.queue, Publisher(p)))
    case Push(p) =>
      SetPub(r, p, r.pubs[p].(pc := Pushed))
      .(log := r.log + [r.pubs[p].pc.msg], authors := r.authors + [p])
    case Notify(p) => SetPub(r, p, r.pubs[p].(pc := Notified)).(notifies := r.notifies + 1)
    case Release(p) => SetPub(r, p, r.pubs[p].(pc := Resting)).(writer := None)
  }

  // ----- runs -----

  /** `acts` can be taken one after the other from `r`. */
  predicate Legal<M>(r: Room<M>, acts: seq<Action<M>>)
    decreases |acts|
  {
    acts == [] || (Enabled(r, acts[0]) && Legal(Apply(r, acts[0]), acts[1..]))
  }

  function Exec<M>(r: Room<M>, acts: seq<Action<M>>): Room<M>
    requires Legal(r, acts)
    decreases |acts|
  {
    if acts == [] then r else Exec(Apply(r, acts[0]), acts[1..])
  }

  // ----- what every step keeps -----

  predicate NoDuplicates(q: seq<Task>) {
    q == [] || (q[0] !in q[1..] && NoDuplicates(q[1..]))
  }

  /** The lock: one writer or any readers, each where the lock says it is; no task waits twice. */
  ghost predicate LockOk<M>(r: Room<M>) {
    HoldersOk(r) && QueueOk(r)
  }

  ghost predicate HoldersOk<M>(r: Room<M>) {
    && (forall s :: s in r.readers <==> s in r.subs && HoldsRead(r.subs[s].pc))
    && (forall p :: r.writer == Some(p) <==> p in r.pubs && HoldsWrite(r.pubs[p].pc))
    && (r.writer.Some? ==> r.readers == {})
  }

  ghost predicate QueueOk<M>(r: Room<M>) {
    && (forall s :: Subscriber(s) in r.queue <==> SubAt(r, s, Queued))
    && (forall p :: Publisher(p) in r.queue <==> p in r.pubs && r.pubs[p].pc.Queueing?)
    && NoDuplicates(r.queue)
  }

  /** A publisher has appended its message and not yet called `notify_waiters`. */
  predicate MidPublish<M>(r: Room<M>) {
    r.writer.Some? && r.writer.value in r.pubs && r.pubs[r.writer.value].pc.Pushed?
  }

  /** No lost wakeup: a parked subscriber whose wake is not pending has nothing to read,
      unless the publisher that holds the lock is about to notify. */
  ghost predicate WakeOk<M>(r: Room<M>, s: nat)
    requires s in r.subs
  {
    var sub := r.subs[s];
    && (sub.pc == Registered ==> sub.ticket == r.notifies && |r.log| <= sub.cursor)
    && (sub.pc == Parked ==>
          && sub.ticket <= r.notifies
          && (sub.ticket == r.notifies ==> |r.log| <= sub.cursor || MidPublish(r)))
  }

  /** The k-th item a subscription yielded is the log entry k places after its start, as
      u16 arithmetic counts places. */
  ghost predicate DeliveryOk<M>(log: seq<M>, sub: Sub<M>) {
    && sub.cursor == (sub.start + |sub.seen|) % U16_SIZE
    && sub.start < U16_SIZE
    && forall k :: 0 <= k < |sub.seen| ==> ItemOk(log, sub, k)
  }

  predicate ItemOk<M(==)>(log: seq<M>, sub: Sub<M>, k: nat)
    requires k < |sub.seen|
  {
    var e := (sub.start + k) % U16_SIZE;
    e < |log| && sub.seen[k] == (e, log[e])
  }

  /** Entries of the log that publisher `p` pushed, in log order. */
  function By<M>(log: seq<M>, authors: seq<nat>, p: nat): seq<M>
    requires |log| == |authors|
  {
    if log == [] then []
    else
      var n := |log| - 1;
      By(log[..n], authors[..n], p) + (if authors[n] == p then [log[n]] else [])
  }

  /** What publisher has already put into the log: all it sent but a message still waiting. */
  function Published<M>(pub: Pub<M>): seq<M> {
    if (pub.pc.Queueing? || pub.pc.Writing?) && pub.sent != []
    then pub.sent[..|pub.sent| - 1] else pub.sent
  }

  /** The log is an interleaving of the publishers' messages: nothing lost, doubled or
      reordered within a publisher. */
  ghost predicate AuthorOk<M>(r: Room<M>) {
    && |r.authors| == |r.log|
    && (forall p <- r.pubs :: PublisherOk(r.log, r.authors, p, r.pubs[p]))
    && (forall p <- r.authors :: p in r.pubs)
  }

  ghost predicate PublisherOk<M>(log: seq<M>, authors: seq<nat>, p: nat, pub: Pub<M>)
    requires |log| == |authors|
  {
    By(log, authors, p) == Published(pub) && PendingIsLast(pub)
  }

  predicate PendingIsLast<M(==)>(pub: Pub<M>) {
    pub.pc.Queueing? || pub.pc.Writing? ==>
      pub.sent != [] && pub.sent[|pub.sent| - 1] == pub.pc.msg
  }

  ghost predicate Inv<M>(r: Room<M>) {
    && LockOk(r)
    && (forall s <- r.subs :: WakeOk(r, s) && DeliveryOk(r.log, r.subs[s]))
    && AuthorOk(r)
  }

  // ----- each step keeps it -----

  /** The task whose own record an action touches. */
  function Actor<M>(a: Action<M>): Option<Task> {
    match a
    case Idle => None
    case Grant(t) => Some(t)
    case Begin(p, _) => Some(Publisher(p))
    case Abandon(p) => Some(Publisher(p))
    case Push(p) => Some(Publisher(p))
    case Notify(p) => Some(Publisher(p))
    case Release(p) => Some(Publisher(p))
    case _ => Some(Subscriber(a.s))
  }

  /** A step touches its actor's record only, and the log only in a push. */
  lemma SubFrame<M>(r: Room<M>, a: Action<M>, s: nat)
    requires Enabled(r, a) && Actor(a) != Some(Subscriber(s))
    ensures s in Apply(r, a).subs <==> s in r.subs
    ensures s in r.subs ==> Apply(r, a).subs[s] == r.subs[s]
  {
  }

  lemma PubFrame<M>(r: Room<M>, a: Action<M>, p: nat)
    requires Enabled(r, a) && Actor(a) != Some(Publisher(p))
    ensures p in Apply(r, a).pubs <==> p in r.pubs
    ensures p in r.pubs ==> Apply(r, a).pubs[p] == r.pubs[p]
  {
  }

  lemma LogFrame<M>(r: Room<M>, a: Action<M>)
    requires Enabled(r, a)
    ensures !a.Push? ==> Apply(r, a).log == r.log && Apply(r, a).authors == r.authors
    ensures a.Push? ==> && Apply(r, a).log == r.log + [r.pubs[a.p].pc.msg]
                        && Apply(r, a).authors == r.authors + [a.p]
  {
  }

  lemma {:induction false} RemoveKeepsDistinct(q: seq<Task>, t: Task)
    requires NoDuplicates(q)
    ensures NoDuplicates(Remove(q, t))
  {
    if q != [] {
      RemoveKeepsDistinct(q[1..], t);
      var rest := Remove(q[1..], t);
      if q[0] != t { assert ([q[0]] + rest)[1..] == rest; }
    }
  }

  lemma {:induction false} AppendKeepsDistinct(q: seq<Task>, t: Task)
    requires NoDuplicates(q) && t !in q
    ensures NoDuplicates(q + [t])
  {
    if q == [] {
      assert (q + [t])[1..] == [];
    } else {
      AppendKeepsDistinct(q[1..], t);
      assert (q + [t])[1..] == q[1..] + [t];
    }
  }

  lemma HoldersStep<M>(r: Room<M>, a: Action<M>)
    requires HoldersOk(r) && Enabled(r, a)
    ensures HoldersOk(Apply(r, a))
  {
  }

  lemma QueueStep<M>(r: Room<M>, a: Action<M>)
    requires QueueOk(r) && Enabled(r, a)
    ensures QueueOk(Apply(r, a))
  {
    QueuedSubsStep(r, a);
    QueuedPubsStep(r, a);
    match a
    case Poll(s) => AppendKeepsDistinct(r.queue, Subscriber(s));
    case Wake(s) => AppendKeepsDistinct(r.queue, Subscriber(s));
    case Begin(p, m) => AppendKeepsDistinct(r.queue, Publisher(p));
    case Drop(s) => RemoveKeepsDistinct(r.queue, Subscriber(s));
    case Abandon(p) => RemoveKeepsDistinct(r.queue, Publisher(p));
    case _ =>
  }

  lemma QueuedSubsStep<M>(r: Room<M>, a: Action<M>)
    requires forall s :: Subscriber(s) in r.queue <==> SubAt(r, s, Queued)
    requires NoDuplicates(r.queue) && Enabled(r, a)
    ensures forall s :: Subscriber(s) in Apply(r, a).queue <==> SubAt(Apply(r, a), s, Queued)
  {
    if a.Grant? { assert r.queue == [a.t] + r.queue[1..]; }
  }

  lemma QueuedPubsStep<M>(r: Room<M>, a: Action<M>)
    requires forall p :: Publisher(p) in r.queue <==> p in r.pubs && r.pubs[p].pc.Queueing?
    requires NoDuplicates(r.queue) && Enabled(r, a)
    ensures forall p :: Publisher(p) in Apply(r, a).queue
              <==> p in Apply(r, a).pubs && Apply(r, a).pubs[p].pc.Queueing?
  {
    if a.Grant? { assert r.queue == [a.t] + r.queue[1..]; }
  }

  lemma WakeStep<M>(r: Room<M>, a: Action<M>)
    requires LockOk(r) && (forall s <- r.subs :: WakeOk(r, s)) && Enabled(r, a)
    ensures forall s <- Apply(r, a).subs :: WakeOk(Apply(r, a), s)
  {
  }

  lemma DeliveryStep<M>(r: Room<M>, a: Action<M>, s: nat)
    requires (s in r.subs ==> DeliveryOk(r.log, r.subs[s])) && Enabled(r, a)
    requires s in Apply(r, a).subs
    ensures DeliveryOk(Apply(r, a).log, Apply(r, a).subs[s])
  {
    LogFrame(r, a);
    if Actor(a) != Some(Subscriber(s)) { SubFrame(r, a, s); }
    if s in r.subs { DeliveryKept(r.log, r.subs[s], Apply(r, a).log, Apply(r, a).subs[s]); }
  }

  lemma DeliveryKept<M>(log: seq<M>, sub: Sub<M>, log': seq<M>, sub': Sub<M>)
    requires DeliveryOk(log, sub) && |log| <= |log'| && log == log'[..|log|]
    requires sub'.start == sub.start
    requires || (sub'.cursor == sub.cursor && sub'.seen == sub.seen)
             || (&& sub.cursor < |log| && sub'.cursor == Succ16(sub.cursor)
                 && sub'.seen == sub.seen + [(sub.cursor, log[sub.cursor])])
    ensures DeliveryOk(log', sub')
  {
    forall k | 0 <= k < |sub'.seen| ensures ItemOk(log', sub', k) {
      if k < |sub.seen| { assert ItemOk(log, sub, k); }
    }
  }

  lemma PublisherStep<M>(r: Room<M>, a: Action<M>, p: nat)
    requires |r.authors| == |r.log| && (p !in r.pubs ==> p !in r.authors)
    requires p in r.pubs ==> PublisherOk(r.log, r.authors, p, r.pubs[p])
    requires Enabled(r, a) && p in Apply(r, a).pubs && |Apply(r, a).log| == |Apply(r, a).authors|
    ensures PublisherOk(Apply(r, a).log, Apply(r, a).authors, p, Apply(r, a).pubs[p])
  {
    LogFrame(r, a);
    var old' := if p in r.pubs then r.pubs[p] else Pub(Resting, []);
    if p !in r.pubs { NotAuthor(r.log, r.authors, p); }
    if Actor(a) != Some(Publisher(p)) { PubFrame(r, a, p); }
    var pushed := if a.Push? && a.p == p then [old'.pc.msg] else [];
    if a.Push? { PushAppends(r.log, r.authors, a.p, r.pubs[a.p].pc.msg, p); }
    PublisherKept(old', By(r.log, r.authors, p), Apply(r, a).pubs[p], pushed);
  }

  /** A publisher's record and its entries change together. */
  lemma PublisherKept<M>(pub: Pub<M>, logged: seq<M>, pub': Pub<M>, pushed: seq<M>)
    requires logged == Published(pub) && PendingIsLast(pub)
    requires
      || (pub' == pub && pushed == [])
      || (pub.pc.Resting? && pub'.pc.Queueing? && pub'.sent == pub.sent + [pub'.pc.msg] && pushed == [])
      || (pub.pc.Queueing? && pub' == pub.(pc := Writing(pub.pc.msg)) && pushed == [])
      || (pub.pc.Queueing? && pub' == Pub(Resting, Published(pub)) && pushed == [])
      || (pub.pc.Writing? && pub' == pub.(pc := Pushed) && pushed == [pub.pc.msg])
      || (pub.pc.Pushed? && pub' == pub.(pc := Notified) && pushed == [])
      || (pub.pc.Notified? && pub' == pub.(pc := Resting) && pushed == [])
    ensures logged + pushed == Published(pub') && PendingIsLast(pub')
  {
    if pub.pc.Writing? { assert pub.sent == pub.sent[..|pub.sent| - 1] + [pub.pc.msg]; }
  }

  lemma AuthorStep<M>(r: Room<M>, a: Action<M>)
    requires AuthorOk(r) && Enabled(r, a)
    ensures AuthorOk(Apply(r, a))
  {
    var r' := Apply(r, a);
    LogFrame(r, a);
    assert |r'.authors| == |r'.log|;
    forall p <- r'.pubs ensures PublisherOk(r'.log, r'.authors, p, r'.pubs[p]) {
      PublisherStep(r, a, p);
    }
    assert r.pubs.Keys <= r'.pubs.Keys;
  }

  lemma PushAppends<M>(log: seq<M>, authors: seq<nat>, author: nat, m: M, p: nat)
    requires |log| == |authors|
    ensures By(log + [m], authors + [author], p)
         == By(log, authors, p) + (if author == p then [m] else [])
  {
    assert (log + [m])[..|log|] == log && (authors + [author])[..|log|] == authors;
  }

  lemma {:induction false} NotAuthor<M>(log: seq<M>, authors: seq<nat>, p: nat)
    requires |log| == |authors| && p !in authors
    ensures By(log, authors, p) == []
  {
    if log != [] { NotAuthor(log[..|log| - 1], authors[..|log| - 1], p); }
  }

  lemma Step<M>(r: Room<M>, a: Action<M>)
    requires Inv(r) && Enabled(r, a)
    ensures Inv(Apply(r, a))
  {
    HoldersStep(r, a);
    QueueStep(r, a);
    WakeStep(r, a);
    forall s <- Apply(r, a).subs ensures DeliveryOk(Apply(r, a).log, Apply(r, a).subs[s]) {
      DeliveryStep(r, a, s);
    }
    AuthorStep(r, a);
  }
}
