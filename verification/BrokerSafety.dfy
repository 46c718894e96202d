/** What holds in every reachable state of a room, whatever the interleaving. */
module BrokerSafety {
  import opened Common
  import opened Broker

  ghost predicate Reachable<M(!new)>(r: Room<M>) {
    exists acts: seq<Action<M>> :: Legal(Empty(), acts) && Exec(Empty(), acts) == r
  }

  lemma {:induction false} RunKeeps<M>(r: Room<M>, acts: seq<Action<M>>)
    requires Inv(r) && Legal(r, acts)
    ensures Inv(Exec(r, acts))
    decreases |acts|
  {
    if acts != [] {
      Step(r, acts[0]);
      RunKeeps(Apply(r, acts[0]), acts[1..]);
    }
  }

  lemma ReachableInv<M(!new)>(r: Room<M>)
    requires Reachable(r)
    ensures Inv(r)
  {
    var acts :| Legal(Empty(), acts) && Exec(Empty(), acts) == r;
    RunKeeps(Empty(), acts);
  }

  lemma {:induction false} ExecConcat<M>(r: Room<M>, a: seq<Action<M>>, b: seq<Action<M>>)
    requires Legal(r, a) && Legal(Exec(r, a), b)
    ensures Legal(r, a + b) && Exec(r, a + b) == Exec(Exec(r, a), b)
    decreases |a|
  {
    if a == [] {
      assert a + b == b;
    } else {
      ExecConcat(Apply(r, a[0]), a[1..], b);
      assert (a + b)[1..] == a[1..] + b;
    }
  }

  // ----- no lost wakeup -----

  /** A parked subscriber that no notification has reached has nothing to read, except in
      the moment when the lock's holder has pushed and not yet notified. */
  lemma NoLostWakeup<M(!new)>(r: Room<M>, s: nat)
    requires Reachable(r) && SubAt(r, s, Parked) && !Enabled(r, Wake(s))
    ensures || |r.log| <= r.subs[s].cursor
            || (r.writer.Some? && r.writer.value in r.pubs && r.pubs[r.writer.value].pc == Pushed)
  {
    ReachableInv(r);
  }

  /** How many notifications a run gives. */
  function Notifications<M>(acts: seq<Action<M>>): nat {
    if acts == [] then 0 else (if acts[0].Notify? then 1 else 0) + Notifications(acts[1..])
  }

  /** A subscriber is woken by notifications given since it registered, before or after it
      parked, and by nothing else. */
  lemma WokenIffNotified<M(!new)>(r: Room<M>, s: nat, acts: seq<Action<M>>)
    requires Reachable(r) && SubAt(r, s, Registered) && Legal(r, acts)
    requires forall a <- acts :: a == Park(s) || Actor(a) != Some(Subscriber(s))
    requires SubAt(Exec(r, acts), s, Parked)
    ensures Enabled(Exec(r, acts), Wake(s)) <==> Notifications(acts) > 0
  {
    ReachableInv(r);
    TicketKept(r, s, acts);
  }

  lemma {:induction false} TicketKept<M>(r: Room<M>, s: nat, acts: seq<Action<M>>)
    requires Legal(r, acts) && s in r.subs
    requires forall a <- acts :: a == Park(s) || Actor(a) != Some(Subscriber(s))
    ensures s in Exec(r, acts).subs && Exec(r, acts).subs[s].ticket == r.subs[s].ticket
    ensures Exec(r, acts).notifies == r.notifies + Notifications(acts)
    decreases |acts|
  {
    if acts != [] {
      assert acts[0] in acts && forall a <- acts[1..] :: a in acts;
      if acts[0] != Park(s) { SubFrame(r, acts[0], s); }
      NotifyCounts(r, acts[0]);
      TicketKept(Apply(r, acts[0]), s, acts[1..]);
    }
  }

  lemma NotifyCounts<M>(r: Room<M>, a: Action<M>)
    requires Enabled(r, a)
    ensures Apply(r, a).notifies == r.notifies + (if a.Notify? then 1 else 0)
  {
  }

  // ----- giving up -----

  /** A subscription can be dropped wherever it stands: its guard or its place in the queue is
      freed, and nothing else changes. */
  lemma DropFrees<M(!new)>(r: Room<M>, s: nat)
    requires s in r.subs && r.subs[s].pc != Gone
    ensures Enabled(r, Drop(s))
    ensures var r' := Apply(r, Drop(s));
            && r' == r.(subs := r'.subs, readers := r.readers - {s}, queue := r'.queue)
            && r'.subs == r.subs[s := r.subs[s].(pc := Gone)]
            && forall t :: t in r'.queue <==> t in r.queue && t != Subscriber(s)
  {
  }

  /** A call of `publish` can be cancelled as long as it waits for the lock: its place in the queue
      is freed, its message never gets into the log, and nothing else changes. */
  lemma AbandonFrees<M(!new)>(r: Room<M>, p: nat)
    requires Reachable(r) && p in r.pubs
    ensures Enabled(r, Abandon(p)) <==> Publisher(p) in r.queue
    ensures Enabled(r, Abandon(p)) ==> Withdraws(r, Apply(r, Abandon(p)), p)
  {
    WaitingPublisher(r, p);
    if Enabled(r, Abandon(p)) { AbandonEffect(r, p); }
  }

  ghost predicate Withdraws<M>(r: Room<M>, r': Room<M>, p: nat)
    requires p in r.pubs && r.pubs[p].pc.Queueing?
  {
    && r' == r.(pubs := r'.pubs, queue := r'.queue)
    && r'.pubs.Keys == r.pubs.Keys && (forall q <- r.pubs :: q != p ==> r'.pubs[q] == r.pubs[q])
    && r'.pubs[p].pc == Resting && r.pubs[p].sent == r'.pubs[p].sent + [r.pubs[p].pc.msg]
    && forall t :: t in r'.queue <==> t in r.queue && t != Publisher(p)
  }

  lemma AbandonEffect<M>(r: Room<M>, p: nat)
    requires Enabled(r, Abandon(p)) && PendingIsLast(r.pubs[p])
    ensures Withdraws(r, Apply(r, Abandon(p)), p)
  {
    var sent := r.pubs[p].sent;
    assert sent == sent[..|sent| - 1] + [r.pubs[p].pc.msg];
  }

  lemma WaitingPublisher<M(!new)>(r: Room<M>, p: nat)
    requires Reachable(r) && p in r.pubs
    ensures Publisher(p) in r.queue <==> r.pubs[p].pc.Queueing?
    ensures PendingIsLast(r.pubs[p])
  {
    ReachableInv(r);
    assert PublisherOk(r.log, r.authors, p, r.pubs[p]);
  }

  // ----- exactly-once, ordered delivery -----

  /** The k-th item yielded is the entry k places after the start, counted as u16. */
  lemma OrderedDelivery<M(!new)>(r: Room<M>, s: nat, k: nat)
    requires Reachable(r) && s in r.subs && k < |r.subs[s].seen|
    ensures var e := (r.subs[s].start + k) % U16_SIZE;
            e < |r.log| && r.subs[s].seen[k] == (e, r.log[e])
  {
    ReachableInv(r);
    assert ItemOk(r.log, r.subs[s], k);
  }

  lemma SeenOnlyGrows<M(!new)>(r: Room<M>, a: Action<M>, s: nat)
    requires Enabled(r, a) && s in r.subs
    ensures s in Apply(r, a).subs && Apply(r, a).subs[s].start == r.subs[s].start
    ensures IsPrefix(r.subs[s].seen, Apply(r, a).subs[s].seen)
  {
  }

  /** Nothing already logged or delivered ever changes. */
  lemma {:induction false} HistoryIsStable<M(!new)>(r: Room<M>, acts: seq<Action<M>>)
    requires Legal(r, acts)
    ensures IsPrefix(r.log, Exec(r, acts).log)
    ensures forall s <- r.subs ::
              && s in Exec(r, acts).subs
              && Exec(r, acts).subs[s].start == r.subs[s].start
              && IsPrefix(r.subs[s].seen, Exec(r, acts).subs[s].seen)
    decreases |acts|
  {
    if acts != [] {
      var r' := Apply(r, acts[0]);
      LogFrame(r, acts[0]);
      forall s <- r.subs
        ensures s in r'.subs && r'.subs[s].start == r.subs[s].start
        ensures IsPrefix(r.subs[s].seen, r'.subs[s].seen)
      {
        SeenOnlyGrows(r, acts[0], s);
      }
      HistoryIsStable(r', acts[1..]);
    }
  }

  /** A late joiner reads what an early one read: of two subscriptions with the same start,
      one's items are a prefix of the other's. */
  lemma LateJoinerAgrees<M(!new)>(r: Room<M>, s: nat, t: nat)
    requires Reachable(r) && s in r.subs && t in r.subs
    requires r.subs[s].start == r.subs[t].start && |r.subs[s].seen| <= |r.subs[t].seen|
    ensures IsPrefix(r.subs[s].seen, r.subs[t].seen)
  {
    ReachableInv(r);
    forall k | 0 <= k < |r.subs[s].seen| ensures r.subs[s].seen[k] == r.subs[t].seen[k] {
      assert ItemOk(r.log, r.subs[s], k) && ItemOk(r.log, r.subs[t], k);
    }
  }

  // ----- the width of the cursor -----

  ghost predicate NoRepeat<M>(seen: seq<(nat, M)>) {
    forall i, j :: 0 <= i < j < |seen| ==> seen[i].0 != seen[j].0
  }

  /** While the log holds at most 65,535 entries the cursor has counted every item without
      wrapping, and the next increment does not wrap either. */
  lemma CursorBound<M(!new)>(r: Room<M>, s: nat)
    requires Reachable(r) && |r.log| < U16_SIZE && s in r.subs
    ensures var sub := r.subs[s];
            && sub.cursor == sub.start + |sub.seen|
            && (Enabled(r, Deliver(s)) ==> sub.cursor + 1 < U16_SIZE)
            && (forall k :: 0 <= k < |sub.seen| ==> sub.seen[k].0 == sub.start + k)
            && NoRepeat(sub.seen)
            && (sub.seen != [] ==> sub.start + |sub.seen| <= |r.log|)
  {
    ReachableInv(r);
    var sub := r.subs[s];
    forall k | 0 <= k < |sub.seen| ensures sub.seen[k].0 == sub.start + k < |r.log| {
      ItemsStayInLog(r.log, sub, k);
    }
    if sub.seen != [] { ItemsStayInLog(r.log, sub, |sub.seen| - 1); }
  }

  lemma {:induction false} ItemsStayInLog<M>(log: seq<M>, sub: Sub<M>, k: nat)
    requires |log| < U16_SIZE && k < |sub.seen| && sub.start < U16_SIZE
    requires forall i :: 0 <= i < |sub.seen| ==> ItemOk(log, sub, i)
    ensures sub.seen[k].0 == sub.start + k < |log|
  {
    assert ItemOk(log, sub, k);
    if k > 0 { ItemsStayInLog(log, sub, k - 1); }
  }

  /** No run with at most `n` messages in the room makes a subscription repeat an index. */
  ghost predicate NeverRepeats<M(!new)>(n: nat) {
    forall r: Room<M>, s: nat ::
      Reachable(r) && |r.log| <= n && s in r.subs ==> NoRepeat(r.subs[s].seen)
  }

  /** 65,535 is the exact limit: the run that delivers index 65,535 wraps and starts over. */
  lemma CursorBoundIsExact<M(!new)>(n: nat, m: M)
    ensures NeverRepeats<M>(n) <==> n < U16_SIZE
  {
    if n < U16_SIZE {
      forall r: Room<M>, s: nat | Reachable(r) && |r.log| <= n && s in r.subs
        ensures NoRepeat(r.subs[s].seen)
      {
        CursorBound(r, s);
      }
    } else {
      var acts := Overrun(m);
      var r := Exec(Empty(), acts);
      assert Reachable(r);
      OrderedDelivery(r, 1, 0);
      OrderedDelivery(r, 1, U16_SIZE);
      assert !NoRepeat(r.subs[1].seen);
    }
  }

  /** What happens in `Overrun`: task 0 publishes `m`, task 1 joins without a header. */
  predicate OverrunAction<M(==)>(a: Action<M>, m: M) {
    && (a.Begin? ==> a == Begin(0, m))
    && (a.Subscribe? ==> a == Subscribe(1, None))
  }

  /** The shortest run in which a cursor wraps: 65,536 messages, of which a newcomer then reads
      one more than there are. */
  lemma Overrun<M(!new)>(m: M) returns (acts: seq<Action<M>>)
    ensures Legal(Empty(), acts) && forall a <- acts :: OverrunAction(a, m)
    ensures var r := Exec(Empty(), acts);
            && |r.log| == U16_SIZE && r.pubs.Keys == {0} && |r.pubs[0].sent| == U16_SIZE
            && 1 in r.subs && |r.subs[1].seen| == U16_SIZE + 1
  {
    var full := Fill(m, U16_SIZE);
    var joined := Then(Empty(), full, Subscribe(1, None));
    var reading := ReadOn(Exec(Empty(), joined), 1, U16_SIZE + 1, m);
    ExecConcat(Empty(), joined, reading);
    acts := joined + reading;
  }

  /** Nobody holds or waits for the lock. */
  predicate Quiet<M>(r: Room<M>) {
    r.queue == [] && r.readers == {} && r.writer == None
  }

  lemma {:induction false} Fill<M(!new)>(m: M, n: nat) returns (acts: seq<Action<M>>)
    ensures Legal(Empty(), acts) && forall a <- acts :: OverrunAction(a, m)
    ensures var r := Exec(Empty(), acts);
            && Quiet(r) && |r.log| == n && r.subs == map[]
            && r.pubs.Keys == (if n == 0 then {} else {0})
            && (n > 0 ==> r.pubs[0].pc == Resting && |r.pubs[0].sent| == n)
  {
    if n == 0 {
      acts := [];
    } else {
      var before := Fill(m, n - 1);
      var one := PublishAlone(Exec(Empty(), before), 0, m);
      ExecConcat(Empty(), before, one);
      acts := before + one;
    }
  }

  /** An undisturbed `publish`: five steps append the message, notify and free the lock. */
  lemma PublishAlone<M(!new)>(r: Room<M>, p: nat, m: M) returns (acts: seq<Action<M>>)
    requires Quiet(r) && (p in r.pubs ==> r.pubs[p].pc == Resting)
    ensures acts == [Begin(p, m), Grant(Publisher(p)), Push(p), Notify(p), Release(p)]
    ensures Legal(r, acts)
    ensures var sent := if p in r.pubs then r.pubs[p].sent else [];
            Exec(r, acts) == r.(log := r.log + [m], authors := r.authors + [p],
                                notifies := r.notifies + 1,
                                pubs := r.pubs[p := Pub(Resting, sent + [m])])
  {
    var locking := LockAlone(r, p, m);
    var pushing := PushAlone(Exec(r, locking), p, m);
    ExecConcat(r, locking, pushing);
    acts := locking + pushing;
  }

  /** What the holder of the write guard does. */
  lemma PushAlone<M(!new)>(r: Room<M>, p: nat, m: M) returns (acts: seq<Action<M>>)
    requires p in r.pubs && r.pubs[p].pc == Writing(m)
    ensures acts == [Push(p), Notify(p), Release(p)] && Legal(r, acts)
    ensures Exec(r, acts) == r.(log := r.log + [m], authors := r.authors + [p],
                                notifies := r.notifies + 1, writer := None,
                                pubs := r.pubs[p := Pub(Resting, r.pubs[p].sent)])
  {
    acts := Then(r, [], Push(p));
    acts := Then(r, acts, Notify(p));
    acts := Then(r, acts, Release(p));
  }

  lemma LockAlone<M(!new)>(r: Room<M>, p: nat, m: M) returns (acts: seq<Action<M>>)
    requires Quiet(r) && Enabled(r, Begin(p, m))
    ensures acts == [Begin(p, m), Grant(Publisher(p))] && Legal(r, acts)
    ensures var sent := if p in r.pubs then r.pubs[p].sent else [];
            Exec(r, acts) == r.(writer := Some(p), pubs := r.pubs[p := Pub(Writing(m), sent + [m])])
  {
    acts := Then(r, [], Begin(p, m));
    acts := Then(r, acts, Grant(Publisher(p)));
  }

  lemma Then<M>(r: Room<M>, before: seq<Action<M>>, a: Action<M>) returns (acts: seq<Action<M>>)
    requires Legal(r, before) && Enabled(Exec(r, before), a)
    ensures acts == before + [a] && Legal(r, acts) && Exec(r, acts) == Apply(Exec(r, before), a)
  {
    acts := before + [a];
    assert [a][1..] == [];
    ExecConcat(r, before, [a]);
  }

  /** In a full room an undisturbed subscription yields any number of items. */
  lemma {:induction false} ReadOn<M(!new)>(r: Room<M>, s: nat, n: nat, m: M)
    returns (acts: seq<Action<M>>)
    requires Quiet(r) && SubAt(r, s, Ready)
    requires r.subs[s].cursor < U16_SIZE <= |r.log|
    ensures Legal(r, acts) && forall a <- acts :: OverrunAction(a, m)
    ensures s in Exec(r, acts).subs && |Exec(r, acts).subs[s].seen| == |r.subs[s].seen| + n
    ensures Exec(r, acts).log == r.log && Exec(r, acts).pubs == r.pubs
    decreases n
  {
    if n == 0 {
      acts := [];
    } else {
      var one := Then(r, [], Poll(s));
      one := Then(r, one, Grant(Subscriber(s)));
      one := Then(r, one, Deliver(s));
      var r3 := Exec(r, one);
      var rest := ReadOn(r3, s, n - 1, m);
      ExecConcat(r, one, rest);
      acts := one + rest;
    }
  }

  /** An undisturbed newcomer reads the entry behind the last one its client has seen, or the
      oldest one, however long ago it was published. */
  lemma JoinAndRead<M(!new)>(r: Room<M>, s: nat, last: Option<nat>) returns (acts: seq<Action<M>>)
    requires Quiet(r) && s !in r.subs && (last.Some? ==> last.value < U16_SIZE)
    requires (match last case None => 0 case Some(i) => (i + 1) % U16_SIZE) < |r.log|
    ensures acts == [Subscribe(s, last), Poll(s), Grant(Subscriber(s)), Deliver(s)] && Legal(r, acts)
    ensures var e := match last case None => 0 case Some(i) => (i + 1) % U16_SIZE;
            s in Exec(r, acts).subs && Exec(r, acts).subs[s].seen == [(e, r.log[e])]
  {
    acts := Then(r, [], Subscribe(s, last));
    acts := Then(r, acts, Poll(s));
    acts := Then(r, acts, Grant(Subscriber(s)));
    acts := Then(r, acts, Deliver(s));
  }

  // ----- where a subscription starts -----

  lemma {:induction false} LegalSplit<M>(r: Room<M>, a: seq<Action<M>>, b: seq<Action<M>>)
    requires Legal(r, a + b)
    ensures Legal(r, a) && Legal(Exec(r, a), b) && Exec(Exec(r, a), b) == Exec(r, a + b)
    decreases |a|
  {
    if a == [] {
      assert a + b == b;
    } else {
      assert (a + b)[1..] == a[1..] + b;
      LegalSplit(Apply(r, a[0]), a[1..], b);
    }
  }

  /** In any run, a subscription made for a client that has seen `last` starts, and stays,
      behind it. */
  lemma StartsBehind<M(!new)>(acts: seq<Action<M>>, s: nat, last: Option<nat>)
    requires Legal(Empty(), acts) && Subscribe(s, last) in acts
    ensures s in Exec(Empty(), acts).subs && (last.Some? ==> last.value < U16_SIZE)
    ensures Exec(Empty(), acts).subs[s].start
         == match last case None => 0 case Some(i) => (i + 1) % U16_SIZE
  {
    var k :| 0 <= k < |acts| && acts[k] == Subscribe(s, last);
    var after := acts[k..];
    assert acts == acts[..k] + after && after[0] == Subscribe(s, last);
    LegalSplit(Empty(), acts[..k], after);
    var r := Exec(Empty(), acts[..k]);
    HistoryIsStable(Apply(r, after[0]), after[1..]);
  }

  // ----- conservation -----

  /** The log is an interleaving of the publishers' messages: every entry was pushed by a
      known publisher, and each resting publisher's entries are exactly what it sent. */
  lemma LogInterleavesPublishers<M(!new)>(r: Room<M>, p: nat)
    requires Reachable(r) && p in r.pubs
    ensures |r.authors| == |r.log| && (forall q <- r.authors :: q in r.pubs)
    ensures IsPrefix(By(r.log, r.authors, p), r.pubs[p].sent)
    ensures |r.pubs[p].sent| <= |By(r.log, r.authors, p)| + 1
    ensures r.pubs[p].pc.Resting? ==> By(r.log, r.authors, p) == r.pubs[p].sent
  {
    ReachableInv(r);
    assert PublisherOk(r.log, r.authors, p, r.pubs[p]);
  }
}
