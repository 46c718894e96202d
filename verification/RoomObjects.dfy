/** The objects behind the broker (sse/src/lib.rs): `Room` with its fields, and `Subscription`
    with the waiting loop of `next`.  The transition system in Broker says what any
    interleaving of these operations does; here each operation runs to its end.  What other
    tasks publish while `Next` is parked is a parameter. */
module RoomObjects {
  import opened Common
  import Broker

  function Flatten<M>(batches: seq<seq<M>>): seq<M> {
    if batches == [] then [] else Flatten(batches[..|batches| - 1]) + batches[|batches| - 1]
  }

  /** The k-th index issued is k, counted as u16. */
  ghost predicate IssuedOk(issued: seq<nat>, next: nat) {
    next == |issued| % U16_SIZE && forall k :: 0 <= k < |issued| ==> issued[k] == k % U16_SIZE
  }

  /** Two calls get the same index exactly when a multiple of 65,536 calls lies between them;
      in particular the first 65,536 indices of a room are distinct. */
  lemma IssuedTwiceIff(issued: seq<nat>, next: nat, i: nat, j: nat)
    requires IssuedOk(issued, next) && i <= j < |issued|
    ensures issued[i] == issued[j] <==> (j - i) % U16_SIZE == 0
  {
    assert issued[i] == i % U16_SIZE && issued[j] == j % U16_SIZE;
  }

  class Room<M> {
    var messages: seq<M>
    var notifies: nat        // calls of `notify_waiters` on message_appeared
    var subscribers: nat
    var nextIdx: nat
    ghost var members: set<object>   // the subscriptions that are not dropped
    ghost var issued: seq<nat>

    ghost predicate Valid()
      reads this
    {
      subscribers == |members| % U16_SIZE && IssuedOk(issued, nextIdx)
    }

    constructor ()
      ensures Valid() && messages == [] && members == {} && issued == []
    {
      messages, notifies, subscribers, nextIdx := [], 0, 0, 0;
      members, issued := {}, [];
    }

    /** Push and notify; the guard is held across both. */
    method Publish(message: M)
      modifies `messages, `notifies
      ensures messages == old(messages) + [message] && notifies == old(notifies) + 1
    {
      messages := messages + [message];
      notifies := notifies + 1;
    }

    /** What other publishers do between two steps of a subscription. */
    method PublishAll(batch: seq<M>)
      modifies `messages, `notifies
      ensures messages == old(messages) + batch && notifies == old(notifies) + |batch|
    {
      for k := 0 to |batch|
        invariant messages == old(messages) + batch[..k] && notifies == old(notifies) + k
      {
        Publish(batch[k]);
        assert batch[..k + 1] == batch[..k] + [batch[k]];
      }
      assert batch[..|batch|] == batch;
    }

    method Subscribe(last: Option<nat>) returns (sub: Subscription<M>)
      requires Valid() && (last.Some? ==> last.value < U16_SIZE)
      modifies `subscribers, `members
      ensures Valid() && fresh(sub) && sub.room == this && members == old(members) + {sub}
      ensures sub.nextEvent == match last case None => 0 case Some(i) => (i + 1) % U16_SIZE
      ensures sub.nextEvent == Broker.FirstEvent(last)
    {
      subscribers := Succ16(subscribers);
      sub := new Subscription(this, match last case None => 0 case Some(i) => Succ16(i));
      members := members + {sub};
    }

    method IssueUniqueIdx() returns (idx: nat)
      requires Valid()
      modifies `nextIdx, `issued
      ensures Valid() && issued == old(issued) + [idx]
    {
      idx := nextIdx;
      nextIdx := Succ16(nextIdx);
      issued := issued + [idx];
    }
  }

  class Subscription<M> {
    const room: Room<M>
    var nextEvent: nat

    constructor (room: Room<M>, nextEvent: nat)
      ensures this.room == room && this.nextEvent == nextEvent
    {
      this.room, this.nextEvent := room, nextEvent;
    }

    /** Nothing was there for the cursor `next` after the first `n` batches. */
    ghost predicate Missing(before: seq<M>, batches: seq<seq<M>>, n: nat, next: nat)
      requires n <= |batches|
    {
      |before + Flatten(batches[..n])| <= next
    }

    /** Returns the entry at the cursor and moves the cursor behind it.  The method gives way to
        other tasks at its two awaits, for the lock and for the notification; `batches` is what
        they publish, one batch each time they get a chance, and `rounds` how many batches went
        by.  Once the entry is there at most one more goes by, while the lock is awaited, so no
        wakeup is missed; `None` means that after all of them it still is not there. */
    method Next(batches: seq<seq<M>>) returns (item: Option<(nat, M)>, rounds: nat)
      modifies `nextEvent, room`messages, room`notifies
      ensures rounds <= |batches|
      ensures room.messages == old(room.messages) + Flatten(batches[..rounds])
      ensures forall n :: 0 <= n && n + 1 < rounds ==>
        Missing(old(room.messages), batches, n, old(nextEvent))
      ensures item.Some? ==>
        && old(nextEvent) < |room.messages|
        && item.value == (old(nextEvent), room.messages[old(nextEvent)])
        && nextEvent == Succ16(old(nextEvent))
      ensures item.None? ==>
        rounds == |batches| && nextEvent == old(nextEvent) && |room.messages| <= nextEvent
    {
      ghost var before, next := room.messages, nextEvent;
      rounds := 0;
      while true
        invariant rounds <= |batches| && nextEvent == next
        invariant room.messages == before + Flatten(batches[..rounds])
        invariant forall n :: 0 <= n < rounds ==> Missing(before, batches, n, next)
        decreases |batches| - rounds
      {
        // messages.read().await
        if rounds < |batches| {
          room.PublishAll(batches[rounds]);
          assert batches[..rounds + 1][..rounds] == batches[..rounds];
          rounds := rounds + 1;
        }
        if nextEvent < |room.messages| {
          item := Some((nextEvent, room.messages[nextEvent]));
          nextEvent := Succ16(nextEvent);
          return;
        }
        StillMissing(before, batches, rounds, next);
        // notification.await
        var ticket := room.notifies;
        ghost var parked := rounds;
        while room.notifies == ticket
          invariant rounds <= |batches| && nextEvent == next
          invariant room.messages == before + Flatten(batches[..rounds])
          invariant forall n :: 0 <= n < rounds ==> Missing(before, batches, n, next)
          invariant ticket <= room.notifies
          invariant room.notifies == ticket ==> |room.messages| <= nextEvent
          invariant room.notifies == ticket || rounds > parked
          decreases |batches| - rounds
        {
          if rounds == |batches| { return None, rounds; }
          room.PublishAll(batches[rounds]);
          assert batches[..rounds + 1][..rounds] == batches[..rounds];
          rounds := rounds + 1;
        }
      }
    }

    /** What is missing after `n` batches was missing one batch earlier. */
    lemma StillMissing(before: seq<M>, batches: seq<seq<M>>, n: nat, next: nat)
      requires n <= |batches| && Missing(before, batches, n, next)
      ensures n > 0 ==> Missing(before, batches, n - 1, next)
    {
      if n > 0 { assert batches[..n][..n - 1] == batches[..n - 1]; }
    }

    /** `fetch_sub(1) - 1`: how many subscriptions are left, counted as u16. */
    method Drop() returns (remaining: nat)
      requires room.Valid() && this in room.members
      modifies room`subscribers, room`members
      ensures room.Valid() && room.members == old(room.members) - {this}
      ensures remaining == |room.members| % U16_SIZE
    {
      remaining := (room.subscribers + U16_SIZE - 1) % U16_SIZE;
      room.subscribers := remaining;
      room.members := room.members - {this};
    }
  }
}
