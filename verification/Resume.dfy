/** Reconnecting with Last-Event-ID (WHATWG HTML Living Standard, sections 9.2.4 and 9.2.6):
    the server prints each item's id, the client sends the last one back, the server parses
    it and starts a new subscription behind it. */
module Resume {
  import opened Common
  import opened Decimal
  import opened Broker
  import opened BrokerSafety

  /** The header's value as a u16, None when it is absent or does not parse.  A header that is
      not visible ASCII has a character that is no digit, so it does not parse either. */
  function ExtractLastEventId(header: Option<string>): Option<nat> {
    match header
    case None => None
    case Some(text) => ParseU16(text)
  }

  /** What a client sends that remembers `last`. */
  function Header(last: Option<nat>): Option<string> {
    match last
    case None => None
    case Some(id) => Some(PrintNat(id))
  }

  /** Where the subscription of such a client starts. */
  function StartAfter(last: Option<nat>): nat {
    FirstEvent(ExtractLastEventId(Header(last)))
  }

  /** The trip of an id through the header loses nothing. */
  lemma HeaderRoundTrip(last: Option<nat>)
    requires last.Some? ==> last.value < U16_SIZE
    ensures ExtractLastEventId(Header(last)) == last && StartAfter(last) == FirstEvent(last)
  {
    if last.Some? { ParsePrinted(last.value); }
  }

  /** The client has received the first `c` items the subscription yielded; the rest were lost
      with the connection.  Printing the last id, parsing it and resubscribing lands on the
      entry behind it, which is the cursor itself if nothing was lost. */
  lemma ResumeFindsThePlace<M(!new)>(r: Room<M>, s: nat, c: nat)
    requires Reachable(r) && s in r.subs && 0 < c <= |r.subs[s].seen|
    ensures var next := StartAfter(Some(r.subs[s].seen[c - 1].0));
            next == (r.subs[s].start + c) % U16_SIZE && (c == |r.subs[s].seen| ==> next == r.subs[s].cursor)
  {
    NextPlace(r, s, c);
    CursorCounts(r, s);
    HeaderRoundTrip(Some(r.subs[s].seen[c - 1].0));
  }

  lemma NextPlace<M(!new)>(r: Room<M>, s: nat, c: nat)
    requires Reachable(r) && s in r.subs && 0 < c <= |r.subs[s].seen|
    ensures var id := r.subs[s].seen[c - 1].0;
            id < U16_SIZE && FirstEvent(Some(id)) == (r.subs[s].start + c) % U16_SIZE
  {
    OrderedDelivery(r, s, c - 1);
    SumMod(r.subs[s].start, c - 1, 1);
  }

  lemma CursorCounts<M(!new)>(r: Room<M>, s: nat)
    requires Reachable(r) && s in r.subs
    ensures r.subs[s].cursor == (r.subs[s].start + |r.subs[s].seen|) % U16_SIZE
  {
    ReachableInv(r);
  }

  lemma SumMod(a: nat, b: nat, c: nat)
    ensures ((a + b) % U16_SIZE + c) % U16_SIZE == (a + (b + c)) % U16_SIZE
  {
  }

  // ----- any number of reconnects -----

  /** What a client receives on one connection: where its subscription started, and the items. */
  datatype Part<M> = Part(start: nat, items: seq<(nat, M)>)

  /** The last id the client knows after `n` connections: of the last one on which it received
      anything, or the id it came with. */
  function LastId<M>(from: Option<nat>, parts: seq<Part<M>>, n: nat): Option<nat>
    requires n <= |parts|
  {
    if n == 0 then from
    else
      var items := parts[n - 1].items;
      if items != [] then Some(items[|items| - 1].0) else LastId(from, parts, n - 1)
  }

  /** Everything received on the first `n` connections. */
  function Joined<M>(parts: seq<Part<M>>, n: nat): seq<(nat, M)>
    requires n <= |parts|
  {
    if n == 0 then [] else Joined(parts, n - 1) + parts[n - 1].items
  }

  /** The entry number `k` places behind `start`. */
  function Place(start: nat, k: nat): nat {
    if k == 0 then start else Succ16(Place(start, k - 1))
  }

  lemma {:induction false} PlaceIsSum(start: nat, k: nat)
    requires start < U16_SIZE
    ensures Place(start, k) == (start + k) % U16_SIZE
  {
    if k > 0 { PlaceIsSum(start, k - 1); }
  }

  lemma {:induction false} PlacesAdd(start: nat, j: nat, k: nat)
    ensures Place(Place(start, j), k) == Place(start, j + k)
  {
    if k > 0 { PlacesAdd(start, j, k - 1); }
  }

  /** The items are the entries from `start` on. */
  predicate Stretch<M(==)>(log: seq<M>, start: nat, items: seq<(nat, M)>) {
    forall k :: 0 <= k < |items| ==>
      Place(start, k) < |log| && items[k] == (Place(start, k), log[Place(start, k)])
  }

  /** Each of the first `n` parts is a stretch that starts behind the last id known before. */
  predicate Follows<M(==)>(log: seq<M>, from: Option<nat>, parts: seq<Part<M>>, n: nat)
    requires n <= |parts|
  {
    n == 0 ||
    (&& Follows(log, from, parts, n - 1)
     && Stretch(log, parts[n - 1].start, parts[n - 1].items)
     && parts[n - 1].start == FirstEvent(LastId(from, parts, n - 1)))
  }

  /** The next part starts behind all that was received, also when the last ones are empty. */
  lemma {:induction false} NextStart<M>(log: seq<M>, from: Option<nat>, parts: seq<Part<M>>, n: nat)
    requires n <= |parts| && Follows(log, from, parts, n)
    ensures FirstEvent(LastId(from, parts, n)) == Place(FirstEvent(from), |Joined(parts, n)|)
  {
    if n > 0 {
      NextStart(log, from, parts, n - 1);
      PlacesAdd(FirstEvent(from), |Joined(parts, n - 1)|, |parts[n - 1].items|);
    }
  }

  lemma {:induction false} JoinedIsStretch<M>(
    log: seq<M>, from: Option<nat>, parts: seq<Part<M>>, n: nat)
    requires n <= |parts| && Follows(log, from, parts, n)
    ensures Stretch(log, FirstEvent(from), Joined(parts, n))
  {
    if n > 0 {
      var before, items := Joined(parts, n - 1), parts[n - 1].items;
      JoinedIsStretch(log, from, parts, n - 1);
      NextStart(log, from, parts, n - 1);
      StretchesJoin(log, FirstEvent(from), before, items);
    }
  }

  lemma StretchesJoin<M>(log: seq<M>, start: nat, before: seq<(nat, M)>, items: seq<(nat, M)>)
    requires Stretch(log, start, before) && Stretch(log, Place(start, |before|), items)
    ensures Stretch(log, start, before + items)
  {
    forall k | |before| <= k < |before + items|
      ensures Place(start, k) < |log|
      ensures items[k - |before|] == (Place(start, k), log[Place(start, k)])
    {
      PlacesAdd(start, |before|, k - |before|);
    }
  }

  /** The client's connections: subscription ids, and how many items it received of each. */
  datatype Connection = Connection(sub: nat, received: nat)

  predicate AllExist<M>(r: Room<M>, conns: seq<Connection>) {
    forall i :: 0 <= i < |conns| ==>
      conns[i].sub in r.subs && conns[i].received <= |r.subs[conns[i].sub].seen|
  }

  function PartsOf<M>(r: Room<M>, conns: seq<Connection>): (parts: seq<Part<M>>)
    requires AllExist(r, conns)
    ensures |parts| == |conns|
    ensures forall i :: 0 <= i < |conns| ==>
      var sub := r.subs[conns[i].sub];
      parts[i] == Part(sub.start, sub.seen[..conns[i].received])
  {
    seq(|conns|, i requires 0 <= i < |conns| =>
      Part(r.subs[conns[i].sub].start, r.subs[conns[i].sub].seen[..conns[i].received]))
  }

  /** Each of the first `n` subscriptions was made, in the run, with the header of a client that
      knows the last id before. */
  predicate Reconnects<M(==)>(
    acts: seq<Action<M>>, from: Option<nat>, conns: seq<Connection>, parts: seq<Part<M>>, n: nat)
    requires n <= |conns| == |parts|
  {
    n == 0 ||
    (&& Reconnects(acts, from, conns, parts, n - 1)
     && Subscribe(conns[n - 1].sub, ExtractLastEventId(Header(LastId(from, parts, n - 1)))) in acts)
  }

  /** How many items the client received on the first `n` connections. */
  function ReceivedBefore(conns: seq<Connection>, n: nat): nat
    requires n <= |conns|
  {
    if n == 0 then 0 else ReceivedBefore(conns, n - 1) + conns[n - 1].received
  }

  /** Over any number of reconnects, each cut anywhere, nothing is lost and nothing repeated: in any
      run, the j-th item the client receives on connection i is the entry as many places behind the
      first as it has received items before, and the first is behind the id it came with. */
  lemma ResumeIsSeamless<M(!new)>(
    acts: seq<Action<M>>, from: Option<nat>, conns: seq<Connection>, i: nat, j: nat)
    requires Legal(Empty(), acts) && AllExist(Exec(Empty(), acts), conns)
    requires Reconnects(acts, from, conns, PartsOf(Exec(Empty(), acts), conns), |conns|)
    requires from.Some? ==> from.value < U16_SIZE
    requires i < |conns| && j < conns[i].received
    ensures var r := Exec(Empty(), acts);
            var first := match from case None => 0 case Some(id) => id + 1;
            var e := (first + (ReceivedBefore(conns, i) + j)) % U16_SIZE;
            e < |r.log| && r.subs[conns[i].sub].seen[j] == (e, r.log[e])
  {
    var r := Exec(Empty(), acts);
    var parts := PartsOf(r, conns);
    assert Reachable(r);
    PartsAreSound(r, conns);
    ReconnectsFollow(acts, from, conns, |conns|);
    JoinedHolds(conns, parts, i, j, |conns|);
    JoinedInOrder(r.log, from, parts, ReceivedBefore(conns, i) + j);
  }

  /** Where the items of connection `i` are among all those received. */
  lemma {:induction false} JoinedHolds<M>(
    conns: seq<Connection>, parts: seq<Part<M>>, i: nat, j: nat, n: nat)
    requires i < n <= |conns| == |parts| && j < conns[i].received
    requires forall k :: 0 <= k < |conns| ==> |parts[k].items| == conns[k].received
    ensures |Joined(parts, n)| == ReceivedBefore(conns, n)
    ensures ReceivedBefore(conns, i) + j < |Joined(parts, n)|
    ensures Joined(parts, n)[ReceivedBefore(conns, i) + j] == parts[i].items[j]
  {
    JoinedCounts(conns, parts, n - 1);
    if i < n - 1 { JoinedHolds(conns, parts, i, j, n - 1); }
  }

  lemma {:induction false} JoinedCounts<M>(conns: seq<Connection>, parts: seq<Part<M>>, n: nat)
    requires n <= |conns| == |parts|
    requires forall k :: 0 <= k < |conns| ==> |parts[k].items| == conns[k].received
    ensures |Joined(parts, n)| == ReceivedBefore(conns, n)
  {
    if n > 0 { JoinedCounts(conns, parts, n - 1); }
  }

  /** Every reconnect starts behind the last id known before it. */
  lemma {:induction false} ReconnectsFollow<M(!new)>(
    acts: seq<Action<M>>, from: Option<nat>, conns: seq<Connection>, n: nat)
    requires Legal(Empty(), acts) && AllExist(Exec(Empty(), acts), conns) && n <= |conns|
    requires Reconnects(acts, from, conns, PartsOf(Exec(Empty(), acts), conns), n)
    requires Sound(Exec(Empty(), acts).log, PartsOf(Exec(Empty(), acts), conns), |conns|)
    requires from.Some? ==> from.value < U16_SIZE
    ensures Follows(Exec(Empty(), acts).log, from, PartsOf(Exec(Empty(), acts), conns), n)
  {
    if n > 0 {
      var r := Exec(Empty(), acts);
      var last := LastId(from, PartsOf(r, conns), n - 1);
      ReconnectsFollow(acts, from, conns, n - 1);
      LastIdFits(r.log, from, PartsOf(r, conns), n - 1);
      HeaderRoundTrip(last);
      StartsBehind(acts, conns[n - 1].sub, last);
    }
  }

  /** The first `n` parts are stretches of the log. */
  predicate Sound<M(==)>(log: seq<M>, parts: seq<Part<M>>, n: nat)
    requires n <= |parts|
  {
    forall i :: 0 <= i < n ==> Stretch(log, parts[i].start, parts[i].items) && parts[i].start < U16_SIZE
  }

  lemma JoinedInOrder<M>(log: seq<M>, from: Option<nat>, parts: seq<Part<M>>, k: nat)
    requires Follows(log, from, parts, |parts|)
    requires (from.Some? ==> from.value < U16_SIZE) && k < |Joined(parts, |parts|)|
    ensures var e := ((match from case None => 0 case Some(i) => i + 1) + k) % U16_SIZE;
            e < |log| && Joined(parts, |parts|)[k] == (e, log[e])
  {
    JoinedIsStretch(log, from, parts, |parts|);
    PlaceFromStart(from, k);
  }

  lemma PlaceFromStart(from: Option<nat>, k: nat)
    requires from.Some? ==> from.value < U16_SIZE
    ensures Place(FirstEvent(from), k)
         == ((match from case None => 0 case Some(i) => i + 1) + k) % U16_SIZE
  {
    PlaceIsSum(FirstEvent(from), k);
    if from.Some? { SumMod(0, from.value + 1, k); }
  }

  lemma PartsAreSound<M(!new)>(r: Room<M>, conns: seq<Connection>)
    requires Reachable(r) && AllExist(r, conns)
    ensures Sound(r.log, PartsOf(r, conns), |conns|)
  {
    forall i | 0 <= i < |conns|
      ensures var part := PartsOf(r, conns)[i];
              Stretch(r.log, part.start, part.items) && part.start < U16_SIZE
    {
      StartFits(r, conns[i].sub);
      SeenIsStretch(r, conns[i].sub, conns[i].received);
    }
  }

  lemma SeenIsStretch<M(!new)>(r: Room<M>, s: nat, n: nat)
    requires Reachable(r) && s in r.subs && n <= |r.subs[s].seen|
    ensures Stretch(r.log, r.subs[s].start, r.subs[s].seen[..n])
  {
    StartFits(r, s);
    forall k | 0 <= k < n
      ensures Place(r.subs[s].start, k) < |r.log|
      ensures r.subs[s].seen[k] == (Place(r.subs[s].start, k), r.log[Place(r.subs[s].start, k)])
    {
      OrderedDelivery(r, s, k);
      PlaceIsSum(r.subs[s].start, k);
    }
  }

  lemma StartFits<M(!new)>(r: Room<M>, s: nat)
    requires Reachable(r) && s in r.subs
    ensures r.subs[s].start < U16_SIZE
  {
    ReachableInv(r);
  }

  lemma {:induction false} LastIdFits<M>(log: seq<M>, from: Option<nat>, parts: seq<Part<M>>, n: nat)
    requires n <= |parts| && (from.Some? ==> from.value < U16_SIZE) && Sound(log, parts, n)
    ensures LastId(from, parts, n).Some? ==> LastId(from, parts, n).value < U16_SIZE
  {
    if n > 0 {
      var items := parts[n - 1].items;
      if items != [] { PlaceIsSum(parts[n - 1].start, |items| - 1); }
      else { LastIdFits(log, from, parts, n - 1); }
    }
  }

  /** A header sends the subscription to entry e > 0 exactly when it is the number e - 1, with any
      number of zeros and perhaps a plus sign in front. */
  lemma HeaderLeadsTo(header: Option<string>, e: nat)
    requires e > 0
    ensures FirstEvent(ExtractLastEventId(header)) == e
       <==> && header.Some? && e < U16_SIZE
            && exists z: nat :: Unsigned(header.value) == Zeros(z) + PrintNat(e - 1)
  {
    if header.Some? {
      ParsesIff(header.value, e - 1);
      if ParseU16(header.value).Some? { assert ParseU16(header.value).value < U16_SIZE; }
    }
  }

  /** So a subscription starts over at 0 exactly when the header is absent, is no such number, or
      is 65,535, the id whose successor does not fit the cursor. */
  lemma RestartsAtZero(header: Option<string>)
    ensures FirstEvent(ExtractLastEventId(header)) == 0
       <==> || header == None
            || forall v: nat, z: nat :: v + 1 < U16_SIZE ==> Unsigned(header.value) != Zeros(z) + PrintNat(v)
  {
    var e := FirstEvent(ExtractLastEventId(header));
    if e > 0 { HeaderLeadsTo(header, e); }
    if header.Some? {
      forall v: nat, z: nat | v + 1 < U16_SIZE && Unsigned(header.value) == Zeros(z) + PrintNat(v)
        ensures e == v + 1
      {
        HeaderLeadsTo(header, v + 1);
      }
    }
  }

  /** In particular, any other character makes it start over. */
  lemma OtherCharactersRestart(text: string, k: nat)
    requires k < |Unsigned(text)| && !('0' <= Unsigned(text)[k] <= '9')
    ensures FirstEvent(ExtractLastEventId(Some(text))) == 0
  {
    OtherCharactersFail(text, k);
  }
}
