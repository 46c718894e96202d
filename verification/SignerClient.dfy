/** The signing client (mpc-client/src/signer.rs): its id counter, the list of participants it
    calls, and the selection of a signature. */
module SignerClient {
  import opened Common
  import opened TxIds

  datatype Client = Gateway | LocalParticipant

  datatype Request = Request(to: Client, txId: int, account: string)

  /** A configured key share: its account, and whether its data parses. */
  datatype ShareData = ShareData(account: string, parses: bool)

  datatype StartResult =
    | Started
    | BadShare(index: nat)   // the first that does not parse
    | NoShares
    | ServerFailed           // the participant server could not be made
    | NotConnected           // made and started, but connecting to it failed

  datatype Outcome<S> = UnknownAccount | NoValidSignature | Signed(signature: S)

  class Signer {
    const instanceId: nat
    const threshold: nat
    const shares: seq<ShareData>
    var txCounter: nat
    var clients: seq<Client>
    var hasServer: bool
    /** Which signer this is, and how many ids it has given out. */
    ghost const signer: nat
    ghost var issued: nat

    ghost predicate Valid()
      reads this
    {
      instanceId < U16_SIZE && txCounter == issued % U16_SIZE
    }

    constructor (instanceId: nat, threshold: nat, shares: seq<ShareData>, ghost signer: nat)
      requires instanceId < U16_SIZE
      ensures Valid() && issued == 0 && clients == [Gateway] && !hasServer
      ensures this.instanceId == instanceId && this.threshold == threshold
      ensures this.shares == shares && this.signer == signer
    {
      this.instanceId, this.threshold, this.shares := instanceId, threshold, shares;
      txCounter, clients, hasServer := 0, [Gateway], false;
      this.signer, issued := signer, 0;
    }

    /** The k-th call gives the id of session k, for ever. */
    method NextTxId() returns (id: int)
      requires Valid()
      modifies this`txCounter, this`issued
      ensures Valid() && issued == old(issued) + 1
      ensures I32_MIN <= id < I32_END
      ensures InstanceOf(id) == instanceId && CounterOf(id) == old(issued) % U16_SIZE
      ensures id == SessionId(Session(signer, instanceId, old(issued)))
    {
      var counter := txCounter;
      txCounter := Succ16(txCounter);
      id := Pack(instanceId, counter);
      PackThenUnpack(instanceId, counter);
      issued := issued + 1;
    }

    /** Every share must parse and there must be one; then the server is made and kept, and the
        local participant joins the list behind the gateway once it can be connected to.
        `makes` and `connects` say whether making the server and connecting succeed. */
    method StartLocalParticipant(makes: bool, connects: bool) returns (result: StartResult)
      requires Valid()
      modifies this`clients, this`hasServer
      ensures result.BadShare? <==> exists k :: 0 <= k < |shares| && !shares[k].parses
      ensures result.BadShare? ==>
        && result.index < |shares| && !shares[result.index].parses
        && forall k :: 0 <= k < result.index ==> shares[k].parses
      ensures result == NoShares <==> shares == []
      ensures result == ServerFailed ==> !makes
      ensures result == NotConnected ==> makes && !connects
      ensures result == Started ==> makes && connects
      ensures hasServer == (old(hasServer) || result == Started || result == NotConnected)
      ensures clients == if result == Started then old(clients) + [LocalParticipant] else old(clients)
    {
      for i := 0 to |shares|
        invariant forall k :: 0 <= k < i ==> shares[k].parses
      {
        if !shares[i].parses { return BadShare(i); }
      }
      if shares == [] { return NoShares; }
      if !makes { return ServerFailed; }
      hasServer := true;
      if !connects { return NotConnected; }
      clients := clients + [LocalParticipant];
      result := Started;
    }

    /** One signing request.  `answers(k)` is what the k-th client called returns, None for an
        error.  An unknown account costs no id; otherwise every client called gets the same
        fresh id, and the first signature in call order is returned, however many fail. */
    method Sign<S>(account: string, answers: nat -> Option<S>)
      returns (requests: seq<Request>, outcome: Outcome<S>)
      requires Valid()
      modifies this`txCounter, this`issued
      ensures Valid()
      ensures (forall k :: 0 <= k < |shares| ==> shares[k].account != account) ==>
        issued == old(issued) && requests == [] && outcome == UnknownAccount
      ensures (exists k :: 0 <= k < |shares| && shares[k].account == account) ==>
        && issued == old(issued) + 1 && outcome != UnknownAccount
        && |requests| == (if threshold < |clients| then threshold else |clients|)
        && (forall k :: 0 <= k < |requests| ==>
              && requests[k].to == clients[k] && requests[k].account == account
              && requests[k].txId == SessionId(Session(signer, instanceId, old(issued))))
        && (outcome.Signed? <==> exists k: nat :: k < |requests| && answers(k).Some?)
        && (outcome.Signed? ==> exists k: nat ::
              && k < |requests| && answers(k) == Some(outcome.signature)
              && forall i: nat :: i < k ==> answers(i) == None)
    {
      if forall k :: 0 <= k < |shares| ==> shares[k].account != account { return [], UnknownAccount; }
      var txId := NextTxId();
      var called := clients[..if threshold < |clients| then threshold else |clients|];
      requests := [];
      var results: seq<Option<S>> := [];
      while |requests| < |called|
        invariant |results| == |requests| <= |called|
        invariant forall k :: 0 <= k < |requests| ==> requests[k] == Request(called[k], txId, account)
        invariant forall k: nat :: k < |results| ==> results[k] == answers(k)
      {
        results := results + [answers(|requests|)];
        requests := requests + [Request(called[|requests|], txId, account)];
      }
      var successful: seq<S> := [];
      ghost var first := 0;
      for i := 0 to |results|
        invariant successful == [] ==> forall k: nat :: k < i ==> answers(k) == None
        invariant successful != [] ==> 0 <= first < i && answers(first) == Some(successful[0])
        invariant successful != [] ==> forall k: nat :: k < first ==> answers(k) == None
      {
        if results[i].Some? {
          if successful == [] { first := i; }
          successful := successful + [results[i].value];
        }
      }
      outcome := if successful == [] then NoValidSignature else Signed(successful[0]);
      assert successful != [] ==>
        answers(first) == Some(successful[0]) && forall i: nat :: i < first ==> answers(i) == None;
    }
  }
}
