/** The key-share file updater (key-gen/src/dealer.rs): one run adds or replaces one account's
    share in each of n files, plain or encrypted, file by file.  Shares and keys are opaque;
    reading, writing and encrypting themselves do not fail. */
module Dealer {
  import opened Common
  import opened Decimal

  // ----- files -----

  /** The output files of one prefix: party `i` owns `{prefix}_{i+1}.json`, and its encrypted
      twin with `.age` behind it.  A plain file stays when its twin appears. */
  datatype Files<S> = Files(plain: map<nat, map<string, S>>, encrypted: map<nat, map<string, S>>)

  function BaseName(prefix: string, i: nat): string {
    prefix + "_" + PrintNat(i + 1) + ".json"
  }

  function EncryptedName(prefix: string, i: nat): string {
    BaseName(prefix, i) + ".age"
  }

  /** Different parties, and the two forms of one party's file, have different names, so the
      party number can stand for the file. */
  lemma NamesAreDistinct(prefix: string, i: nat, j: nat)
    ensures BaseName(prefix, i) == BaseName(prefix, j) <==> i == j
    ensures EncryptedName(prefix, i) == EncryptedName(prefix, j) <==> i == j
    ensures BaseName(prefix, i) != EncryptedName(prefix, j)
  {
    if BaseName(prefix, i) == BaseName(prefix, j) { SameNumber(prefix, i, j); }
    if EncryptedName(prefix, i) == EncryptedName(prefix, j) {
      var n := |EncryptedName(prefix, i)| - 4;
      assert EncryptedName(prefix, i)[..n] == BaseName(prefix, i);
      assert EncryptedName(prefix, j)[..n] == BaseName(prefix, j);
      SameNumber(prefix, i, j);
    }
    assert BaseName(prefix, i)[|BaseName(prefix, i)| - 1] == 'n';
    assert EncryptedName(prefix, j)[|EncryptedName(prefix, j)| - 1] == 'e';
  }

  lemma SameNumber(prefix: string, i: nat, j: nat)
    requires BaseName(prefix, i) == BaseName(prefix, j)
    ensures i == j
  {
    var lo, hi := |prefix| + 1, |BaseName(prefix, i)| - 5;
    assert BaseName(prefix, i)[lo..hi] == PrintNat(i + 1);
    assert BaseName(prefix, j)[lo..hi] == PrintNat(j + 1);
    PrintIntInjective(i + 1, j + 1);
  }

  /** The file name spells out the party's number, counted from 1. */
  lemma NameSpellsNumber(prefix: string, i: nat)
    ensures var name := BaseName(prefix, i);
            && |name| > |prefix| + 6 && name[..|prefix| + 1] == prefix + "_" && name[|name| - 5..] == ".json"
            && DigitsValue(name[|prefix| + 1..|name| - 5]) == Some(i + 1)
    ensures EncryptedName(prefix, i) == BaseName(prefix, i) + ".age"
  {
    PrintedDigits(i + 1);
    var name := BaseName(prefix, i);
    assert name[|prefix| + 1..|name| - 5] == PrintNat(i + 1);
  }

  // ----- one run -----

  /** What a run is asked to do.  `keys` are the recipients' public keys when the files are to
      be encrypted; an entry says whether the key parses. */
  datatype Run<S> = Run(account: string, shares: seq<S>, keys: Option<seq<bool>>)

  datatype Result =
    | Saved
    | NotGenerated
    | CannotAppend(party: nat)   // the file is there in encrypted form
    | MissingKey(party: nat)     // fewer keys than parties: an index panic
    | InvalidKey(party: nat)     // the key does not parse

  /** The run cannot get past party `i`. */
  predicate Refuses<S>(f: Files<S>, run: Run<S>, i: nat) {
    || i in f.encrypted
    || (run.keys.Some? && (i >= |run.keys.value| || !run.keys.value[i]))
  }

  /** How many parties' files the run writes: it stops at the first that it cannot get past. */
  function Written<S>(f: Files<S>, run: Run<S>, from: nat): (n: nat)
    requires from <= |run.shares|
    ensures from <= n <= |run.shares|
    ensures forall i :: from <= i < n ==> !Refuses(f, run, i)
    ensures n < |run.shares| ==> Refuses(f, run, n)
    decreases |run.shares| - from
  {
    if from == |run.shares| || Refuses(f, run, from) then from else Written(f, run, from + 1)
  }

  /** Accounts in a party's file before the run; an absent file counts as an empty one. */
  function Existing<S>(f: Files<S>, i: nat): map<string, S> {
    if i in f.plain then f.plain[i] else map[]
  }

  /** The content the run gives party `i`. */
  function Updated<S>(f: Files<S>, run: Run<S>, i: nat): map<string, S>
    requires i < |run.shares|
  {
    Existing(f, i)[run.account := run.shares[i]]
  }

  /** The files once one more party's file has been written. */
  function WriteParty<S>(f: Files<S>, run: Run<S>, i: nat): Files<S>
    requires i < |run.shares|
  {
    if run.keys.Some? then f.(encrypted := f.encrypted[i := Updated(f, run, i)])
    else f.(plain := f.plain[i := Updated(f, run, i)])
  }

  /** The files after the first `n` parties have been written. */
  function AfterWriting<S>(f: Files<S>, run: Run<S>, n: nat): Files<S>
    requires n <= |run.shares|
  {
    if n == 0 then f else WriteParty(AfterWriting(f, run, n - 1), run, n - 1)
  }

  function After<S>(f: Files<S>, run: Run<S>): Files<S> {
    AfterWriting(f, run, Written(f, run, 0))
  }

  /** File by file: the parties written have the old accounts and the new share, in the form
      the run asks for; every other file is as it was. */
  lemma {:induction false} FilesAfter<S>(f: Files<S>, run: Run<S>, n: nat, i: nat)
    requires n <= |run.shares|
    ensures var g := AfterWriting(f, run, n);
            var before: map<string, S> := if i in f.plain then f.plain[i] else map[];
            && (i in g.encrypted <==> i in f.encrypted || (run.keys.Some? && i < n))
            && (i in g.plain <==> i in f.plain || (run.keys.None? && i < n))
            && (i in g.encrypted ==>
                  g.encrypted[i] == (if run.keys.Some? && i < n then before[run.account := run.shares[i]]
                                     else f.encrypted[i]))
            && (i in g.plain ==>
                  g.plain[i] == (if run.keys.None? && i < n then before[run.account := run.shares[i]]
                                 else f.plain[i]))
  {
    if n > 0 {
      FilesAfter(f, run, n - 1, i);
      FilesAfter(f, run, n - 1, n - 1);
    }
  }

  // ----- the program -----

  /** The output directory. */
  class Disk<S> {
    var plain: map<nat, map<string, S>>
    var encrypted: map<nat, map<string, S>>

    constructor ()
      ensures Content() == Files(map[], map[])
    {
      plain, encrypted := map[], map[];
    }

    ghost function Content(): Files<S>
      reads this
    {
      Files(plain, encrypted)
    }
  }

  class KeyShareDealer<S> {
    const account: string
    const parties: nat
    const keys: Option<seq<bool>>
    var keyShares: Option<seq<S>>

    ghost predicate Valid()
      reads this
    {
      keyShares.Some? ==> |keyShares.value| == parties
    }

    /** A dealer exists only for a valid configuration. */
    static method New(account: string, parties: nat, threshold: nat, keys: Option<seq<bool>>)
      returns (dealer: Option<KeyShareDealer<S>>)
      ensures dealer.Some? <==> 2 <= threshold <= parties
      ensures dealer.Some? ==>
        var d := dealer.value;
        fresh(d) && d.Valid() && d.keyShares == None
        && d.account == account && d.parties == parties && d.keys == keys
    {
      if parties < 2 || threshold < 2 || threshold > parties { return None; }
      var d := new KeyShareDealer(account, parties, keys);
      dealer := Some(d);
    }

    constructor (account: string, parties: nat, keys: Option<seq<bool>>)
      ensures Valid() && keyShares == None
      ensures this.account == account && this.parties == parties && this.keys == keys
    {
      this.account, this.parties, this.keys, keyShares := account, parties, keys, None;
    }

    /** The child key must be in the range of secret scalars and not zero; then the trusted
        dealer makes one share for each party, or fails.  Without new shares the old ones, if
        any, are kept. */
    method GenerateShares(childKey: nat, order: nat, dealt: Option<seq<S>>) returns (made: bool)
      requires Valid() && (dealt.Some? ==> |dealt.value| == parties)
      modifies this
      ensures Valid()
      ensures made <==> 0 < childKey < order && dealt.Some?
      ensures keyShares == if made then dealt else old(keyShares)
    {
      if childKey >= order || childKey == 0 { return false; }
      if dealt.None? { return false; }
      keyShares := dealt;
      made := true;
    }

    /** Without shares nothing happens.  Otherwise the files before the first party that cannot
        be passed are written, and the result tells what stopped the run there. */
    method SaveToFiles(disk: Disk<S>) returns (result: Result)
      requires Valid()
      modifies disk
      ensures keyShares == None ==> result == NotGenerated && disk.Content() == old(disk.Content())
      ensures keyShares.Some? ==>
        var n := Written(old(disk.Content()), Run(account, keyShares.value, keys), 0);
        && disk.Content() == After(old(disk.Content()), Run(account, keyShares.value, keys))
        && n <= parties
        && disk.Content() == AfterWriting(old(disk.Content()), Run(account, keyShares.value, keys), n)
        && (forall i :: 0 <= i < n ==>
              i !in old(disk.encrypted) && (keys.Some? ==> i < |keys.value| && keys.value[i]))
        && (result == Saved || result == CannotAppend(n) || result == MissingKey(n) || result == InvalidKey(n))
        && (result == Saved <==> n == parties)
        && (result == CannotAppend(n) <==> n < parties && n in old(disk.encrypted))
        && (result == MissingKey(n) <==>
              n < parties && n !in old(disk.encrypted) && keys.Some? && |keys.value| <= n)
        && (result == InvalidKey(n) <==>
              n < parties && n !in old(disk.encrypted) && keys.Some? && n < |keys.value| && !keys.value[n])
    {
      if keyShares == None { return NotGenerated; }
      ghost var f := disk.Content();
      ghost var run := Run(account, keyShares.value, keys);
      var i := 0;
      while i < |keyShares.value|
        invariant i <= |keyShares.value| == parties
        invariant disk.Content() == AfterWriting(f, run, i)
        invariant Written(f, run, 0) == Written(f, run, i)
        invariant forall k :: 0 <= k < i ==>
          k !in old(disk.encrypted) && (keys.Some? ==> k < |keys.value| && keys.value[k])
      {
        FilesAfter(f, run, i, i);
        if i in disk.encrypted { return CannotAppend(i); }
        var accounts: map<string, S> := if i in disk.plain then disk.plain[i] else map[];
        accounts := accounts[account := keyShares.value[i]];
        match keys {
          case Some(recipients) =>
            if i >= |recipients| { return MissingKey(i); }
            if !recipients[i] { return InvalidKey(i); }
            disk.encrypted := disk.encrypted[i := accounts];
          case None =>
            disk.plain := disk.plain[i := accounts];
        }
        i := i + 1;
      }
      result := Saved;
    }
  }
}
