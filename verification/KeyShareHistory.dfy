/** Whole histories of key-share runs, starting from an empty directory, with party counts and
    encryption varying from run to run. */
module KeyShareHistory {
  import opened Common
  import opened Dealer

  function NoFiles<S>(): Files<S> {
    Files(map[], map[])
  }

  function History<S>(runs: seq<Run<S>>): Files<S> {
    if runs == [] then NoFiles()
    else After(History(runs[..|runs| - 1]), runs[|runs| - 1])
  }

  /** Every party has a key, and every key parses, if there is to be encryption. */
  predicate GoodKeys<S>(run: Run<S>) {
    run.keys.Some? ==>
      |run.shares| <= |run.keys.value| && forall i :: 0 <= i < |run.shares| ==> run.keys.value[i]
  }

  // ----- all or nothing -----

  ghost predicate EncryptedPrefix<S>(f: Files<S>) {
    forall i: nat, j: nat :: i < j && j in f.encrypted ==> i in f.encrypted
  }

  /** Encrypted parties are always 0 .. k - 1 for some k. */
  lemma {:induction false} EncryptedIsPrefix<S>(runs: seq<Run<S>>)
    ensures EncryptedPrefix(History(runs))
  {
    if runs != [] {
      var f, run := History(runs[..|runs| - 1]), runs[|runs| - 1];
      EncryptedIsPrefix(runs[..|runs| - 1]);
      var n := Written(f, run, 0);
      forall i: nat, j: nat | i < j && j in History(runs).encrypted
        ensures i in History(runs).encrypted
      {
        FilesAfter(f, run, n, i);
        FilesAfter(f, run, n, j);
        if j in f.encrypted && run.keys.Some? && n > 0 { assert 0 in f.encrypted; }
      }
    }
  }

  /** After any history a run with good keys updates all its files or none, and it updates
      none exactly when party 0's file is encrypted (or it has no share to write). */
  lemma AllOrNothing<S>(runs: seq<Run<S>>, run: Run<S>)
    requires GoodKeys(run) && run.shares != []
    ensures Written(History(runs), run, 0)
         == if 0 in History(runs).encrypted then 0 else |run.shares|
  {
    EncryptedIsPrefix(runs);
  }

  /** A run leaves its files half updated exactly when it is the first to encrypt and its keys
      fail at a party other than the first. */
  lemma HalfUpdatedIff<S>(runs: seq<Run<S>>, run: Run<S>)
    requires run.shares != []
    ensures 0 < Written(History(runs), run, 0) < |run.shares|
       <==> && 0 !in History(runs).encrypted && !GoodKeys(run)
            && run.keys.value != [] && run.keys.value[0]
  {
    EncryptedIsPrefix(runs);
    var f := History(runs);
    var n := Written(f, run, 0);
    assert 0 < n ==> !Refuses(f, run, 0);
    if !GoodKeys(run) {
      var i := if |run.keys.value| < |run.shares| then |run.keys.value| else FirstBadKey(run);
      assert Refuses(f, run, i);
    }
  }

  ghost function FirstBadKey<S>(run: Run<S>): (i: nat)
    requires !GoodKeys(run) && |run.shares| <= |run.keys.value|
    ensures i < |run.shares| && !run.keys.value[i]
  {
    var i :| 0 <= i < |run.shares| && !run.keys.value[i];
    i
  }

  /** Once a run has encrypted, no later run changes anything. */
  lemma {:induction false} EncryptionIsFinal<S>(runs: seq<Run<S>>, later: seq<Run<S>>)
    requires 0 in History(runs).encrypted
    ensures History(runs + later) == History(runs)
    decreases |later|
  {
    if later == [] {
      assert runs + later == runs;
    } else {
      var n := |later| - 1;
      EncryptionIsFinal(runs, later[..n]);
      assert (runs + later)[..|runs + later| - 1] == runs + later[..n];
    }
  }

  // ----- shares stay paired -----

  /** What a reader finds in a party's file, the encrypted one if there is one. */
  function Content<S>(f: Files<S>, i: nat): map<string, S> {
    if i in f.encrypted then f.encrypted[i] else Existing(f, i)
  }

  /** In every file a run writes, the other accounts' entries are what they were. */
  lemma OthersKept<S>(f: Files<S>, run: Run<S>, i: nat, other: string)
    requires other != run.account
    ensures other in Content(After(f, run), i) <==> other in Content(f, i)
    ensures other in Content(f, i) ==> Content(After(f, run), i)[other] == Content(f, i)[other]
  {
    var n := Written(f, run, 0);
    FilesAfter(f, run, n, i);
    if i < n { assert !Refuses(f, run, i); }
  }

  /** Run `k` had shares to write and wrote all its files. */
  predicate Succeeds<S>(runs: seq<Run<S>>, k: nat)
    requires k < |runs|
  {
    runs[k].shares != [] && Written(History(runs[..k]), runs[k], 0) == |runs[k].shares|
  }

  /** After any history with good keys, if run `k` is the last one for its account that succeeded,
      every one of its parties has that run's share, so the shares in the files belong together. */
  lemma {:induction false} SharesStayPaired<S>(runs: seq<Run<S>>, k: nat, i: nat)
    requires forall j :: 0 <= j < |runs| ==> GoodKeys(runs[j])
    requires k < |runs| && Succeeds(runs, k)
    requires forall j :: k < j < |runs| && runs[j].account == runs[k].account ==> !Succeeds(runs, j)
    requires i < |runs[k].shares|
    ensures runs[k].account in Content(History(runs), i)
    ensures Content(History(runs), i)[runs[k].account] == runs[k].shares[i]
  {
    assert runs[..|runs|] == runs;
    PairedUpTo(runs, k, i, |runs|);
  }

  /** The same after the first `m` runs. */
  lemma {:induction false} PairedUpTo<S>(runs: seq<Run<S>>, k: nat, i: nat, m: nat)
    requires forall j :: 0 <= j < |runs| ==> GoodKeys(runs[j])
    requires k < m <= |runs| && Succeeds(runs, k) && i < |runs[k].shares|
    requires forall j :: k < j < |runs| && runs[j].account == runs[k].account ==> !Succeeds(runs, j)
    ensures Holds(History(runs[..m]), i, runs[k].account, runs[k].shares[i])
  {
    var n := m - 1;
    assert runs[..m][..n] == runs[..n] && runs[..m][n] == runs[n];
    if k == n {
      FilesAfter(History(runs[..n]), runs[n], |runs[n].shares|, i);
      assert !Refuses(History(runs[..n]), runs[n], i);
    } else {
      PairedUpTo(runs, k, i, n);
      if runs[n].account == runs[k].account {
        assert !Succeeds(runs, n);
        if runs[n].shares != [] { AllOrNothing(runs[..n], runs[n]); }
      } else {
        OthersKept(History(runs[..n]), runs[n], i, runs[k].account);
      }
    }
  }

  predicate Holds<S(==)>(f: Files<S>, i: nat, account: string, share: S) {
    account in Content(f, i) && Content(f, i)[account] == share
  }

  /** With good keys a run succeeds exactly when the first file is not encrypted yet. */
  lemma SucceedsIff<S>(runs: seq<Run<S>>, k: nat)
    requires k < |runs| && GoodKeys(runs[k])
    ensures Succeeds(runs, k) <==> runs[k].shares != [] && 0 !in History(runs[..k]).encrypted
  {
    if runs[k].shares != [] { AllOrNothing(runs[..k], runs[k]); }
  }
}
