/** The rule by which progress under weak fairness is proved, for any transition system. */
module Justice {

  /** A claim about one run.  `pending(k)` asks for something at step k and `count(k)` says how
      much has been accomplished; `phase`, then `work`, rank the distance still to go;
      `helpful(k, t)` marks the tasks whose move shortens it, `moves(k, t)` who moves. */
  datatype Claim<!T> = Claim(
    pending: nat -> bool, count: nat -> nat, phase: nat -> nat, work: nat -> int,
    helpful: (nat, T) -> bool, moves: (nat, T) -> bool)

  ghost predicate Falls<T>(c: Claim<T>, k: nat) {
    c.phase(k + 1) < c.phase(k) || (c.phase(k + 1) == c.phase(k) && c.work(k + 1) < c.work(k))
  }

  ghost predicate SomeoneHelps<T(!new)>(c: Claim<T>, k: nat) {
    c.pending(k) ==> 0 <= c.work(k) && exists t :: c.helpful(k, t)
  }

  /** Whoever was helpful has not moved and still is. */
  ghost predicate HelpersWait<T(!new)>(c: Claim<T>, k: nat) {
    forall t :: c.helpful(k, t) ==> !c.moves(k, t) && c.helpful(k + 1, t)
  }

  /** A pending step accomplishes something, or lowers the rank, or leaves rank and helpers
      as they are. */
  ghost predicate StepServes<T(!new)>(c: Claim<T>, k: nat) {
    c.pending(k) ==>
      || c.count(k + 1) > c.count(k)
      || (&& c.pending(k + 1) && c.count(k + 1) == c.count(k)
          && (|| Falls(c, k)
              || (c.phase(k + 1) == c.phase(k) && c.work(k + 1) == c.work(k) && HelpersWait(c, k))))
  }

  /** From step k on, `t` moves at some point or is at some point not helpful. */
  ghost predicate Attended<T>(c: Claim<T>, t: T, k: nat) {
    exists n: nat :: k <= n && MovesOrRests(c, t, n)
  }

  ghost predicate MovesOrRests<T>(c: Claim<T>, t: T, n: nat) {
    c.moves(n, t) || !c.helpful(n, t)
  }

  lemma {:induction false} Concludes<T(!new)>(c: Claim<T>, i: nat) returns (j: nat)
    requires c.pending(i)
    requires forall k: nat :: i <= k ==> SomeoneHelps(c, k)
    requires forall k: nat :: i <= k ==> StepServes(c, k)
    requires forall t, k: nat :: i <= k ==> Attended(c, t, k)
    ensures i < j && c.count(j) > c.count(i)
    decreases c.phase(i), c.work(i)
  {
    assert SomeoneHelps(c, i);
    var t :| c.helpful(i, t);
    assert Attended(c, t, i);
    var n: nat :| i <= n && MovesOrRests(c, t, n);
    j := i;
    while true
      invariant i <= j <= n && c.pending(j) && c.helpful(j, t)
      invariant c.count(j) == c.count(i) && c.phase(j) == c.phase(i) && c.work(j) == c.work(i)
      decreases n - j
    {
      assert StepServes(c, j) && SomeoneHelps(c, j);
      j := j + 1;
      if c.count(j) > c.count(i) { return; }
      if Falls(c, j - 1) {
        assert SomeoneHelps(c, j);
        j := Concludes(c, j);
        return;
      }
    }
  }
}
