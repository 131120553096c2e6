/**
 The answers of a remote party, call after call: how far a loop that stops at the first failure gets.
 */
module Answers {
  import opened RdbErrno

  /** How many of `n` calls from number `from` on succeed before one fails. */
  function Successes(answers: nat -> int, from: nat, n: nat): (k: nat)
    ensures k <= n
    decreases n
  {
    if n == 0 || answers(from) != E_OK then 0 else 1 + Successes(answers, from + 1, n - 1)
  }

  lemma {:induction false} SuccessesStep(answers: nat -> int, from: nat, n: nat, i: nat)
    requires i < n && Successes(answers, from, n) >= i
    ensures Successes(answers, from, n) > i <==> answers(from + i) == E_OK
    decreases i
  {
    if i > 0 { SuccessesStep(answers, from + 1, n - 1, i - 1); }
  }

  /** The calls before the count succeed, and the one at it fails. */
  lemma {:induction false} SuccessesAre(answers: nat -> int, from: nat, n: nat)
    ensures var k := Successes(answers, from, n);
            (forall i | from <= i < from + k :: answers(i) == E_OK) && (k < n ==> answers(from + k) != E_OK)
    decreases n
  {
    if n > 0 { SuccessesAre(answers, from + 1, n - 1); }
  }

  lemma {:induction false} AllSucceed(answers: nat -> int, from: nat, n: nat)
    requires forall m :: answers(m) == E_OK
    ensures Successes(answers, from, n) == n
    decreases n
  {
    if n > 0 { AllSucceed(answers, from + 1, n - 1); }
  }
}
