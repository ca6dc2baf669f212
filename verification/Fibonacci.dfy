/**
 The three Fibonacci implementations of lesson 9: a coroutine that yields one number per resume, a
 loop, and plain recursion, all in the wrap-around arithmetic of a 64-bit unsigned long.
 */
module Fibonacci {
  const WORD: nat := 0x1_0000_0000_0000_0000

  type ulong = x: nat | x < WORD

  function Fib(n: nat): nat {
    if n < 2 then n else Fib(n - 1) + Fib(n - 2)
  }

  function Plus(x: ulong, y: ulong): ulong {
    (x + y) % WORD
  }

  lemma PlusWraps(x: nat, y: nat)
    ensures Plus(x % WORD, y % WORD) == (x + y) % WORD
  {
  }

  /** fibonacci_recursive. */
  function Recursive(n: int): ulong
    decreases if n < 0 then 0 else n
  {
    if n <= 0 then 0 else if n == 1 then 1 else Plus(Recursive(n - 1), Recursive(n - 2))
  }

  lemma {:induction false} RecursiveIsFib(n: int)
    ensures Recursive(n) == if n <= 0 then 0 else Fib(n) % WORD
    decreases if n < 0 then 0 else n
  {
    if n >= 2 {
      RecursiveIsFib(n - 1);
      RecursiveIsFib(n - 2);
      PlusWraps(Fib(n - 1), Fib(n - 2));
    }
  }

  /** fibonacci_iterative. */
  method Iterative(n: int) returns (result: ulong)
    ensures result == if n <= 0 then 0 else Fib(n) % WORD
  {
    if n <= 0 {
      return 0;
    }
    if n == 1 {
      return 1;
    }
    var a: ulong, b: ulong := 0, 1;
    result := 0;
    var i := 2;
    while i <= n
      invariant 2 <= i <= n + 1
      invariant a == Fib(i - 2) % WORD && b == Fib(i - 1) % WORD
      invariant i > 2 ==> result == b
    {
      PlusWraps(Fib(i - 2), Fib(i - 1));
      result := Plus(a, b);
      a := b;
      b := result;
      i := i + 1;
    }
  }

  /** Where the generator goes on when it is resumed next. */
  datatype Resume = AtStart | AfterFirst | AfterSecond | InLoop

  class Coroutine {
    var resume: Resume
    var a: ulong
    var b: ulong
    var value: ulong
    var isDone: bool
    ghost var resumes: nat

    ghost predicate Valid()
      reads this
    {
      match resume
      case AtStart => resumes == 0
      case AfterFirst => resumes == 1 && a == 0 && b == 1
      case AfterSecond => resumes == 2 && a == 0 && b == 1
      case InLoop => resumes > 2 && a == Fib(resumes - 2) % WORD && b == Fib(resumes - 1) % WORD
    }

    constructor ()
      ensures Valid() && !isDone && resumes == 0
    {
      resume, a, b, value, isDone, resumes := AtStart, 0, 0, 0, false, 0;
    }

    /** coroutine_next: run the generator from its resume point to the next swapcontext. */
    method Next() returns (r: ulong)
      requires Valid()
      modifies this
      ensures Valid() && isDone == old(isDone)
      ensures resumes == old(resumes) + if isDone then 0 else 1
      ensures r == if isDone then 0 else Fib(old(resumes)) % WORD
    {
      if isDone {
        return 0;
      }
      match resume {
        case AtStart =>
          a, b := 0, 1;
          value := a;
          resume := AfterFirst;
        case AfterFirst =>
          value := b;
          resume := AfterSecond;
        case _ =>
          PlusWraps(Fib(resumes - 2), Fib(resumes - 1));
          var next := Plus(a, b);
          a := b;
          b := next;
          value := next;
          resume := InLoop;
      }
      resumes := resumes + 1;
      r := value;
    }
  }

  /** The three agree for every n, and are the Fibonacci number itself whenever it fits. */
  method ThreeWaysAgree(n: nat) returns (coroutine: ulong, iterative: ulong, recursive: ulong)
    ensures coroutine == iterative == recursive == Fib(n) % WORD
    ensures Fib(n) < WORD ==> coroutine == Fib(n)
  {
    var co := new Coroutine();
    coroutine := 0;
    for i := 0 to n + 1
      invariant co.Valid() && !co.isDone && co.resumes == i && fresh(co)
      invariant i > 0 ==> coroutine == Fib(i - 1) % WORD
    {
      coroutine := co.Next();
    }
    iterative := Iterative(n);
    recursive := Recursive(n);
    RecursiveIsFib(n);
  }
}
