/**
 The rendezvous budget of a derived Dmx dial (RetryDialDmx and the part of
 On_ConClose that reads it, src/FacadeHub.cpp).
 */
module RetryDial {
  const TRIES: nat := 8
  const REDIAL_MILLIS: nat := 500

  /** tries is signed in the source: the last attempt leaves it at zero. */
  datatype Budget = Budget(tries: int, autoRestart: nat) {
    predicate Exhausted() { tries <= 0 }
    predicate Restarts() { autoRestart != 0 }
  }

  const FULL := Budget(TRIES, REDIAL_MILLIS)

  /** One attempt, spent before the kernel's Connect and given back by a hit. */
  function Attempt(b: Budget, hit: bool): Budget {
    if hit then FULL
    else Budget(b.tries - 1, if b.tries - 1 <= 0 then 0 else b.autoRestart)
  }

  class RetryDialDmx {
    var triesLeft: int
    var autoRestart: nat

    function State(): Budget
      reads this
    {
      Budget(triesLeft, autoRestart)
    }

    constructor ()
      ensures State() == FULL
    {
      triesLeft, autoRestart := TRIES, REDIAL_MILLIS;
    }

    /** hit: what the kernel's Connect does; a miss throws past the refresh. */
    method Connect(hit: bool) returns (threw: bool)
      modifies this
      ensures State() == Attempt(old(State()), hit)
      ensures threw == !hit
    {
      triesLeft := triesLeft - 1;
      if triesLeft <= 0 {
        autoRestart := 0;
      }
      if !hit { return true; }
      triesLeft := TRIES;
      autoRestart := REDIAL_MILLIS;
      return false;
    }
  }

  /** A close event: does the kernel dial again, and is the client told that the dial gave up? */
  datatype Close = Close(redials: bool, gaveUp: bool)

  function OnConClose(b: Budget): Close { Close(b.Restarts(), b.Exhausted()) }

  /** The budget after a sequence of attempts, oldest first; true is a hit. */
  function After(attempts: seq<bool>): Budget {
    if attempts == [] then FULL else Attempt(After(attempts[..|attempts| - 1]), attempts[|attempts| - 1])
  }

  /** A life of the dial: each attempt after the first exists because the close before it redialled. */
  ghost predicate Life(attempts: seq<bool>) {
    forall i :: 0 < i < |attempts| ==> OnConClose(After(attempts[..i])).redials
  }

  /** How many attempts at the end missed in a row. */
  function Misses(attempts: seq<bool>): nat {
    if attempts == [] || attempts[|attempts| - 1] then 0 else 1 + Misses(attempts[..|attempts| - 1])
  }

  lemma {:induction false} BudgetCountsMisses(attempts: seq<bool>)
    ensures After(attempts).tries == TRIES - Misses(attempts)
    ensures After(attempts).autoRestart == if Misses(attempts) >= TRIES then 0 else REDIAL_MILLIS
  {
    if attempts != [] { BudgetCountsMisses(attempts[..|attempts| - 1]); }
  }

  /** The close after any history gives up, and stops, at the eighth miss in a row and not before. */
  lemma GivesUpExactlyAtEight(attempts: seq<bool>)
    ensures OnConClose(After(attempts)).gaveUp <==> Misses(attempts) >= 8
    ensures OnConClose(After(attempts)).redials <==> Misses(attempts) < 8
  {
    BudgetCountsMisses(attempts);
  }

  /** The lives of a dial are the histories in which nothing follows eight misses in a row. */
  lemma LifeIff(attempts: seq<bool>)
    ensures Life(attempts) <==> forall i :: 0 < i < |attempts| ==> Misses(attempts[..i]) < 8
  {
    forall i | 0 < i < |attempts|
      ensures OnConClose(After(attempts[..i])).redials <==> Misses(attempts[..i]) < TRIES
    {
      GivesUpExactlyAtEight(attempts[..i]);
    }
  }

  /** So a life never misses more than eight times running, and only its last close can give up. */
  lemma AtMostEight(attempts: seq<bool>, n: nat)
    requires Life(attempts) && n <= |attempts|
    ensures Misses(attempts[..n]) <= 8
    ensures n > 0 && OnConClose(After(attempts[..n])).gaveUp ==> n == |attempts| && Misses(attempts) == 8
  {
    LifeIff(attempts);
    GivesUpExactlyAtEight(attempts[..n]);
    if n > 0 {
      var prefix := attempts[..n];
      assert prefix[..n - 1] == attempts[..n - 1];
      if n - 1 > 0 { assert Misses(attempts[..n - 1]) < TRIES; }
    }
    assert attempts[..|attempts|] == attempts;
  }

  /** After a hit, however old the dial, a dropped link has the whole budget again. */
  lemma {:induction false} HitRefreshes(before: seq<bool>, k: nat)
    requires k <= TRIES
    ensures var history := before + [true] + seq(k, i => false);
      && Misses(history) == k
      && After(history) == if k == 0 then FULL else Budget(TRIES - k, if k == TRIES then 0 else REDIAL_MILLIS)
  {
    var history := before + [true] + seq(k, i => false);
    if k == 0 {
      assert history == before + [true];
    } else {
      HitRefreshes(before, k - 1);
      assert history[..|history| - 1] == before + [true] + seq(k - 1, i => false);
    }
  }
}
