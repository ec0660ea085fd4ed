/** The failed-login counter of one user and the lockout it leads to. Times are milliseconds. */
module Lockout {
  import opened Results

  const MAX_FAILED_ATTEMPTS := 5
  const LOCKOUT := 30 * 60 * 1000

  datatype Account = Account(failedAttempts: nat, lockedUntil: Option<int>)

  /** What a login brings: the time, whether the password is right, whether two factors are on, the code's validity. */
  datatype Attempt = Attempt(at: int, passwordRight: bool, twoFactor: bool, code: Option<bool>)

  datatype Verdict = Locked | Denied | MfaRequired | LoggedIn

  datatype Outcome = Outcome(account: Account, verdict: Verdict)

  const FRESH := Account(0, None)

  predicate LockedAt(a: Account, now: int) {
    a.lockedUntil.Some? && a.lockedUntil.value > now
  }

  function Login(a: Account, attempt: Attempt): Outcome {
    if LockedAt(a, attempt.at) then Outcome(a, Locked)
    else if !attempt.passwordRight then
      var failed := a.failedAttempts + 1;
      var until := if failed >= MAX_FAILED_ATTEMPTS then Some(attempt.at + LOCKOUT) else a.lockedUntil;
      Outcome(Account(failed, until), Denied)
    else
      // The counter is reset before the second factor is looked at.
      Outcome(FRESH,
              if attempt.twoFactor && attempt.code.None? then MfaRequired
              else if attempt.twoFactor && !attempt.code.value then Denied
              else LoggedIn)
  }

  function After(history: seq<Attempt>): Account {
    if |history| == 0 then FRESH
    else Login(After(history[..|history| - 1]), history[|history| - 1]).account
  }

  predicate Clocked(history: seq<Attempt>) {
    forall i, j :: 0 <= i < j < |history| ==> history[i].at <= history[j].at
  }

  /** The n-th attempt got as far as the password check. */
  predicate Checked(history: seq<Attempt>, n: nat)
    requires n < |history|
  {
    !LockedAt(After(history[..n]), history[n].at)
  }

  /** The failed password checks among attempts from..to. */
  function Failures(history: seq<Attempt>, from: nat, to: nat): nat
    requires from <= to <= |history|
  {
    if from == to then 0
    else Failures(history, from, to - 1) + if Checked(history, to - 1) && !history[to - 1].passwordRight then 1 else 0
  }

  /** None of the attempts from..to brought the right password to a check. */
  predicate NoneRight(history: seq<Attempt>, from: nat, to: nat)
    requires from <= to <= |history|
  {
    forall i :: from <= i < to ==> !(Checked(history, i) && history[i].passwordRight)
  }

  // ---------------------------------------------------------------------------
  // The bound
  // ---------------------------------------------------------------------------

  lemma {:induction false} OneMore(history: seq<Attempt>, n: nat)
    requires n < |history|
    ensures After(history[..n + 1]) == Login(After(history[..n]), history[n]).account
  {
    assert history[..n + 1][..n] == history[..n];
  }

  /** The lock is set exactly at the threshold and beyond. */
  ghost predicate LockFits(a: Account) {
    a.failedAttempts >= MAX_FAILED_ATTEMPTS <==> a.lockedUntil.Some?
  }

  /** At the threshold and beyond, the account carries a lock. */
  lemma {:induction false} ThresholdMeansLock(history: seq<Attempt>)
    ensures LockFits(After(history))
  {
    if |history| > 0 {
      ThresholdMeansLock(history[..|history| - 1]);
    }
  }

  /** Where k failures have pushed the lock, seen from the first of them. */
  ghost predicate LockAhead(a: Account, k: nat, first: int) {
    k >= MAX_FAILED_ATTEMPTS ==>
      a.lockedUntil.Some? && a.lockedUntil.value >= first + (k - MAX_FAILED_ATTEMPTS + 1) * LOCKOUT
  }

  lemma {:induction false} LockStep(a: Account, attempt: Attempt, k: nat, first: int)
    requires first <= attempt.at && a.failedAttempts >= k && LockAhead(a, k, first)
    requires LockedAt(a, attempt.at) || !attempt.passwordRight
    ensures var more := if LockedAt(a, attempt.at) then 0 else 1;
            && LockAhead(Login(a, attempt).account, k + more, first)
            && Login(a, attempt).account.failedAttempts == a.failedAttempts + more
  {
  }

  /** While no right password is checked the counter counts, and k failures push the lock k - 4 periods ahead. */
  lemma {:induction false} LockMovesAhead(history: seq<Attempt>, from: nat, to: nat)
    requires from <= to <= |history| && Clocked(history) && NoneRight(history, from, to)
    ensures var k, a := Failures(history, from, to), After(history[..to]);
            && a.failedAttempts == After(history[..from]).failedAttempts + k
            && (k > 0 ==> from < to)
            && (from < to ==> LockAhead(a, k, history[from].at))
  {
    if from < to {
      assert from == to - 1 ==> LockAhead(After(history[..from]), 0, history[from].at);
      hide Login, LockAhead, After;
      LockMovesAhead(history, from, to - 1);
      OneMore(history, to - 1);
      LockStep(After(history[..to - 1]), history[to - 1], Failures(history, from, to - 1), history[from].at);
    }
  }

  /** k failed checks in a row take at least k - 5 lockout periods. */
  lemma {:induction false} FailuresTakeTime(history: seq<Attempt>, from: nat, to: nat)
    requires from < to <= |history| && Clocked(history) && NoneRight(history, from, to)
    ensures Failures(history, from, to) > MAX_FAILED_ATTEMPTS ==>
              history[to - 1].at - history[from].at >= (Failures(history, from, to) - MAX_FAILED_ATTEMPTS) * LOCKOUT
  {
    LockMovesAhead(history, from, to - 1);
    if from < to - 1 && Failures(history, from, to) == Failures(history, from, to - 1) {
      FailuresTakeTime(history, from, to - 1);
    }
  }

  /**
   * Any half-open window of 30 minutes in which no right password is checked holds at most 5 failed password
   * checks, whatever happened before it.
   */
  lemma {:induction false} AtMostFivePerWindow(history: seq<Attempt>, from: nat, to: nat, start: int)
    requires from < to <= |history| && Clocked(history) && NoneRight(history, from, to)
    requires start <= history[from].at && history[to - 1].at < start + 1_800_000
    ensures Failures(history, from, to) <= 5
  {
    FailuresTakeTime(history, from, to);
  }

  /** While locked, nothing a caller sends changes the account, not even the right password. */
  lemma {:induction false} LockedIsInert(history: seq<Attempt>, from: nat, to: nat)
    requires from <= to <= |history|
    requires forall i :: from <= i < to ==> LockedAt(After(history[..from]), history[i].at)
    ensures After(history[..to]) == After(history[..from])
    ensures forall i :: from <= i < to ==> !Checked(history, i)
  {
    if from < to {
      LockedIsInert(history, from, to - 1);
      OneMore(history, to - 1);
    }
  }

  /**
   * What a login is answered and what it leaves: locked while the lock lasts and then unchanged; in with the right
   * password and, where two factors are on, a valid code; a wrong password counts, and from the fifth on locks for 30
   * minutes; a right one resets, whatever the second factor says.
   */
  lemma {:induction false} LoginLaw(a: Account, at: int, passwordRight: bool, twoFactor: bool, code: Option<bool>)
    ensures var after := Login(a, Attempt(at, passwordRight, twoFactor, code));
            var locked := a.lockedUntil.Some? && a.lockedUntil.value > at;
            && (after.verdict == Locked <==> locked)
            && (after.verdict == LoggedIn <==> !locked && passwordRight && (twoFactor ==> code == Some(true)))
            && (after.verdict == MfaRequired <==> !locked && passwordRight && twoFactor && code == None)
            && (locked ==> after.account == a)
            && (!locked && passwordRight ==> after.account == Account(0, None))
            && (!locked && !passwordRight ==>
                  && after.account.failedAttempts == a.failedAttempts + 1
                  && after.account.lockedUntil == if a.failedAttempts + 1 >= 5 then Some(at + 1_800_000) else a.lockedUntil)
  {
  }

  /** What counts as a failed check: an attempt that finds no lock and brings a wrong password. */
  lemma {:induction false} FailuresAreWrongPasswords(history: seq<Attempt>, from: nat, n: nat)
    requires from <= n < |history|
    ensures var a := After(history[..n]);
            Failures(history, from, n + 1) == Failures(history, from, n)
            + if !(a.lockedUntil.Some? && a.lockedUntil.value > history[n].at) && !history[n].passwordRight then 1 else 0
  {
  }

  // ---------------------------------------------------------------------------
  // The service
  // ---------------------------------------------------------------------------

  class User {
    var failedAttempts: nat
    var lockedUntil: Option<int>

    function View(): Account
      reads this
    {
      Account(failedAttempts, lockedUntil)
    }

    constructor ()
      ensures View() == FRESH
    {
      failedAttempts, lockedUntil := 0, None;
    }

    method TryLogin(now: int, passwordRight: bool, twoFactor: bool, code: Option<bool>) returns (verdict: Verdict)
      modifies this
      ensures Outcome(View(), verdict) == Login(old(View()), Attempt(now, passwordRight, twoFactor, code))
      ensures LockFits(old(View())) ==> LockFits(View())
      ensures verdict == Locked <==> LockedAt(old(View()), now)
      ensures verdict == Locked ==> View() == old(View())
      ensures verdict != Locked ==> (passwordRight <==> View() == FRESH)
      ensures verdict == LoggedIn ==> passwordRight && (twoFactor ==> code == Some(true))
    {
      if lockedUntil.Some? && lockedUntil.value > now { return Locked; }
      if !passwordRight {
        var newAttempts := failedAttempts + 1;
        failedAttempts := newAttempts;
        if newAttempts >= MAX_FAILED_ATTEMPTS { lockedUntil := Some(now + LOCKOUT); }
        return Denied;
      }
      failedAttempts, lockedUntil := 0, None;
      if twoFactor && code.None? { return MfaRequired; }
      if twoFactor && !code.value { return Denied; }
      verdict := LoggedIn;
    }
  }
}
