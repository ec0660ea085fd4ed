/**
 * The lock around scheduled jobs, as a protocol over any number of calls in any number of processes: SET NX EX,
 * the job, an unconditional DEL. A call is named by its place in the sequence of calls. Times are milliseconds.
 */
module JobLock {

  const TTL := 3600 * 1000

  /** Running: in the job. Releasing: the job has ended, its DEL has not been carried out yet. */
  datatype Phase =
    | Skipped
    | Running(key: nat, since: int)
    | Releasing(key: nat, since: int)
    | Over

  /** The key's value says which call wrote it; the protocol never reads it. */
  datatype Lock = Lock(owner: nat, expiresAt: int)

  datatype State = State(now: int, keys: map<nat, Lock>, calls: seq<Phase>)

  datatype Op =
    | Tick(elapsed: nat)
    | Begin(key: nat)
    | EndJob(call: nat)
    | Delete(call: nat)
    | Crash(call: nat)

  predicate Held(s: State, key: nat) {
    key in s.keys && s.now <= s.keys[key].expiresAt
  }

  predicate Active(p: Phase) {
    p.Running? || p.Releasing?
  }

  predicate IsActive(s: State, call: nat) {
    call < |s.calls| && Active(s.calls[call])
  }

  predicate Enabled(s: State, op: Op) {
    match op
    case Tick(_) => true
    case Begin(_) => true
    case EndJob(call) => call < |s.calls| && s.calls[call].Running?
    case Delete(call) => call < |s.calls| && s.calls[call].Releasing?
    case Crash(call) => IsActive(s, call)
  }

  /** The job's end includes its failure; a crash stands for every call that never gets its DEL through. */
  function Step(s: State, op: Op): State
    requires Enabled(s, op)
  {
    match op
    case Tick(elapsed) => s.(now := s.now + elapsed)
    case Begin(key) =>
      if Held(s, key) then s.(calls := s.calls + [Skipped])
      else s.(keys := s.keys[key := Lock(|s.calls|, s.now + TTL)], calls := s.calls + [Running(key, s.now)])
    case EndJob(call) => s.(calls := s.calls[call := Releasing(s.calls[call].key, s.calls[call].since)])
    case Delete(call) => s.(keys := s.keys - {s.calls[call].key}, calls := s.calls[call := Over])
    case Crash(call) => s.(calls := s.calls[call := Over])
  }

  const INITIAL := State(0, map[], [])

  predicate AllEnabled(s: State, ops: seq<Op>)
    decreases |ops|
  {
    |ops| == 0 || (Enabled(s, ops[0]) && AllEnabled(Step(s, ops[0]), ops[1..]))
  }

  function Run(s: State, ops: seq<Op>): State
    requires AllEnabled(s, ops)
    decreases |ops|
  {
    if |ops| == 0 then s else Run(Step(s, ops[0]), ops[1..])
  }

  // ---------------------------------------------------------------------------
  // Exclusion on one key
  // ---------------------------------------------------------------------------

  /** The call is in its job on the key, or short of its DEL. */
  predicate IsOn(s: State, call: nat, key: nat) {
    IsActive(s, call) && s.calls[call].key == key
  }

  ghost predicate Exclusive(s: State, key: nat) {
    forall a: nat, b: nat :: IsOn(s, a, key) && IsOn(s, b, key) ==> a == b
  }

  /** The key still carries the entry that its active call wrote, expired or not. */
  ghost predicate Carries(s: State, key: nat) {
    forall call: nat :: IsOn(s, call, key) ==> key in s.keys && s.keys[key] == Lock(call, s.calls[call].since + TTL)
  }

  /** A call begins on the key while another is active on it past the lifetime of its lock. */
  ghost predicate Contends(s: State, op: Op, key: nat) {
    op == Begin(key) && exists call: nat :: IsOn(s, call, key) && s.now > s.calls[call].since + TTL
  }

  ghost predicate NeverContended(s: State, ops: seq<Op>, key: nat)
    requires AllEnabled(s, ops)
    decreases |ops|
  {
    |ops| == 0 || (!Contends(s, ops[0], key) && NeverContended(Step(s, ops[0]), ops[1..], key))
  }

  ghost predicate AlwaysExclusive(s: State, ops: seq<Op>, key: nat)
    requires AllEnabled(s, ops)
    decreases |ops|
  {
    Exclusive(s, key) && (|ops| == 0 || AlwaysExclusive(Step(s, ops[0]), ops[1..], key))
  }

  /** While the key carries its active call's entry, a step breaks exclusion, or that, exactly by contending. */
  lemma {:induction false} StepIsExclusiveIff(s: State, op: Op, key: nat)
    requires Carries(s, key) && Enabled(s, op)
    ensures Exclusive(Step(s, op), key) <==> !Contends(s, op, key)
    ensures Carries(Step(s, op), key) <==> !Contends(s, op, key)
  {
    var t := Step(s, op);
    if Contends(s, op, key) {
      var call: nat :| IsOn(s, call, key) && s.now > s.calls[call].since + TTL;
      assert IsOn(t, call, key) && IsOn(t, |s.calls|, key);
    } else {
      forall call: nat | IsOn(t, call, key)
        ensures key in t.keys && t.keys[key] == Lock(call, t.calls[call].since + TTL)
      {
        assert call < |s.calls| ==> IsOn(s, call, key);
      }
    }
  }

  /**
   * Mutual exclusion, exactly: in every state of a run at most one call is active on the key if and only if no call
   * begins on the key while another is active on it past its lock's lifetime. Other keys do not matter.
   */
  lemma {:induction false} RunIsExclusiveIff(s: State, ops: seq<Op>, key: nat)
    requires AllEnabled(s, ops) && Carries(s, key)
    ensures AlwaysExclusive(s, ops, key) <==> NeverContended(s, ops, key)
    ensures NeverContended(s, ops, key) ==> Carries(Run(s, ops), key)
    decreases |ops|
  {
    assert Exclusive(s, key);
    if |ops| > 0 {
      hide Exclusive, Carries, Contends, Step, Enabled;
      StepIsExclusiveIff(s, ops[0], key);
      if !Contends(s, ops[0], key) {
        RunIsExclusiveIff(Step(s, ops[0]), ops[1..], key);
      } else {
        NotAlwaysExclusive(Step(s, ops[0]), ops[1..], key);
      }
    }
  }

  lemma {:induction false} NotAlwaysExclusive(s: State, ops: seq<Op>, key: nat)
    requires AllEnabled(s, ops) && !Exclusive(s, key)
    ensures !AlwaysExclusive(s, ops, key)
  {
  }

  /** The same from the empty server, and what it means for any two calls on the key. */
  lemma {:induction false} MutualExclusion(ops: seq<Op>, key: nat)
    requires AllEnabled(INITIAL, ops)
    ensures AlwaysExclusive(INITIAL, ops, key) <==> NeverContended(INITIAL, ops, key)
    ensures NeverContended(INITIAL, ops, key) ==>
              forall a: nat, b: nat :: IsOn(Run(INITIAL, ops), a, key) && IsOn(Run(INITIAL, ops), b, key) ==> a == b
  {
    RunIsExclusiveIff(INITIAL, ops, key);
  }

  /** While its key is not contended, every DEL removes the entry its own call wrote, expired or not. */
  lemma {:induction false} DeletesOwnLock(ops: seq<Op>, call: nat)
    requires AllEnabled(INITIAL, ops) && Enabled(Run(INITIAL, ops), Delete(call))
    requires NeverContended(INITIAL, ops, Run(INITIAL, ops).calls[call].key)
    ensures var s := Run(INITIAL, ops);
            var key := s.calls[call].key;
            && key in s.keys && s.keys[key].owner == call && key !in Step(s, Delete(call)).keys
            && (Held(s, key) <==> s.now <= s.calls[call].since + TTL)
  {
    var key := Run(INITIAL, ops).calls[call].key;
    RunIsExclusiveIff(INITIAL, ops, key);
    assert IsOn(Run(INITIAL, ops), call, key);
  }

  // ---------------------------------------------------------------------------
  // Ownership
  // ---------------------------------------------------------------------------

  /** The clock passes the lifetime of the key's lock while its call is active. */
  ghost predicate Overtakes(s: State, op: Op, key: nat) {
    op.Tick? && exists call: nat :: IsOn(s, call, key) && s.now + op.elapsed > s.calls[call].since + TTL
  }

  ghost predicate NeverOvertaken(s: State, ops: seq<Op>, key: nat)
    requires AllEnabled(s, ops)
    decreases |ops|
  {
    |ops| == 0 || (!Overtakes(s, ops[0], key) && NeverOvertaken(Step(s, ops[0]), ops[1..], key))
  }

  /** The key's active call owns its lock: the entry is its own and has not expired. */
  ghost predicate Safe(s: State, key: nat) {
    Carries(s, key) && forall call: nat :: IsOn(s, call, key) ==> s.now <= s.calls[call].since + TTL
  }

  /** A step keeps the active call the owner exactly when it does not let the clock overtake it. */
  lemma {:induction false} StepIsSafeIff(s: State, op: Op, key: nat)
    requires Safe(s, key) && Enabled(s, op)
    ensures Safe(Step(s, op), key) <==> !Overtakes(s, op, key)
  {
    var t := Step(s, op);
    StepIsExclusiveIff(s, op, key);
    hide Carries;
    if Overtakes(s, op, key) {
      var call: nat :| IsOn(s, call, key) && s.now + op.elapsed > s.calls[call].since + TTL;
      assert IsOn(t, call, key);
    } else {
      forall call: nat | IsOn(t, call, key)
        ensures t.now <= t.calls[call].since + TTL
      {
        assert call < |s.calls| ==> IsOn(s, call, key);
      }
    }
  }

  lemma {:induction false} StepIsSafe(s: State, op: Op)
    requires Enabled(s, op) && !op.Tick?
    ensures forall key: nat :: Safe(s, key) ==> Safe(Step(s, op), key)
  {
    forall key: nat | Safe(s, key)
      ensures Safe(Step(s, op), key)
    {
      StepIsSafeIff(s, op, key);
    }
  }

  ghost predicate AlwaysSafe(s: State, ops: seq<Op>, key: nat)
    requires AllEnabled(s, ops)
    decreases |ops|
  {
    Safe(s, key) && (|ops| == 0 || AlwaysSafe(Step(s, ops[0]), ops[1..], key))
  }

  /** In every state of a run the key's active call owns its lock, exactly when no tick overtakes it. */
  lemma {:induction false} RunIsSafeIff(s: State, ops: seq<Op>, key: nat)
    requires AllEnabled(s, ops) && Safe(s, key)
    ensures AlwaysSafe(s, ops, key) <==> NeverOvertaken(s, ops, key)
    ensures NeverOvertaken(s, ops, key) ==> Safe(Run(s, ops), key) && NeverContended(s, ops, key)
    decreases |ops|
  {
    if |ops| > 0 {
      StepIsSafeIff(s, ops[0], key);
      assert !Contends(s, ops[0], key);
      hide Safe, Overtakes, Contends, Step, Enabled;
      if Safe(Step(s, ops[0]), key) {
        RunIsSafeIff(Step(s, ops[0]), ops[1..], key);
      }
    }
  }

  /** A call that found the key held never deletes, in any run, timely or not. */
  lemma {:induction false} SkippedNeverDeletes(s: State, ops: seq<Op>, call: nat)
    requires AllEnabled(s, ops) && call < |s.calls| && s.calls[call].Skipped?
    ensures call < |Run(s, ops).calls| && Run(s, ops).calls[call].Skipped? && !Enabled(Run(s, ops), Delete(call))
    decreases |ops|
  {
    if |ops| > 0 {
      SkippedNeverDeletes(Step(s, ops[0]), ops[1..], call);
    }
  }

  ghost predicate Lifetimes(s: State) {
    forall key :: key in s.keys ==> s.keys[key].expiresAt <= s.now + TTL
  }

  /** No lock ever has more than one lifetime before it. */
  lemma {:induction false} RunKeepsLifetimes(s: State, ops: seq<Op>)
    requires AllEnabled(s, ops) && Lifetimes(s)
    ensures Lifetimes(Run(s, ops))
    decreases |ops|
  {
    if |ops| > 0 {
      RunKeepsLifetimes(Step(s, ops[0]), ops[1..]);
    }
  }

  /** After any run, crashes and overruns included, every key can be taken once one lifetime has passed. */
  lemma {:induction false} ExpiredKeyIsFree(ops: seq<Op>, key: nat, elapsed: nat)
    requires AllEnabled(INITIAL, ops) && elapsed > TTL
    ensures var s := Run(INITIAL, ops);
            var t := Step(s, Tick(elapsed));
            Step(t, Begin(key)).calls == s.calls + [Running(key, t.now)]
  {
    RunKeepsLifetimes(INITIAL, ops);
  }

  // ---------------------------------------------------------------------------
  // Overrun
  // ---------------------------------------------------------------------------

  /** Call 0 outlives its lock, call 1 takes it, call 0 deletes it, call 2 takes it again. */
  function Overrun(key: nat): seq<Op> {
    [Begin(key), Tick(TTL + 1), Begin(key), EndJob(0), Delete(0), Begin(key)]
  }

  /** One job that outlives its lock puts two later calls into the job together. */
  lemma {:induction false} OverrunBreaksExclusion(key: nat)
    ensures AllEnabled(INITIAL, Overrun(key)) && !NeverContended(INITIAL, Overrun(key), key)
    ensures var s := Run(INITIAL, Overrun(key));
            |s.calls| == 3 && s.calls[1] == Running(key, TTL + 1) && s.calls[2] == Running(key, TTL + 1)
  {
    var now := TTL + 1;
    var s1 := State(0, map[key := Lock(0, TTL)], [Running(key, 0)]);
    var s2 := State(now, map[key := Lock(0, TTL)], [Running(key, 0)]);
    var s3 := State(now, map[key := Lock(1, now + TTL)], [Running(key, 0), Running(key, now)]);
    var s4 := State(now, map[key := Lock(1, now + TTL)], [Releasing(key, 0), Running(key, now)]);
    var s5 := State(now, map[], [Over, Running(key, now)]);
    var s6 := State(now, map[key := Lock(2, now + TTL)], [Over, Running(key, now), Running(key, now)]);
    assert Step(INITIAL, Begin(key)) == s1;
    assert Step(s1, Tick(TTL + 1)) == s2;
    assert Step(s2, Begin(key)) == s3;
    assert Step(s3, EndJob(0)) == s4;
    assert Step(s4, Delete(0)) == s5;
    assert Step(s5, Begin(key)) == s6;
    OneStep(s5, [Begin(key)], s6);
    OneStep(s4, [Delete(0), Begin(key)], s5);
    OneStep(s3, [EndJob(0), Delete(0), Begin(key)], s4);
    OneStep(s2, [Begin(key), EndJob(0), Delete(0), Begin(key)], s3);
    OneStep(s1, [Tick(TTL + 1), Begin(key), EndJob(0), Delete(0), Begin(key)], s2);
    OneStep(INITIAL, Overrun(key), s1);
    assert Run(s6, []) == s6;
    assert IsOn(s6, 1, key) && IsOn(s6, 2, key);
    MutualExclusion(Overrun(key), key);
  }

  lemma {:induction false} OneStep(s: State, ops: seq<Op>, t: State)
    requires |ops| > 0 && Enabled(s, ops[0]) && Step(s, ops[0]) == t && AllEnabled(t, ops[1..])
    ensures AllEnabled(s, ops) && Run(s, ops) == Run(t, ops[1..])
  {
  }

  // ---------------------------------------------------------------------------
  // Steps, field by field
  // ---------------------------------------------------------------------------

  /** A call gets into its job exactly when the key carries no entry or an expired one; its entry lasts an hour. */
  lemma {:induction false} BeginLaw(s: State, key: nat)
    ensures var t := Step(s, Begin(key));
            var free := key !in s.keys || s.keys[key].expiresAt < s.now;
            && t.now == s.now
            && (free ==> t.keys == s.keys[key := Lock(|s.calls|, s.now + 3_600_000)] && t.calls == s.calls + [Running(key, s.now)])
            && (!free ==> t.keys == s.keys && t.calls == s.calls + [Skipped])
  {
  }

  /** The DEL is carried out exactly once per finished job, whoever wrote the entry, and touches no other key. */
  lemma {:induction false} ReleaseLaw(s: State, call: nat)
    requires call < |s.calls| && s.calls[call].Running?
    ensures Enabled(s, EndJob(call)) && !Enabled(s, Delete(call))
    ensures var key := s.calls[call].key;
            var ended := Step(s, EndJob(call));
            && ended.keys == s.keys && Enabled(ended, Delete(call))
            && var t := Step(ended, Delete(call));
               && key !in t.keys && !Enabled(t, Delete(call))
               && (forall other: nat :: other != key ==>
                     (other in t.keys <==> other in s.keys) && (other in s.keys ==> t.keys[other] == s.keys[other]))
               && forall c: nat :: c < |s.calls| && c != call ==> t.calls[c] == s.calls[c]
  {
  }

  /** A crash leaves the key to its expiry; time passes for keys and calls alike. */
  lemma {:induction false} CrashLaw(s: State, call: nat, elapsed: nat)
    requires IsActive(s, call)
    ensures var t := Step(s, Crash(call));
            && t.keys == s.keys && t.now == s.now && !IsActive(t, call)
            && forall c: nat :: c < |s.calls| && c != call ==> t.calls[c] == s.calls[c]
    ensures var t := Step(s, Tick(elapsed));
            t.now - s.now == elapsed && t.keys == s.keys && t.calls == s.calls
  {
  }

  // ---------------------------------------------------------------------------
  // The lock server
  // ---------------------------------------------------------------------------

  class Redis {
    var now: int
    var keys: map<nat, Lock>
    var calls: seq<Phase>

    function View(): State
      reads this
    {
      State(now, keys, calls)
    }

    constructor ()
      ensures View() == INITIAL
    {
      now, keys, calls := 0, map[], [];
    }

    /** SET key value EX ttl NX. */
    method SetIfAbsent(key: nat, value: nat) returns (acquired: bool)
      modifies this`keys
      ensures acquired == !old(Held(View(), key))
      ensures keys == if acquired then old(keys)[key := Lock(value, now + TTL)] else old(keys)
    {
      acquired := !(key in keys && now <= keys[key].expiresAt);
      if acquired { keys := keys[key := Lock(value, now + TTL)]; }
    }

    method WithLock(key: nat) returns (acquired: bool)
      modifies this`keys, this`calls
      ensures View() == Step(old(View()), Begin(key))
      ensures acquired == calls[|old(calls)|].Running?
      ensures forall k: nat :: Safe(old(View()), k) ==> Safe(View(), k)
      ensures Carries(old(View()), key) ==> (Exclusive(View(), key) <==> !Contends(old(View()), Begin(key), key))
    {
      hide Safe, Carries, Exclusive, Contends;
      StepIsSafe(View(), Begin(key));
      if Carries(View(), key) { StepIsExclusiveIff(View(), Begin(key), key); }
      acquired := SetIfAbsent(key, |calls|);
      calls := calls + [if acquired then Running(key, now) else Skipped];
    }

    method Finish(call: nat)
      requires Enabled(View(), EndJob(call))
      modifies this`calls
      ensures View() == Step(old(View()), EndJob(call))
      ensures forall k: nat :: Safe(old(View()), k) ==> Safe(View(), k)
    {
      hide Safe;
      StepIsSafe(View(), EndJob(call));
      calls := calls[call := Releasing(calls[call].key, calls[call].since)];
    }

    method Release(call: nat)
      requires Enabled(View(), Delete(call))
      modifies this`keys, this`calls
      ensures View() == Step(old(View()), Delete(call))
      ensures forall k: nat :: Safe(old(View()), k) ==> Safe(View(), k)
      ensures !Held(View(), old(calls[call]).key)
    {
      hide Safe;
      StepIsSafe(View(), Delete(call));
      keys := keys - {calls[call].key};
      calls := calls[call := Over];
    }
  }
}
