/**
 * The sliding-window rate limiter: a pruned, expiring sorted set per key, against the full request log.
 * Times are milliseconds of one clock; ttl and block durations are seconds.
 */
module SlidingWindow {

  /** A member of the sorted set: the request's time and the random suffix drawn for it. */
  datatype Member = Member(at: nat, suffix: string)

  /** A sorted set (member to score) and the time after which Redis has dropped its key. */
  datatype ZSet = ZSet(scores: map<Member, nat>, expireAt: int)

  datatype Record = Record(totalHits: nat, timeToExpire: nat, isBlocked: bool, timeToBlockExpire: nat)

  /** What became of the pipeline: executed, answered with null, or failed with an exception. */
  datatype Pipeline = Executed | NoReply | Failed

  /** One request that reached Redis, with the answer it got. */
  datatype Hit = Hit(key: string, member: Member, ttl: nat, limit: nat, blocked: bool)

  const PASS := Record(0, 0, false, 0)

  // ---------------------------------------------------------------------------
  // The log view
  // ---------------------------------------------------------------------------

  predicate InWindow(h: Hit, key: string, after: int, upTo: int) {
    h.key == key && after < h.member.at <= upTo
  }

  /** Number of requests of the log in the window (after, upTo]. */
  function CountHits(log: seq<Hit>, key: string, after: int, upTo: int): nat {
    if |log| == 0 then 0 else
      var earlier := CountHits(log[..|log| - 1], key, after, upTo);
      if InWindow(log[|log| - 1], key, after, upTo) then earlier + 1 else earlier
  }

  function WindowMembers(log: seq<Hit>, key: string, after: int, upTo: int): set<Member> {
    set h | h in log && InWindow(h, key, after, upTo) :: h.member
  }

  /** No two requests of the window drew the same suffix in the same millisecond. */
  ghost predicate DistinctMembers(log: seq<Hit>, key: string, after: int, upTo: int) {
    forall i, j :: 0 <= i < j < |log| && InWindow(log[i], key, after, upTo) && InWindow(log[j], key, after, upTo)
      ==> log[i].member != log[j].member
  }

  ghost predicate Ordered(log: seq<Hit>) {
    forall i, j :: 0 <= i < j < |log| ==> log[i].member.at <= log[j].member.at
  }

  /** The requests that were let through. */
  function Admitted(log: seq<Hit>): seq<Hit> {
    if |log| == 0 then []
    else Admitted(log[..|log| - 1]) + (if log[|log| - 1].blocked then [] else [log[|log| - 1]])
  }

  lemma MembersOfPrefix(log: seq<Hit>, key: string, after: int, upTo: int)
    requires |log| > 0
    ensures var last := log[|log| - 1];
            var before := WindowMembers(log[..|log| - 1], key, after, upTo);
            WindowMembers(log, key, after, upTo) ==
              if InWindow(last, key, after, upTo) then before + {last.member} else before
  {
  }

  lemma DistinctOfPrefix(log: seq<Hit>, key: string, after: int, upTo: int)
    requires |log| > 0
    ensures var front, last := log[..|log| - 1], log[|log| - 1];
            DistinctMembers(log, key, after, upTo) <==>
              DistinctMembers(front, key, after, upTo) &&
              (InWindow(last, key, after, upTo) ==> last.member !in WindowMembers(front, key, after, upTo))
  {
  }

  /** The number of members never exceeds the number of requests, and equals it exactly without collisions. */
  lemma {:induction false} MembersVersusHits(log: seq<Hit>, key: string, after: int, upTo: int)
    ensures |WindowMembers(log, key, after, upTo)| <= CountHits(log, key, after, upTo)
    ensures |WindowMembers(log, key, after, upTo)| == CountHits(log, key, after, upTo)
       <==> DistinctMembers(log, key, after, upTo)
  {
    if |log| > 0 {
      MembersVersusHits(log[..|log| - 1], key, after, upTo);
      MembersOfPrefix(log, key, after, upTo);
      DistinctOfPrefix(log, key, after, upTo);
    }
  }

  // ---------------------------------------------------------------------------
  // Redis commands on one key
  // ---------------------------------------------------------------------------

  /** The scores a command sees: none when the key is absent or has expired. */
  function Scores(db: map<string, ZSet>, key: string, now: int): map<Member, nat> {
    if key in db && now <= db[key].expireAt then db[key].scores else map[]
  }

  function RemoveRangeByScore(scores: map<Member, nat>, lo: int, hi: int): map<Member, nat> {
    map m | m in scores && !(lo <= scores[m] <= hi) :: scores[m]
  }

  /** ZADD, ZREMRANGEBYSCORE: the scores under the key after a request. */
  function ScoresAfter(db: map<string, ZSet>, key: string, ttl: nat, member: Member): map<Member, nat> {
    RemoveRangeByScore(Scores(db, key, member.at)[member := member.at], 0, member.at - 1000 * ttl)
  }

  /** The store after a request; a sorted set that became empty is no longer a key. */
  function DbAfter(db: map<string, ZSet>, key: string, ttl: nat, member: Member): map<string, ZSet> {
    var scores := ScoresAfter(db, key, ttl, member);
    if scores == map[] then map k | k in db && k != key :: db[k]
    else db[key := ZSet(scores, member.at + 1000 * (ttl + 1))]
  }

  /** The store that the requests of a log leave behind. */
  function Replay(log: seq<Hit>): map<string, ZSet> {
    if |log| == 0 then map[] else
      var h := log[|log| - 1];
      DbAfter(Replay(log[..|log| - 1]), h.key, h.ttl, h.member)
  }

  // ---------------------------------------------------------------------------
  // What the log says about the store
  // ---------------------------------------------------------------------------

  /** The request removes the member from its key's sorted set. */
  predicate Prunes(g: Hit, m: Member) {
    m.at <= g.member.at - 1000 * g.ttl
  }

  ghost predicate IsNext(log: seq<Hit>, g: int, next: int) {
    && 0 <= g < next < |log| && log[next].key == log[g].key
    && forall j :: g < j < next ==> log[j].key != log[g].key
  }

  /** The key expires before its next request arrives. */
  predicate Expires(g: Hit, next: Hit) {
    next.member.at > g.member.at + 1000 * (g.ttl + 1)
  }

  ghost predicate PrunedLater(log: seq<Hit>, i: nat)
    requires i < |log|
  {
    exists g :: i <= g < |log| && log[g].key == log[i].key && Prunes(log[g], log[i].member)
  }

  ghost predicate ExpiredLater(log: seq<Hit>, i: nat)
    requires i < |log|
  {
    exists g, next :: i <= g && IsNext(log, g, next) && log[g].key == log[i].key && Expires(log[g], log[next])
  }

  /** A request of the key, from the i-th on, pruned the i-th request's member or let the key expire. */
  ghost predicate Lost(log: seq<Hit>, i: nat)
    requires i < |log|
  {
    PrunedLater(log, i) || ExpiredLater(log, i)
  }

  /** The members of the key that some request brought and nothing lost since. */
  ghost function Remembered(log: seq<Hit>, key: string): set<Member> {
    set i | 0 <= i < |log| && log[i].key == key && !Lost(log, i) :: log[i].member
  }

  /** The position of the key's latest request, or -1. */
  function Latest(log: seq<Hit>, key: string): (p: int)
    ensures -1 <= p < |log|
    ensures p >= 0 ==> log[p].key == key
    ensures forall j :: p < j < |log| ==> log[j].key != key
  {
    if |log| == 0 then -1
    else if log[|log| - 1].key == key then |log| - 1
    else Latest(log[..|log| - 1], key)
  }

  lemma {:induction false} PrunedByLast(log: seq<Hit>, i: nat)
    requires i < |log| - 1
    ensures var n := |log| - 1;
            PrunedLater(log, i) <==>
              PrunedLater(log[..n], i) || (log[n].key == log[i].key && Prunes(log[n], log[i].member))
  {
    var n := |log| - 1;
    var front := log[..n];
    if PrunedLater(log, i) {
      var g :| i <= g < |log| && log[g].key == log[i].key && Prunes(log[g], log[i].member);
      assert g < n ==> front[g] == log[g];
    }
    if PrunedLater(front, i) {
      var g :| i <= g < n && front[g].key == front[i].key && Prunes(front[g], front[i].member);
      assert log[g] == front[g];
    }
  }

  lemma {:induction false} NextInFront(log: seq<Hit>, g: int, next: int)
    requires |log| > 0 && next < |log| - 1
    ensures IsNext(log, g, next) <==> IsNext(log[..|log| - 1], g, next)
  {
  }

  lemma {:induction false} ExpiredBeforeLast(log: seq<Hit>, i: nat)
    requires i < |log| - 1
    ensures var n := |log| - 1;
            var p := Latest(log[..n], log[i].key);
            && p >= 0
            && (ExpiredLater(log, i) <==> ExpiredLater(log[..n], i) || (log[n].key == log[i].key && Expires(log[p], log[n])))
  {
    hide Expires;
    var n := |log| - 1;
    var front, p := log[..n], Latest(log[..n], log[i].key);
    assert front[i].key == log[i].key;
    assert i <= p;
    if log[n].key == log[i].key {
      assert IsNext(log, p, n);
    }
    hide Latest;
    if ExpiredLater(log, i) {
      var g, next :| i <= g && IsNext(log, g, next) && log[g].key == log[i].key && Expires(log[g], log[next]);
      if next < n {
        NextInFront(log, g, next);
      } else {
        assert g == p;
      }
    }
    if ExpiredLater(front, i) {
      var g, next :| i <= g && IsNext(front, g, next) && front[g].key == front[i].key && Expires(front[g], front[next]);
      NextInFront(log, g, next);
    }
  }

  /** A request of another key loses nothing. */
  lemma {:induction false} OtherKeyLosesNothing(log: seq<Hit>, i: nat)
    requires i < |log| - 1 && log[i].key != log[|log| - 1].key
    ensures Lost(log, i) <==> Lost(log[..|log| - 1], i)
  {
    hide PrunedLater, ExpiredLater;
    PrunedByLast(log, i);
    ExpiredBeforeLast(log, i);
  }

  /** A request of the key loses what it prunes and, when the key expired before it, everything. */
  lemma {:induction false} SameKeyLoses(log: seq<Hit>, i: nat)
    requires i < |log| - 1 && log[i].key == log[|log| - 1].key
    ensures var n := |log| - 1;
            var p := Latest(log[..n], log[n].key);
            p >= 0 && (Lost(log, i) <==> Lost(log[..n], i) || Prunes(log[n], log[i].member) || Expires(log[p], log[n]))
  {
    hide PrunedLater, ExpiredLater, Prunes, Expires;
    PrunedByLast(log, i);
    ExpiredBeforeLast(log, i);
  }

  lemma {:induction false} LastLoses(log: seq<Hit>)
    requires |log| > 0
    ensures var n := |log| - 1; Lost(log, n) <==> Prunes(log[n], log[n].member)
  {
  }

  /** What is stored under the key and what the log remembers of it, in step. */
  ghost predicate InStep(log: seq<Hit>, key: string) {
    var db := Replay(log);
    if key in db then
      && db[key].scores.Keys == Remembered(log, key)
      && (forall m :: m in db[key].scores ==> db[key].scores[m] == m.at)
      && Latest(log, key) >= 0
      && var g := log[Latest(log, key)];
         db[key].expireAt == g.member.at + 1000 * (g.ttl + 1)
    else Remembered(log, key) == {}
  }

  lemma {:induction false} RememberedAfterOther(log: seq<Hit>, key: string)
    requires |log| > 0 && log[|log| - 1].key != key
    ensures Remembered(log, key) == Remembered(log[..|log| - 1], key)
  {
    var front := log[..|log| - 1];
    forall m | m in Remembered(log, key)
      ensures m in Remembered(front, key)
    {
      var i :| 0 <= i < |log| && log[i].key == key && !Lost(log, i) && log[i].member == m;
      OtherKeyLosesNothing(log, i);
      assert front[i] == log[i];
    }
    forall m | m in Remembered(front, key)
      ensures m in Remembered(log, key)
    {
      var i :| 0 <= i < |front| && front[i].key == key && !Lost(front, i) && front[i].member == m;
      OtherKeyLosesNothing(log, i);
      assert log[i] == front[i];
    }
  }

  /** A member is remembered after a request of its key when the request brought it or left it alone. */
  lemma {:induction false} RememberedAfterSame(log: seq<Hit>, m: Member)
    requires |log| > 0
    ensures var n := |log| - 1;
            var h, p := log[n], Latest(log[..n], log[n].key);
            m in Remembered(log, h.key) <==>
              !Prunes(h, m) && (m == h.member || (m in Remembered(log[..n], h.key) && p >= 0 && !Expires(log[p], h)))
  {
    var n := |log| - 1;
    var front, h := log[..n], log[n];
    LastLoses(log);
    if m in Remembered(log, h.key) {
      var i :| 0 <= i < |log| && log[i].key == h.key && !Lost(log, i) && log[i].member == m;
      if i < n {
        SameKeyLoses(log, i);
        assert front[i] == log[i];
      }
    }
    if m in Remembered(front, h.key) {
      var i :| 0 <= i < n && front[i].key == h.key && !Lost(front, i) && front[i].member == m;
      assert log[i] == front[i];
      SameKeyLoses(log, i);
    }
    if m == h.member && !Prunes(h, m) {
      assert !Lost(log, n);
    }
  }

  /** After any requests whatever, each sorted set holds exactly the remembered members of its key. */
  lemma {:induction false} StoreIsRemembered(log: seq<Hit>, key: string)
    ensures InStep(log, key)
  {
    if |log| > 0 {
      var n := |log| - 1;
      var front, h := log[..n], log[n];
      StoreIsRemembered(front, key);
      if h.key != key {
        RememberedAfterOther(log, key);
        hide Remembered, ScoresAfter;
        assert key in Replay(log) <==> key in Replay(front);
      } else {
        StoredAfterSame(log);
      }
    }
  }

  lemma {:induction false} StoredAfterSame(log: seq<Hit>)
    requires |log| > 0 && InStep(log[..|log| - 1], log[|log| - 1].key)
    ensures var h := log[|log| - 1];
            var scores := ScoresAfter(Replay(log[..|log| - 1]), h.key, h.ttl, h.member);
            && scores.Keys == Remembered(log, h.key)
            && forall m :: m in scores ==> scores[m] == m.at
    ensures InStep(log, log[|log| - 1].key)
  {
    hide Remembered, Lost;
    var n := |log| - 1;
    var front, h := log[..n], log[n];
    var scores := ScoresAfter(Replay(front), h.key, h.ttl, h.member);
    forall m
      ensures m in scores <==> m in Remembered(log, h.key)
      ensures m in scores ==> scores[m] == m.at
    {
      RememberedAfterSame(log, m);
    }
    if scores == map[] {
      assert Remembered(log, h.key) == {};
    }
  }

  // ---------------------------------------------------------------------------
  // When the count is exact
  // ---------------------------------------------------------------------------

  /** What is remembered after a request lies in the window that ends with it. */
  lemma {:induction false} RememberedInWindow(log: seq<Hit>)
    requires |log| > 0 && Ordered(log)
    ensures var h := log[|log| - 1];
            Remembered(log, h.key) <= WindowMembers(log, h.key, h.member.at - 1000 * h.ttl, h.member.at)
  {
    var n := |log| - 1;
    var h := log[n];
    forall m | m in Remembered(log, h.key)
      ensures m in WindowMembers(log, h.key, h.member.at - 1000 * h.ttl, h.member.at)
    {
      var i :| 0 <= i < |log| && log[i].key == h.key && !Lost(log, i) && log[i].member == m;
      assert !Prunes(log[n], log[i].member);
      assert log[i] in log && InWindow(log[i], h.key, h.member.at - 1000 * h.ttl, h.member.at);
    }
  }

  /** Every request of the window that ends with the last one is still remembered, by itself. */
  ghost predicate NoneLost(log: seq<Hit>)
    requires |log| > 0
  {
    var h := log[|log| - 1];
    forall i :: 0 <= i < |log| && InWindow(log[i], h.key, h.member.at - 1000 * h.ttl, h.member.at) ==> !Lost(log, i)
  }

  /** Every member of that window is still remembered, perhaps through a later request that drew it again. */
  ghost predicate NoMemberLost(log: seq<Hit>)
    requires |log| > 0
  {
    var h := log[|log| - 1];
    forall i :: 0 <= i < |log| && InWindow(log[i], h.key, h.member.at - 1000 * h.ttl, h.member.at) ==>
      exists j :: 0 <= j < |log| && log[j].key == h.key && log[j].member == log[i].member && !Lost(log, j)
  }

  lemma {:induction false} NoMemberLostIff(log: seq<Hit>)
    requires |log| > 0
    ensures var h := log[|log| - 1];
            NoMemberLost(log) <==>
              WindowMembers(log, h.key, h.member.at - 1000 * h.ttl, h.member.at) <= Remembered(log, h.key)
  {
    hide Lost;
    var h := log[|log| - 1];
    var after := h.member.at - 1000 * h.ttl;
    var members := WindowMembers(log, h.key, after, h.member.at);
    if NoMemberLost(log) {
      forall m | m in members
        ensures m in Remembered(log, h.key)
      {
        var g :| g in log && InWindow(g, h.key, after, h.member.at) && g.member == m;
        var i :| 0 <= i < |log| && log[i] == g;
        var j :| 0 <= j < |log| && log[j].key == h.key && log[j].member == log[i].member && !Lost(log, j);
      }
    }
    if members <= Remembered(log, h.key) {
      forall i | 0 <= i < |log| && InWindow(log[i], h.key, after, h.member.at)
        ensures exists j :: 0 <= j < |log| && log[j].key == h.key && log[j].member == log[i].member && !Lost(log, j)
      {
        assert log[i] in log && log[i].member in members;
      }
    }
  }

  /** For any ttls: the stored members are as many as those of the window exactly when no member of it was lost. */
  lemma {:induction false} MemberCountIsExactIff(log: seq<Hit>)
    requires |log| > 0 && Ordered(log)
    ensures var h := log[|log| - 1];
            var members := WindowMembers(log, h.key, h.member.at - 1000 * h.ttl, h.member.at);
            && |Remembered(log, h.key)| <= |members|
            && (|Remembered(log, h.key)| == |members| <==> NoMemberLost(log))
            && (NoMemberLost(log) <==> Remembered(log, h.key) == members)
  {
    hide Remembered, WindowMembers, NoMemberLost, Ordered;
    var h := log[|log| - 1];
    RememberedInWindow(log);
    NoMemberLostIff(log);
    SubsetCardinality(Remembered(log, h.key), WindowMembers(log, h.key, h.member.at - 1000 * h.ttl, h.member.at));
  }

  lemma {:induction false} SubsetCardinality<T>(a: set<T>, b: set<T>)
    requires a <= b
    ensures |a| <= |b| && (|a| == |b| <==> a == b)
  {
    assert b == a + (b - a) && a !! b - a;
    assert |b - a| == 0 ==> b - a == {};
  }

  /**
   * For any ttls: the count equals the number of requests of the window exactly when no two of them drew the same
   * member and none of them was pruned, or let expire, by a request of its key since.
   */
  lemma {:induction false} CountIsExactIff(log: seq<Hit>)
    requires |log| > 0 && Ordered(log)
    ensures var h := log[|log| - 1];
            var after := h.member.at - 1000 * h.ttl;
            && |Remembered(log, h.key)| <= CountHits(log, h.key, after, h.member.at)
            && (|Remembered(log, h.key)| == CountHits(log, h.key, after, h.member.at) <==>
                  DistinctMembers(log, h.key, after, h.member.at) && NoneLost(log))
  {
    hide Lost, Remembered, CountHits, WindowMembers, Ordered;
    var h := log[|log| - 1];
    var after := h.member.at - 1000 * h.ttl;
    MemberCountIsExactIff(log);
    MembersVersusHits(log, h.key, after, h.member.at);
    if DistinctMembers(log, h.key, after, h.member.at) && NoMemberLost(log) {
      forall i | 0 <= i < |log| && InWindow(log[i], h.key, after, h.member.at)
        ensures !Lost(log, i)
      {
        var j :| 0 <= j < |log| && log[j].key == h.key && log[j].member == log[i].member && !Lost(log, j);
        assert InWindow(log[j], h.key, after, h.member.at);
      }
    }
  }

  /** Requests of a key with a ttl of at least T lose nothing of its last T seconds. */
  lemma {:induction false} RecentIsRemembered(log: seq<Hit>, i: nat, ttl: nat)
    requires i < |log| && Ordered(log)
    requires forall g :: 0 <= g < |log| && log[g].key == log[i].key ==> log[g].ttl >= ttl
    requires log[i].member.at > log[|log| - 1].member.at - 1000 * ttl
    ensures !Lost(log, i)
  {
    assert forall g :: i <= g < |log| ==> log[i].member.at <= log[g].member.at <= log[|log| - 1].member.at;
  }

  /** So the count of members is exact whenever no earlier ttl of the key was smaller. */
  lemma {:induction false} LargestLatestTtlIsExact(log: seq<Hit>)
    requires |log| > 0 && Ordered(log)
    requires var h := log[|log| - 1]; forall g :: 0 <= g < |log| && log[g].key == h.key ==> log[g].ttl >= h.ttl
    ensures NoneLost(log) && NoMemberLost(log)
  {
    hide Lost;
    var h := log[|log| - 1];
    forall i | 0 <= i < |log| && InWindow(log[i], h.key, h.member.at - 1000 * h.ttl, h.member.at)
      ensures !Lost(log, i)
    {
      RecentIsRemembered(log, i, h.ttl);
    }
  }

  // ---------------------------------------------------------------------------
  // The guarantee over a whole run
  // ---------------------------------------------------------------------------

  /** The last answer was decided by the number of stored members. */
  ghost predicate LastDecided(log: seq<Hit>)
    requires |log| > 0
  {
    var h := log[|log| - 1];
    h.blocked <==> |Remembered(log, h.key)| > h.limit
  }

  /** Every answer in the log was decided in this way when it was given. */
  ghost predicate WellDecided(log: seq<Hit>) {
    |log| > 0 ==> WellDecided(log[..|log| - 1]) && LastDecided(log)
  }

  lemma {:induction false} WellDecidedExtends(log: seq<Hit>, h: Hit)
    requires WellDecided(log) && LastDecided(log + [h])
    ensures WellDecided(log + [h])
  {
    assert (log + [h])[..|log|] == log;
  }

  lemma {:induction false} AdmittedIn(log: seq<Hit>, h: Hit)
    ensures h in Admitted(log) <==> h in log && !h.blocked
  {
    if |log| > 0 {
      AdmittedIn(log[..|log| - 1], h);
      assert log == log[..|log| - 1] + [log[|log| - 1]];
    }
  }

  /** The last request's store covers all admitted requests of any window of length ttl that it lies in. */
  lemma {:induction false} AdmittedAreStored(log: seq<Hit>, key: string, ttl: nat, start: int)
    requires |log| > 0 && Ordered(log)
    requires InWindow(log[|log| - 1], key, start, start + 1000 * ttl)
    requires forall g :: 0 <= g < |log| && log[g].key == key ==> log[g].ttl >= ttl
    ensures WindowMembers(Admitted(log), key, start, start + 1000 * ttl) <= Remembered(log, key)
  {
    forall h | h in Admitted(log) && InWindow(h, key, start, start + 1000 * ttl)
      ensures h.member in Remembered(log, key)
    {
      AdmittedIn(log, h);
      var i :| 0 <= i < |log| && log[i] == h;
      RecentIsRemembered(log, i, ttl);
    }
  }

  /** Any window of length ttl, wherever it starts, holds at most `limit` admitted members of a key. */
  lemma {:induction false} AtMostLimitMembers(log: seq<Hit>, key: string, ttl: nat, limit: nat, start: int)
    requires Ordered(log) && WellDecided(log)
    requires forall h :: h in log && h.key == key ==> h.limit <= limit && h.ttl >= ttl
    ensures |WindowMembers(Admitted(log), key, start, start + 1000 * ttl)| <= limit
  {
    hide WindowMembers, Admitted, Ordered, Remembered;
    if |log| == 0 {
      NothingAdmitted(key, start, start + 1000 * ttl);
    } else {
      var front, last := log[..|log| - 1], log[|log| - 1];
      if InWindow(last, key, start, start + 1000 * ttl) && !last.blocked {
        AdmittedAreStored(log, key, ttl, start);
        SubsetCardinality(WindowMembers(Admitted(log), key, start, start + 1000 * ttl), Remembered(log, key));
      } else {
        OrderedPrefix(log);
        AtMostLimitMembers(front, key, ttl, limit, start);
        NotAdmitted(log, key, start, start + 1000 * ttl);
      }
    }
  }

  lemma {:induction false} OrderedPrefix(log: seq<Hit>)
    requires |log| > 0 && Ordered(log)
    ensures Ordered(log[..|log| - 1])
  {
  }

  /** A last request that was blocked or lies outside the window adds no admitted member to it. */
  lemma {:induction false} NotAdmitted(log: seq<Hit>, key: string, after: int, upTo: int)
    requires |log| > 0
    requires log[|log| - 1].blocked || !InWindow(log[|log| - 1], key, after, upTo)
    ensures WindowMembers(Admitted(log), key, after, upTo) == WindowMembers(Admitted(log[..|log| - 1]), key, after, upTo)
  {
  }

  lemma {:induction false} NothingAdmitted(key: string, after: int, upTo: int)
    ensures WindowMembers(Admitted([]), key, after, upTo) == {}
  {
  }

  // ---------------------------------------------------------------------------
  // The waiting time
  // ---------------------------------------------------------------------------

  lemma {:induction false} LowestScore(scores: map<Member, nat>, keys: set<Member>) returns (lowest: Member)
    requires keys <= scores.Keys && keys != {}
    ensures lowest in keys && forall m :: m in keys ==> scores[lowest] <= scores[m]
    decreases keys
  {
    lowest :| lowest in keys;
    if keys != {lowest} {
      var other := LowestScore(scores, keys - {lowest});
      if scores[other] < scores[lowest] {
        lowest := other;
      }
    }
  }

  ghost predicate IsOldest(members: set<Member>, t: int) {
    (exists m :: m in members && m.at == t) && (forall m :: m in members ==> t <= m.at)
  }

  /** `seconds` is the least whole number of seconds that covers the remaining milliseconds. */
  ghost predicate IsLeastWait(remaining: int, seconds: int) {
    forall k: nat :: k >= seconds <==> remaining <= 1000 * k
  }

  /** The least number of whole seconds after which the oldest of the members has left the window. */
  ghost predicate IsTimeToExpire(members: set<Member>, ttl: nat, now: int, seconds: int) {
    exists t :: IsOldest(members, t) && IsLeastWait(t + 1000 * ttl - now, seconds)
  }

  function CeilDiv(a: nat, b: nat): nat
    requires b > 0
  {
    (a + b - 1) / b
  }

  /** The waiting time computed from the oldest stored member is right and lies between one second and the ttl. */
  lemma {:induction false} TimeToExpireIsLeast(members: set<Member>, ttl: nat, now: int, oldest: int)
    requires IsOldest(members, oldest) && ttl >= 1
    requires forall m :: m in members ==> now - 1000 * ttl < m.at <= now
    ensures oldest + 1000 * ttl - now > 0
    ensures 1 <= CeilDiv(oldest + 1000 * ttl - now, 1000) <= ttl
    ensures IsTimeToExpire(members, ttl, now, CeilDiv(oldest + 1000 * ttl - now, 1000))
  {
    assert IsLeastWait(oldest + 1000 * ttl - now, CeilDiv(oldest + 1000 * ttl - now, 1000));
  }

  /**
   * The waiting time told from the stored members is right for the whole window exactly when every member of the
   * window, lost or not, stays longer than all but the last of the seconds told.
   */
  lemma {:induction false} WaitIsExactIff(stored: set<Member>, members: set<Member>, ttl: nat, now: int, told: nat)
    requires stored <= members && IsTimeToExpire(stored, ttl, now, told)
    requires forall m :: m in members ==> now - 1000 * ttl < m.at
    ensures IsTimeToExpire(members, ttl, now, told) <==> forall m :: m in members ==> m.at + 1000 * ttl - now > 1000 * (told - 1)
  {
    var t :| IsOldest(stored, t) && IsLeastWait(t + 1000 * ttl - now, told);
    var m :| m in stored && m.at == t;
    var u := OldestOf(members, m);
    assert t + 1000 * ttl - now <= 1000 * told;
    if IsTimeToExpire(members, ttl, now, told) {
      var v :| IsOldest(members, v) && IsLeastWait(v + 1000 * ttl - now, told);
      if told > 0 {
        var k: nat := told - 1;
        assert v + 1000 * ttl - now > 1000 * k;
      }
    }
    if forall m :: m in members ==> m.at + 1000 * ttl - now > 1000 * (told - 1) {
      assert IsLeastWait(u + 1000 * ttl - now, told);
    }
  }

  lemma {:induction false} OldestOf(members: set<Member>, some: Member) returns (t: int)
    requires some in members
    ensures IsOldest(members, t)
  {
    var scores := map m: Member | m in members :: m.at;
    assert some in scores && forall m :: m in members ==> m in scores;
    var lowest := LowestScore(scores, scores.Keys);
    t := lowest.at;
  }

  // ---------------------------------------------------------------------------
  // The storage
  // ---------------------------------------------------------------------------

  /** A request remembers at least itself. */
  lemma {:induction false} OwnMember(log: seq<Hit>)
    requires |log| > 0 && log[|log| - 1].ttl >= 1
    ensures log[|log| - 1].member in Remembered(log, log[|log| - 1].key)
  {
    LastLoses(log);
  }

  class RedisSlidingWindowStorage {
    const PREFIX := "ratelimit"

    var db: map<string, ZSet>
    ghost var log: seq<Hit>
    ghost var clock: int

    ghost predicate Valid()
      reads this
    {
      Ordered(log) && (forall h :: h in log ==> h.member.at <= clock) && db == Replay(log) && WellDecided(log)
    }

    constructor ()
      ensures Valid() && log == [] && db == map[]
    {
      db, log, clock := map[], [], 0;
    }

    /**
     * One request. `suffix` is the random part of its member; the pipeline either executed as a whole or,
     * on a connection problem, not at all, in which case the request passes uncounted.
     */
    method Increment(key: string, ttl: nat, limit: nat, blockDuration: nat, throttlerName: string,
                     now: nat, suffix: string, pipeline: Pipeline)
      returns (record: Record)
      requires Valid() && clock <= now
      modifies this
      ensures Valid() && clock == now
      ensures pipeline != Executed ==> record == PASS && db == old(db) && log == old(log)
      ensures pipeline == Executed ==>
        var redisKey := PREFIX + ":" + throttlerName + ":" + key;
        var stored := Remembered(log, redisKey);
        && log == old(log) + [Hit(redisKey, Member(now, suffix), ttl, limit, record.isBlocked)]
        && record.totalHits == |stored|
        && record.isBlocked == (record.totalHits > limit)
        && record.timeToBlockExpire == (if record.isBlocked then blockDuration else 0)
        && (ttl >= 1 ==> 1 <= record.timeToExpire <= ttl && IsTimeToExpire(stored, ttl, now, record.timeToExpire))
      ensures pipeline == Executed ==>
        var redisKey, after := PREFIX + ":" + throttlerName + ":" + key, now - 1000 * ttl;
        && record.totalHits <= CountHits(log, redisKey, after, now)
        && (record.totalHits == CountHits(log, redisKey, after, now) <==>
              DistinctMembers(log, redisKey, after, now) && NoneLost(log))
    {
      var redisKey := PREFIX + ":" + throttlerName + ":" + key;
      hide Ordered, Remembered, CountHits, DistinctMembers, NoneLost, IsTimeToExpire, WellDecided, Replay, Scores,
           RemoveRangeByScore, CeilDiv;
      if pipeline != Executed {
        clock := now;
        return PASS;
      }
      var windowStart := now - ttl * 1000;
      var member := Member(now, suffix);
      var scores := Scores(db, redisKey, now)[member := now];
      scores := RemoveRangeByScore(scores, 0, windowStart);
      var totalHits := |scores|;
      var isBlocked := totalHits > limit;
      if scores == map[] {
        db := map k | k in db && k != redisKey :: db[k];
      } else {
        db := db[redisKey := ZSet(scores, now + 1000 * (ttl + 1))];
      }
      var oldest := now;
      if scores != map[] {
        ghost var lowest := LowestScore(scores, scores.Keys);
        var first :| first in scores && forall m :: m in scores ==> scores[first] <= scores[m];
        oldest := scores[first];
      }
      var remaining := oldest + ttl * 1000 - now;
      var timeToExpire := CeilDiv(if remaining < 0 then 0 else remaining, 1000);
      record := Record(totalHits, timeToExpire, isBlocked, if isBlocked then blockDuration else 0);

      ghost var hit := Hit(redisKey, member, ttl, limit, isBlocked);
      assert scores == ScoresAfter(old(db), redisKey, ttl, member);
      log := log + [hit];
      clock := now;
      RequestAnswered(old(log), old(clock), hit, oldest);
    }
  }

  /** What one request does to the store, and what its count says of the log. */
  lemma {:induction false} RequestLogged(log: seq<Hit>, clock: int, hit: Hit)
    requires Ordered(log) && WellDecided(log) && (forall h :: h in log ==> h.member.at <= clock) && clock <= hit.member.at
    requires hit.blocked <==> |ScoresAfter(Replay(log), hit.key, hit.ttl, hit.member)| > hit.limit
    ensures var log', scores := log + [hit], ScoresAfter(Replay(log), hit.key, hit.ttl, hit.member);
            && Ordered(log') && WellDecided(log')
            && Replay(log') == DbAfter(Replay(log), hit.key, hit.ttl, hit.member)
            && scores.Keys == Remembered(log', hit.key) && |scores| == |Remembered(log', hit.key)|
            && forall m :: m in scores ==> scores[m] == m.at
  {
    hide Remembered, ScoresAfter, InStep, WellDecided;
    var log' := log + [hit];
    assert log'[..|log|] == log;
    StoreIsRemembered(log, hit.key);
    StoredAfterSame(log');
    var scores := ScoresAfter(Replay(log), hit.key, hit.ttl, hit.member);
    assert |scores| == |scores.Keys|;
    WellDecidedExtends(log, hit);
  }

  lemma {:induction false} OldestStored(log: seq<Hit>, clock: int, hit: Hit, oldest: int)
    requires Ordered(log + [hit]) && hit.ttl >= 1
    requires var scores := ScoresAfter(Replay(log), hit.key, hit.ttl, hit.member);
             && scores.Keys == Remembered(log + [hit], hit.key) && (forall m :: m in scores ==> scores[m] == m.at)
             && (scores != map[] ==> (exists m :: m in scores && oldest == scores[m]) && forall m :: m in scores ==> oldest <= scores[m])
    ensures IsOldest(Remembered(log + [hit], hit.key), oldest)
    ensures forall m :: m in Remembered(log + [hit], hit.key) ==> hit.member.at - 1000 * hit.ttl < m.at <= hit.member.at
  {
    hide Remembered;
    OwnMember(log + [hit]);
    RememberedInWindow(log + [hit]);
  }

  /** All that an answer says. */
  lemma {:induction false} RequestAnswered(log: seq<Hit>, clock: int, hit: Hit, oldest: int)
    requires Ordered(log) && WellDecided(log) && (forall h :: h in log ==> h.member.at <= clock) && clock <= hit.member.at
    requires var scores := ScoresAfter(Replay(log), hit.key, hit.ttl, hit.member);
             && (hit.blocked <==> |scores| > hit.limit)
             && (scores != map[] ==> (exists m :: m in scores && oldest == scores[m]) && forall m :: m in scores ==> oldest <= scores[m])
    ensures var log', now := log + [hit], hit.member.at;
            var after := now - 1000 * hit.ttl;
            && Ordered(log') && WellDecided(log') && (forall h :: h in log' ==> h.member.at <= now)
            && Replay(log') == DbAfter(Replay(log), hit.key, hit.ttl, hit.member)
            && |ScoresAfter(Replay(log), hit.key, hit.ttl, hit.member)| == |Remembered(log', hit.key)|
            && |Remembered(log', hit.key)| <= CountHits(log', hit.key, after, now)
            && (|Remembered(log', hit.key)| == CountHits(log', hit.key, after, now) <==>
                  DistinctMembers(log', hit.key, after, now) && NoneLost(log'))
            && (hit.ttl >= 1 ==>
                  var wait := CeilDiv(if oldest - after < 0 then 0 else oldest - after, 1000);
                  1 <= wait <= hit.ttl && IsTimeToExpire(Remembered(log', hit.key), hit.ttl, now, wait))
  {
    hide Remembered, CountHits, DistinctMembers, NoneLost, WellDecided, Replay, ScoresAfter, CeilDiv, IsTimeToExpire, IsOldest, Ordered;
    var log' := log + [hit];
    RequestLogged(log, clock, hit);
    CountIsExactIff(log');
    if hit.ttl >= 1 {
      OldestStored(log, clock, hit, oldest);
      TimeToExpireIsLeast(Remembered(log', hit.key), hit.ttl, hit.member.at, oldest);
    }
  }

  /**
   * The promise of the limiter, for any ttls and in every state its storage can be in: a window of length ttl,
   * wherever it starts, holds at most `limit` admitted members, and so at most `limit` admitted requests unless
   * two of them drew the same member.
   */
  lemma {:induction false} StorageNeverOverAdmits(storage: RedisSlidingWindowStorage, key: string, ttl: nat, limit: nat, start: int)
    requires storage.Valid()
    requires forall h :: h in storage.log && h.key == key ==> h.limit <= limit && h.ttl >= ttl
    ensures var admitted := Admitted(storage.log);
            && |WindowMembers(admitted, key, start, start + 1000 * ttl)| <= limit
            && (DistinctMembers(admitted, key, start, start + 1000 * ttl) ==>
                  CountHits(admitted, key, start, start + 1000 * ttl) <= limit)
  {
    hide WindowMembers, DistinctMembers, CountHits, Admitted;
    AtMostLimitMembers(storage.log, key, ttl, limit, start);
    MembersVersusHits(Admitted(storage.log), key, start, start + 1000 * ttl);
  }

  /**
   * A ttl that grows can make the count too small: the second request, with ttl 1, prunes the first, which lies in
   * the window of the third, with ttl 10.
   */
  lemma {:induction false} GrowingTtlUndercounts(key: string)
    ensures var log := [Hit(key, Member(0, "a"), 10, 9, false), Hit(key, Member(5000, "b"), 1, 9, false),
                        Hit(key, Member(5500, "c"), 10, 9, false)];
            && InWindow(log[0], key, 5500 - 10_000, 5500) && Lost(log, 0) && !NoneLost(log)
            && |Remembered(log, key)| < CountHits(log, key, 5500 - 10_000, 5500)
  {
    var log := [Hit(key, Member(0, "a"), 10, 9, false), Hit(key, Member(5000, "b"), 1, 9, false),
                Hit(key, Member(5500, "c"), 10, 9, false)];
    assert log[1].key == log[0].key && Prunes(log[1], log[0].member);
    assert Lost(log, 0);
    CountIsExactIff(log);
  }
}
