/**
 * Refresh tokens: rotation, logout and password change. A token is named by its place in the token table, which
 * stands for its hash. Times are milliseconds. The flags say whether a Redis command succeeds; one that fails
 * makes the call throw.
 */
module RefreshTokens {
  const LIFETIME := 30 * 24 * 60 * 60 * 1000

  datatype Token = Token(user: nat, expiresAt: int, revoked: bool)

  /** `blacklist` gives the instant at which an entry expires. */
  datatype State = State(tokens: seq<Token>, blacklist: map<nat, int>, inactive: set<nat>)

  datatype Reply = Issued(token: nat) | Done | Rejected | RedisDown

  datatype Outcome = Outcome(state: State, reply: Reply)

  datatype Call =
    | Login(user: nat)
    | Refresh(token: nat, readable: bool, writable: bool)
    | Logout(token: nat, writable: bool)
    | ChangePassword(user: nat, currentRight: bool)
    | SetActive(user: nat, active: bool)

  datatype Op = Op(at: int, call: Call)

  const INITIAL := State([], map[], {})

  // ---------------------------------------------------------------------------
  // Calls
  // ---------------------------------------------------------------------------

  function CeilSeconds(ms: int): int {
    (ms + 999) / 1000
  }

  /** When the blacklist entry of a token expires: after its remaining lifetime in whole seconds, at least one. */
  function BlacklistUntil(token: Token, now: int): int {
    var seconds := CeilSeconds(token.expiresAt - now);
    now + 1000 * if seconds < 1 then 1 else seconds
  }

  predicate Blacklisted(s: State, token: nat, now: int) {
    token in s.blacklist && now <= s.blacklist[token]
  }

  function Issue(s: State, user: nat, now: int): Outcome {
    Outcome(s.(tokens := s.tokens + [Token(user, now + LIFETIME, false)]), Issued(|s.tokens|))
  }

  function RevokeOne(s: State, token: nat): State
    requires token < |s.tokens|
  {
    s.(tokens := s.tokens[token := s.tokens[token].(revoked := true)])
  }

  function BlacklistOne(s: State, token: nat, now: int): State
    requires token < |s.tokens|
  {
    s.(blacklist := s.blacklist[token := BlacklistUntil(s.tokens[token], now)])
  }

  function RefreshToken(s: State, token: nat, now: int, readable: bool, writable: bool): Outcome {
    if token >= |s.tokens| then Outcome(s, Rejected)
    else if s.tokens[token].revoked then Outcome(s, Rejected)
    else if s.tokens[token].expiresAt < now then Outcome(s, Rejected)
    else if !readable then Outcome(s, RedisDown)
    else if Blacklisted(s, token, now) then Outcome(s, Rejected)
    else
      var revoked := RevokeOne(s, token);
      if !writable then Outcome(revoked, RedisDown)
      else
        var listed := BlacklistOne(revoked, token, now);
        if s.tokens[token].user in s.inactive then Outcome(listed, Rejected)
        else Issue(listed, s.tokens[token].user, now)
  }

  function LogoutToken(s: State, token: nat, now: int, writable: bool): Outcome {
    if token >= |s.tokens| || s.tokens[token].revoked then Outcome(s, Done)
    else
      var revoked := RevokeOne(s, token);
      if !writable then Outcome(revoked, RedisDown)
      else Outcome(BlacklistOne(revoked, token, now), Done)
  }

  function RevokeAll(tokens: seq<Token>, user: nat): (r: seq<Token>)
    ensures |r| == |tokens|
  {
    seq(|tokens|, i requires 0 <= i < |tokens| =>
      if tokens[i].user == user then tokens[i].(revoked := true) else tokens[i])
  }

  function ChangeThePassword(s: State, user: nat, currentRight: bool): Outcome {
    if !currentRight then Outcome(s, Rejected) else Outcome(s.(tokens := RevokeAll(s.tokens, user)), Done)
  }

  function Step(s: State, op: Op): Outcome {
    match op.call
    case Login(user) => Issue(s, user, op.at)
    case Refresh(token, readable, writable) => RefreshToken(s, token, op.at, readable, writable)
    case Logout(token, writable) => LogoutToken(s, token, op.at, writable)
    case ChangePassword(user, currentRight) => ChangeThePassword(s, user, currentRight)
    case SetActive(user, active) =>
      Outcome(s.(inactive := if active then s.inactive - {user} else s.inactive + {user}), Done)
  }

  function StateAfter(ops: seq<Op>, n: nat): State
    requires n <= |ops|
  {
    if n == 0 then INITIAL else Step(StateAfter(ops, n - 1), ops[n - 1]).state
  }

  // ---------------------------------------------------------------------------
  // Revoked is for ever
  // ---------------------------------------------------------------------------

  predicate Dead(s: State, token: nat) {
    token < |s.tokens| && s.tokens[token].revoked
  }

  /** Call n redeems the token: it is exchanged for a new one. */
  predicate Redeems(ops: seq<Op>, n: nat, token: nat) {
    n < |ops| && ops[n].call.Refresh? && ops[n].call.token == token && Step(StateAfter(ops, n), ops[n]).reply.Issued?
  }

  lemma {:induction false} StepKeepsTokens(s: State, op: Op, token: nat)
    requires token < |s.tokens|
    ensures var t := Step(s, op).state;
            && token < |t.tokens| && t.tokens[token].user == s.tokens[token].user
            && (Dead(s, token) ==> Dead(t, token))
  {
  }

  lemma {:induction false} DeadStaysDead(ops: seq<Op>, m: nat, n: nat, token: nat)
    requires m <= n <= |ops| && Dead(StateAfter(ops, m), token)
    ensures Dead(StateAfter(ops, n), token)
  {
    hide Step;
    if m < n {
      DeadStaysDead(ops, m, n - 1, token);
      StepKeepsTokens(StateAfter(ops, n - 1), ops[n - 1], token);
    }
  }

  /** A dead token is never redeemed. */
  lemma {:induction false} DeadIsNotRedeemed(ops: seq<Op>, m: nat, n: nat, token: nat)
    requires m <= n && m <= |ops| && Dead(StateAfter(ops, m), token)
    ensures !Redeems(ops, n, token)
  {
    if n < |ops| {
      DeadStaysDead(ops, m, n, token);
    }
  }

  /** Over any run a token is redeemed at most once, and only while it is unexpired and its owner active. */
  lemma {:induction false} RedeemedAtMostOnce(ops: seq<Op>, m: nat, n: nat, token: nat)
    requires Redeems(ops, m, token)
    ensures m < n ==> !Redeems(ops, n, token)
    ensures var s := StateAfter(ops, m);
            token < |s.tokens| && ops[m].at <= s.tokens[token].expiresAt && s.tokens[token].user !in s.inactive
  {
    if m < n {
      DeadIsNotRedeemed(ops, m + 1, n, token);
    }
  }

  /** Never after its logout, even if the blacklist could not be written. */
  lemma {:induction false} NotRedeemedAfterLogout(ops: seq<Op>, m: nat, n: nat, token: nat)
    requires m < n && m < |ops| && ops[m].call.Logout? && ops[m].call.token == token
    requires token < |StateAfter(ops, m).tokens|
    ensures !Redeems(ops, n, token)
  {
    assert Dead(StateAfter(ops, m + 1), token);
    DeadIsNotRedeemed(ops, m + 1, n, token);
  }

  /** Never after its owner changed the password. */
  lemma {:induction false} NotRedeemedAfterPasswordChange(ops: seq<Op>, m: nat, n: nat, token: nat)
    requires m < n && m < |ops| && ops[m].call.ChangePassword? && Step(StateAfter(ops, m), ops[m]).reply == Done
    requires token < |StateAfter(ops, m).tokens| && StateAfter(ops, m).tokens[token].user == ops[m].call.user
    ensures !Redeems(ops, n, token)
  {
    assert Dead(StateAfter(ops, m + 1), token);
    DeadIsNotRedeemed(ops, m + 1, n, token);
  }

  // ---------------------------------------------------------------------------
  // The blacklist
  // ---------------------------------------------------------------------------

  ghost predicate BlacklistIsDead(s: State) {
    forall token :: token in s.blacklist ==> Dead(s, token)
  }

  lemma {:induction false} StepKeepsBlacklist(s: State, op: Op)
    requires BlacklistIsDead(s)
    ensures BlacklistIsDead(Step(s, op).state)
  {
  }

  /** Every blacklisted token is revoked in the table. */
  lemma {:induction false} BlacklistedIsRevoked(ops: seq<Op>, n: nat)
    requires n <= |ops|
    ensures BlacklistIsDead(StateAfter(ops, n))
  {
    hide Step;
    if n > 0 {
      BlacklistedIsRevoked(ops, n - 1);
      StepKeepsBlacklist(StateAfter(ops, n - 1), ops[n - 1]);
    }
  }

  /** So the blacklist decides nothing: once the table lets a token through, its key is never found. */
  lemma {:induction false} BlacklistNeverDecides(ops: seq<Op>, n: nat, token: nat, now: int)
    requires n <= |ops| && token < |StateAfter(ops, n).tokens| && !StateAfter(ops, n).tokens[token].revoked
    ensures !Blacklisted(StateAfter(ops, n), token, now)
    ensures var s := StateAfter(ops, n);
            RefreshToken(s, token, now, true, true).reply == RefreshToken(s.(blacklist := map[]), token, now, true, true).reply
  {
    BlacklistedIsRevoked(ops, n);
  }

  // ---------------------------------------------------------------------------
  // Sessions and logins
  // ---------------------------------------------------------------------------

  /** The user's tokens that are not revoked. */
  function Sessions(tokens: seq<Token>, user: nat): nat {
    if |tokens| == 0 then 0 else
      var n := |tokens| - 1;
      Sessions(tokens[..n], user) + if tokens[n].user == user && !tokens[n].revoked then 1 else 0
  }

  /** The user's full logins among the first n calls. */
  function Logins(ops: seq<Op>, user: nat, n: nat): nat
    requires n <= |ops|
  {
    if n == 0 then 0 else Logins(ops, user, n - 1) + if ops[n - 1].call == Login(user) then 1 else 0
  }

  lemma {:induction false} RevokingOne(tokens: seq<Token>, token: nat, user: nat)
    requires token < |tokens|
    ensures Sessions(tokens[token := tokens[token].(revoked := true)], user)
         == Sessions(tokens, user) - if tokens[token].user == user && !tokens[token].revoked then 1 else 0
  {
    var n := |tokens| - 1;
    var after := tokens[token := tokens[token].(revoked := true)];
    if token == n {
      assert after[..n] == tokens[..n];
    } else {
      RevokingOne(tokens[..n], token, user);
      assert after[..n] == tokens[..n][token := tokens[token].(revoked := true)];
    }
  }

  lemma {:induction false} RevokingAll(tokens: seq<Token>, owner: nat, user: nat)
    ensures Sessions(RevokeAll(tokens, owner), user) == if user == owner then 0 else Sessions(tokens, user)
  {
    if |tokens| > 0 {
      var n := |tokens| - 1;
      RevokingAll(tokens[..n], owner, user);
      assert RevokeAll(tokens, owner)[..n] == RevokeAll(tokens[..n], owner);
    }
  }

  lemma {:induction false} Issuing(tokens: seq<Token>, token: Token, user: nat)
    ensures Sessions(tokens + [token], user)
         == Sessions(tokens, user) + if token.user == user && !token.revoked then 1 else 0
  {
  }

  /** Only a login adds a session; rotation replaces one. */
  lemma {:induction false} StepBoundsSessions(s: State, op: Op, user: nat)
    ensures Sessions(Step(s, op).state.tokens, user)
         <= Sessions(s.tokens, user) + if op.call == Login(user) then 1 else 0
  {
    match op.call
    case Login(u) => Issuing(s.tokens, Token(u, op.at + LIFETIME, false), user);
    case Refresh(token, _, _) =>
      if token < |s.tokens| {
        RevokingOne(s.tokens, token, user);
        var revoked := RevokeOne(s, token).tokens;
        Issuing(revoked, Token(s.tokens[token].user, op.at + LIFETIME, false), user);
      }
    case Logout(token, _) =>
      if token < |s.tokens| {
        RevokingOne(s.tokens, token, user);
      }
    case ChangePassword(u, _) => RevokingAll(s.tokens, u, user);
    case SetActive(_, _) =>
  }

  /** In every run a user's unrevoked tokens never outnumber the user's full logins. */
  lemma {:induction false} SessionsAtMostLogins(ops: seq<Op>, n: nat, user: nat)
    requires n <= |ops|
    ensures Sessions(StateAfter(ops, n).tokens, user) <= Logins(ops, user, n)
  {
    hide Step;
    if n > 0 {
      SessionsAtMostLogins(ops, n - 1, user);
      StepBoundsSessions(StateAfter(ops, n - 1), ops[n - 1], user);
    }
  }

  /** What a call other than a login does: dead tokens stay dead, the blacklist stays dead, no session is added. */
  ghost predicate Upholds(s: State, t: State) {
    && (BlacklistIsDead(s) ==> BlacklistIsDead(t))
    && (forall token: nat :: Dead(s, token) ==> Dead(t, token))
    && (forall user: nat :: Sessions(t.tokens, user) <= Sessions(s.tokens, user))
  }

  lemma {:induction false} StepUpholds(s: State, op: Op)
    requires !op.call.Login?
    ensures Upholds(s, Step(s, op).state)
  {
    hide Step, BlacklistIsDead;
    if BlacklistIsDead(s) {
      StepKeepsBlacklist(s, op);
    }
    forall token: nat | Dead(s, token)
      ensures Dead(Step(s, op).state, token)
    {
      StepKeepsTokens(s, op, token);
    }
    forall user: nat
      ensures Sessions(Step(s, op).state.tokens, user) <= Sessions(s.tokens, user)
    {
      StepBoundsSessions(s, op, user);
    }
  }

  // ---------------------------------------------------------------------------
  // The service
  // ---------------------------------------------------------------------------

  class TokenStore {
    var tokens: seq<Token>
    var blacklist: map<nat, int>
    var inactive: set<nat>

    function View(): State
      reads this
    {
      State(tokens, blacklist, inactive)
    }

    constructor ()
      ensures View() == INITIAL
    {
      tokens, blacklist, inactive := [], map[], {};
    }

    method Generate(user: nat, now: int) returns (reply: Reply)
      modifies this`tokens
      ensures Outcome(View(), reply) == Issue(old(View()), user, now)
    {
      reply := Issued(|tokens|);
      tokens := tokens + [Token(user, now + LIFETIME, false)];
    }

    method Rotate(token: nat, now: int, readable: bool, writable: bool) returns (reply: Reply)
      modifies this`tokens, this`blacklist
      ensures Outcome(View(), reply) == RefreshToken(old(View()), token, now, readable, writable)
      ensures Upholds(old(View()), View())
      ensures reply.Issued? ==> !Dead(old(View()), token) && Dead(View(), token)
    {
      hide Upholds;
      StepUpholds(View(), Op(now, Refresh(token, readable, writable)));
      if token >= |tokens| { return Rejected; }
      var stored := tokens[token];
      if stored.revoked { return Rejected; }
      if stored.expiresAt < now { return Rejected; }
      if !readable { return RedisDown; }
      if token in blacklist && now <= blacklist[token] { return Rejected; }
      tokens := tokens[token := stored.(revoked := true)];
      if !writable { return RedisDown; }
      blacklist := blacklist[token := BlacklistUntil(stored, now)];
      if stored.user in inactive { return Rejected; }
      reply := Generate(stored.user, now);
    }

    method BlacklistToken(token: nat, now: int, writable: bool) returns (reply: Reply)
      modifies this`tokens, this`blacklist
      ensures Outcome(View(), reply) == LogoutToken(old(View()), token, now, writable)
      ensures Upholds(old(View()), View())
      ensures token < |tokens| ==> Dead(View(), token)
    {
      hide Upholds;
      StepUpholds(View(), Op(now, Logout(token, writable)));
      if token < |tokens| && !tokens[token].revoked {
        var stored := tokens[token];
        tokens := tokens[token := stored.(revoked := true)];
        if !writable { return RedisDown; }
        blacklist := blacklist[token := BlacklistUntil(stored, now)];
      }
      reply := Done;
    }

    method NewPassword(user: nat, currentRight: bool) returns (reply: Reply)
      modifies this`tokens
      ensures Outcome(View(), reply) == ChangeThePassword(old(View()), user, currentRight)
      ensures Upholds(old(View()), View())
      ensures reply == Done ==> Sessions(tokens, user) == 0
    {
      hide Upholds;
      StepUpholds(View(), Op(0, ChangePassword(user, currentRight)));
      RevokingAll(tokens, user, user);
      if !currentRight { return Rejected; }
      tokens := RevokeAll(tokens, user);
      reply := Done;
    }
  }
}
