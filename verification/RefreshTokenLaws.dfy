/** What each token call is answered and what it leaves in the table, and how long a token can be redeemed. */
module RefreshTokenLaws {
  import opened RefreshTokens

  /** A login adds one unrevoked token of the user that expires 30 days later, behind all other tokens. */
  lemma {:induction false} LoginLaw(s: State, user: nat, at: int)
    ensures Step(s, Op(at, Login(user)))
         == Outcome(State(s.tokens + [Token(user, at + 2_592_000_000, false)], s.blacklist, s.inactive), Issued(|s.tokens|))
  {
  }

  /** The token can be exchanged: known, unrevoked, not expired, its owner active. */
  predicate Redeemable(s: State, token: nat, at: int) {
    && token < |s.tokens| && !s.tokens[token].revoked
    && at <= s.tokens[token].expiresAt && s.tokens[token].user !in s.inactive
  }

  /**
   * In every reachable state a refresh issues a token exactly when the given one is redeemable and both Redis commands
   * succeed. The new one is a fresh unrevoked token of the same user that expires 30 days later; the old one is
   * revoked; no other token changes.
   */
  lemma {:induction false} RefreshIssuesIff(ops: seq<Op>, n: nat, token: nat, at: int, readable: bool, writable: bool)
    requires n <= |ops|
    ensures var s := StateAfter(ops, n);
            var after := Step(s, Op(at, Refresh(token, readable, writable)));
            && (after.reply.Issued? <==> Redeemable(s, token, at) && readable && writable)
            && (after.reply.Issued? ==>
                  && after.reply.token == |s.tokens|
                  && |after.state.tokens| == |s.tokens| + 1
                  && after.state.tokens[|s.tokens|] == Token(s.tokens[token].user, at + 2_592_000_000, false)
                  && after.state.tokens[token] == Token(s.tokens[token].user, s.tokens[token].expiresAt, true)
                  && (forall i :: 0 <= i < |s.tokens| && i != token ==> after.state.tokens[i] == s.tokens[i])
                  && after.state.inactive == s.inactive)
  {
    BlacklistedIsRevoked(ops, n);
  }

  /** A refresh that is turned down: what it answers, and that it revokes the token exactly when it got that far. */
  lemma {:induction false} RefusedRefreshLaw(ops: seq<Op>, n: nat, token: nat, at: int, readable: bool, writable: bool)
    requires n <= |ops|
    ensures var s := StateAfter(ops, n);
            var after := Step(s, Op(at, Refresh(token, readable, writable)));
            var live := token < |s.tokens| && !s.tokens[token].revoked && at <= s.tokens[token].expiresAt;
            && (!live ==> after.reply == Rejected && after.state == s)
            && (live && !readable ==> after.reply == RedisDown && after.state == s)
            && (live && readable && !(writable && s.tokens[token].user !in s.inactive) ==>
                  && after.reply == (if writable then Rejected else RedisDown)
                  && after.state.tokens == s.tokens[token := Token(s.tokens[token].user, s.tokens[token].expiresAt, true)])
  {
    BlacklistedIsRevoked(ops, n);
  }

  /** Logout revokes the given token and no other; a new password revokes the user's tokens and no other. */
  lemma {:induction false} RevocationLaws(s: State, token: nat, user: nat, at: int, writable: bool, currentRight: bool)
    ensures var t := Step(s, Op(at, Logout(token, writable))).state;
            && |t.tokens| == |s.tokens| && t.inactive == s.inactive
            && (forall i :: 0 <= i < |s.tokens| ==>
                  t.tokens[i] == s.tokens[i].(revoked := s.tokens[i].revoked || i == token))
    ensures var t := Step(s, Op(at, ChangePassword(user, currentRight))).state;
            && |t.tokens| == |s.tokens| && t.inactive == s.inactive && t.blacklist == s.blacklist
            && (forall i :: 0 <= i < |s.tokens| ==>
                  t.tokens[i] == s.tokens[i].(revoked := s.tokens[i].revoked || (currentRight && s.tokens[i].user == user)))
  {
  }

  /** Only the named user becomes active or inactive, and no token is touched. */
  lemma {:induction false} ActivationLaw(s: State, user: nat, active: bool, at: int)
    ensures var t := Step(s, Op(at, SetActive(user, active))).state;
            && t.tokens == s.tokens && t.blacklist == s.blacklist
            && (forall u: nat :: u in t.inactive <==> if u == user then !active else u in s.inactive)
  {
  }

  // ---------------------------------------------------------------------------
  // What ends a token's life
  // ---------------------------------------------------------------------------

  /** The call revokes the token: its logout, its owner's new password, or a refresh with it that gets past its checks. */
  predicate Ends(s: State, op: Op, token: nat)
    requires token < |s.tokens|
  {
    match op.call
    case Logout(t, _) => t == token
    case ChangePassword(user, currentRight) => currentRight && user == s.tokens[token].user
    case Refresh(t, readable, _) => t == token && readable && op.at <= s.tokens[token].expiresAt
    case _ => false
  }

  /** The n-th call of a run finds the token in the table and revokes it. */
  predicate EndsAt(ops: seq<Op>, n: nat, token: nat) {
    n < |ops| && token < |StateAfter(ops, n).tokens| && Ends(StateAfter(ops, n), ops[n], token)
  }

  lemma {:induction false} StepEndsIff(ops: seq<Op>, n: nat, token: nat)
    requires n < |ops| && token < |StateAfter(ops, n).tokens|
    ensures token < |StateAfter(ops, n + 1).tokens|
    ensures StateAfter(ops, n + 1).tokens[token]
         == StateAfter(ops, n).tokens[token].(
              revoked := StateAfter(ops, n).tokens[token].revoked || Ends(StateAfter(ops, n), ops[n], token))
  {
    BlacklistedIsRevoked(ops, n);
  }

  /** A token keeps its owner and its expiry, and is revoked after a run exactly when some call since revoked it. */
  lemma {:induction false} RevokedIffEnded(ops: seq<Op>, m: nat, n: nat, token: nat)
    requires m <= n <= |ops| && token < |StateAfter(ops, m).tokens|
    ensures token < |StateAfter(ops, n).tokens|
    ensures var before, after := StateAfter(ops, m).tokens[token], StateAfter(ops, n).tokens[token];
            && after.user == before.user && after.expiresAt == before.expiresAt
            && (after.revoked <==> before.revoked || exists k :: m <= k < n && EndsAt(ops, k, token))
  {
    hide Step, Ends;
    if m < n {
      RevokedIffEnded(ops, m, n - 1, token);
      StepEndsIff(ops, n - 1, token);
      assert EndsAt(ops, n - 1, token) <==> Ends(StateAfter(ops, n - 1), ops[n - 1], token);
    }
  }

  /**
   * A token from a login can be redeemed, with Redis up, at any later call exactly within 30 days of the login, while
   * its owner is active and no call since revoked it.
   */
  lemma {:induction false} GoodForThirtyDays(ops: seq<Op>, m: nat, n: nat)
    requires m < n < |ops| && ops[m].call.Login?
    requires ops[n].call == Refresh(|StateAfter(ops, m).tokens|, true, true)
    ensures var token, user := |StateAfter(ops, m).tokens|, ops[m].call.user;
            Redeems(ops, n, token) <==>
              && ops[n].at <= ops[m].at + 2_592_000_000
              && user !in StateAfter(ops, n).inactive
              && forall k :: m < k < n ==> !EndsAt(ops, k, token)
  {
    var token := |StateAfter(ops, m).tokens|;
    LoginLaw(StateAfter(ops, m), ops[m].call.user, ops[m].at);
    assert ops[m] == Op(ops[m].at, Login(ops[m].call.user));
    assert StateAfter(ops, m + 1).tokens[token] == Token(ops[m].call.user, ops[m].at + 2_592_000_000, false);
    RevokedIffEnded(ops, m + 1, n, token);
    RefreshIssuesIff(ops, n, token, ops[n].at, true, true);
    assert ops[n] == Op(ops[n].at, Refresh(token, true, true));
  }

  /** A logged-out or redeemed token stays blacklisted until it expires, and at most a second longer. */
  lemma {:induction false} BlacklistedUntilExpiry(s: State, token: nat, at: int)
    requires token < |s.tokens| && !s.tokens[token].revoked && at <= s.tokens[token].expiresAt
    ensures var t := Step(s, Op(at, Logout(token, true))).state;
            && token in t.blacklist
            && s.tokens[token].expiresAt <= t.blacklist[token] <= s.tokens[token].expiresAt + 1000
            && forall other: nat :: other != token ==> (other in t.blacklist <==> other in s.blacklist)
  {
  }
}
