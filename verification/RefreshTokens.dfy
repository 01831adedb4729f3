/** Refresh-token rotation with replay detection (section 4.14.2 of RFC 9700), over all runs of login,
    refresh, logout and password change. */
module RefreshTokens {
  import opened Common

  /** A token's id is the position of its row. */
  type TokenId = nat
  type UserId = nat

  datatype Row = Row(user: UserId, tenant: nat, hash: nat, expiresAt: int, revokedAt: Option<int>, replacedBy: Option<TokenId>)

  type Rows = seq<Row>

  /** A presented token: rejected by decoding, or the claims it carries with the hash of its text. */
  datatype Presented = Malformed | Claims(id: TokenId, user: UserId, tenant: nat, hash: nat)

  /** `Invalid` covers undecodable, unknown and expired tokens; `Reused` is the detected replay. */
  datatype RefreshResult = Invalid | Reused | UserGone | Rotated(id: TokenId)

  predicate Live(rows: Rows, i: TokenId)
    requires i < |rows|
  {
    rows[i].revokedAt == None
  }

  predicate Known(rows: Rows, p: Presented) {
    && p.Claims? && p.id < |rows|
    && rows[p.id].user == p.user && rows[p.id].tenant == p.tenant && rows[p.id].hash == p.hash
  }

  function NewRow(user: UserId, tenant: nat, hash: nat, expiresAt: int): Row {
    Row(user, tenant, hash, expiresAt, None, None)
  }

  /** The user has no live row left; other users' rows and earlier revocations are as they were. */
  function RevokeUser(rows: Rows, user: UserId, now: int): (r: Rows)
    ensures NoneLive(r, user) && Grows(rows, r) && |r| == |rows|
    ensures forall i :: 0 <= i < |rows| ==> r[i] == rows[i].(revokedAt := r[i].revokedAt)
    ensures forall i :: 0 <= i < |rows| && (rows[i].user != user || !Live(rows, i)) ==> r[i] == rows[i]
  {
    seq(|rows|, i requires 0 <= i < |rows| =>
      if rows[i].user == user && rows[i].revokedAt == None then rows[i].(revokedAt := Some(now)) else rows[i])
  }

  function ResultOf(rows: Rows, p: Presented, now: int, userActive: bool): RefreshResult {
    if !Known(rows, p) then Invalid
    else if rows[p.id].revokedAt.Some? then Reused
    else if rows[p.id].expiresAt <= now then Invalid
    else if !userActive then UserGone
    else Rotated(|rows|)
  }

  function AfterRefresh(rows: Rows, p: Presented, now: int, userActive: bool, hash: nat, expiresAt: int): Rows {
    match ResultOf(rows, p, now, userActive)
    case Reused => RevokeUser(rows, p.user, now)
    case Rotated(id) =>
      rows[p.id := rows[p.id].(revokedAt := Some(now), replacedBy := Some(id))]
      + [NewRow(rows[p.id].user, rows[p.id].tenant, hash, expiresAt)]
    case _ => rows
  }

  function AfterLogout(rows: Rows, p: Presented, now: int): Rows {
    if p.Claims? && p.id < |rows| && rows[p.id].hash == p.hash && rows[p.id].revokedAt == None
    then rows[p.id := rows[p.id].(revokedAt := Some(now))]
    else rows
  }

  datatype Op =
    | Login(user: UserId, tenant: nat, hash: nat, expiresAt: int)
    | Refresh(p: Presented, now: int, userActive: bool, hash: nat, expiresAt: int)
    | Logout(p: Presented, now: int)
    | PasswordChange(user: UserId, now: int)

  function Step(rows: Rows, op: Op): Rows {
    match op
    case Login(user, tenant, hash, expiresAt) => rows + [NewRow(user, tenant, hash, expiresAt)]
    case Refresh(p, now, userActive, hash, expiresAt) => AfterRefresh(rows, p, now, userActive, hash, expiresAt)
    case Logout(p, now) => AfterLogout(rows, p, now)
    case PasswordChange(user, now) => RevokeUser(rows, user, now)
  }

  function Run(rows: Rows, ops: seq<Op>): Rows {
    if ops == [] then rows else Step(Run(rows, ops[..|ops| - 1]), ops[|ops| - 1])
  }

  class TokenStore {
    var rows: Rows

    method IssueTokenPair(user: UserId, tenant: nat, hash: nat, expiresAt: int) returns (id: TokenId)
      modifies this
      ensures id == |old(rows)| && rows == old(rows) + [NewRow(user, tenant, hash, expiresAt)]
      ensures Live(rows, id) && rows[id].replacedBy == None
      ensures Linked(old(rows)) ==> Linked(rows) && IsHead(rows, id)
      ensures forall active, now :: now < expiresAt ==>
        ResultOf(rows, Claims(id, user, tenant, hash), now, active) == if active then Rotated(id + 1) else UserGone
    {
      id := |rows|;
      rows := rows + [NewRow(user, tenant, hash, expiresAt)];
    }

    method RevokeRefreshTokens(user: UserId, now: int)
      modifies this
      ensures rows == RevokeUser(old(rows), user, now)
    {
      for i := 0 to |rows|
        invariant |rows| == |old(rows)|
        invariant forall k :: 0 <= k < |rows| ==>
          rows[k] == if k < i then RevokeUser(old(rows), user, now)[k] else old(rows)[k]
      {
        if rows[i].user == user && rows[i].revokedAt == None {
          rows := rows[i := rows[i].(revokedAt := Some(now))];
        }
      }
    }

    method RefreshTokens(p: Presented, now: int, userActive: bool, hash: nat, expiresAt: int) returns (result: RefreshResult)
      modifies this
      ensures result == ResultOf(old(rows), p, now, userActive)
      ensures
        var agrees := p.Claims? && p.id < |old(rows)| && old(rows)[p.id].user == p.user
                      && old(rows)[p.id].tenant == p.tenant && old(rows)[p.id].hash == p.hash;
        var usable := agrees && old(rows)[p.id].revokedAt == None && now < old(rows)[p.id].expiresAt;
        && (result.Rotated? <==> usable && userActive)
        && (result.UserGone? <==> usable && !userActive)
        && (result.Reused? <==> agrees && old(rows)[p.id].revokedAt.Some?)
      ensures result.Invalid? || result.UserGone? ==> rows == old(rows)
      ensures result.Rotated? ==>
        && result.id == |old(rows)| && |rows| == |old(rows)| + 1
        && rows[result.id] == Row(old(rows)[p.id].user, old(rows)[p.id].tenant, hash, expiresAt, None, None)
        && rows[p.id] == old(rows)[p.id].(revokedAt := Some(now), replacedBy := Some(result.id))
        && forall i :: 0 <= i < |old(rows)| && i != p.id ==> rows[i] == old(rows)[i]
      ensures rows == Step(old(rows), Refresh(p, now, userActive, hash, expiresAt))
    {
      if p.Malformed? {
        return Invalid;
      }
      if !(p.id < |rows| && rows[p.id].user == p.user && rows[p.id].tenant == p.tenant && rows[p.id].hash == p.hash) {
        return Invalid;
      }
      if rows[p.id].revokedAt.Some? {
        RevokeRefreshTokens(p.user, now);
        return Reused;
      }
      if rows[p.id].expiresAt <= now {
        return Invalid;
      }
      if !userActive {
        return UserGone;
      }
      rows := rows[p.id := rows[p.id].(revokedAt := Some(now))];
      var id := IssueTokenPair(rows[p.id].user, rows[p.id].tenant, hash, expiresAt);
      rows := rows[p.id := rows[p.id].(replacedBy := Some(id))];
      result := Rotated(id);
    }

    method RevokeRefreshToken(p: Presented, now: int)
      modifies this
      ensures rows == Step(old(rows), Logout(p, now))
      ensures |rows| == |old(rows)| && forall i :: 0 <= i < |rows| ==>
        rows[i] == if p.Claims? && p.id == i && old(rows)[i].hash == p.hash && old(rows)[i].revokedAt == None
                   then old(rows)[i].(revokedAt := Some(now)) else old(rows)[i]
      ensures Known(old(rows), p) ==> forall later, active :: ResultOf(rows, p, later, active) == Reused
    {
      if p.Claims? && p.id < |rows| && rows[p.id].hash == p.hash && rows[p.id].revokedAt == None {
        rows := rows[p.id := rows[p.id].(revokedAt := Some(now))];
      }
    }

    method ChangePassword(user: UserId, now: int)
      modifies this
      ensures rows == Step(old(rows), PasswordChange(user, now))
      ensures |rows| == |old(rows)| && forall i :: 0 <= i < |rows| ==>
        rows[i] == if old(rows)[i].user == user && old(rows)[i].revokedAt == None
                   then old(rows)[i].(revokedAt := Some(now)) else old(rows)[i]
    {
      RevokeRefreshTokens(user, now);
    }
  }

  // ---------------------------------------------------------------- over all runs

  /** Links lead forward, within one user, from revoked tokens, and no two links meet. */
  ghost predicate Linked(rows: Rows) {
    && (forall i :: 0 <= i < |rows| && rows[i].replacedBy.Some? ==>
          var j := rows[i].replacedBy.value;
          i < j < |rows| && rows[j].user == rows[i].user && rows[j].tenant == rows[i].tenant && rows[i].revokedAt.Some?)
    && forall i, k :: 0 <= i < k < |rows| && rows[i].replacedBy.Some? ==> rows[i].replacedBy != rows[k].replacedBy
  }

  /** Identity never changes, a revocation keeps its time, a link keeps its target. */
  ghost predicate Grows(before: Rows, after: Rows) {
    && |before| <= |after|
    && forall i :: 0 <= i < |before| ==>
         && after[i].user == before[i].user && after[i].tenant == before[i].tenant
         && after[i].hash == before[i].hash && after[i].expiresAt == before[i].expiresAt
         && (before[i].revokedAt.Some? ==> after[i].revokedAt == before[i].revokedAt)
         && (before[i].revokedAt.Some? ==> after[i].replacedBy == before[i].replacedBy)
  }

  lemma RevokeKeepsLinks(rows: Rows, user: UserId, now: int)
    requires Linked(rows)
    ensures Linked(RevokeUser(rows, user, now)) && Grows(rows, RevokeUser(rows, user, now))
  {
  }

  lemma AppendKeepsLinks(rows: Rows, row: Row)
    requires Linked(rows) && row.replacedBy == None
    ensures Linked(rows + [row]) && Grows(rows, rows + [row])
  {
  }

  lemma RotateKeepsLinks(rows: Rows, i: TokenId, now: int, row: Row)
    requires Linked(rows) && i < |rows| && Live(rows, i)
    requires row.user == rows[i].user && row.tenant == rows[i].tenant && row.replacedBy == None
    ensures
      var after := rows[i := rows[i].(revokedAt := Some(now), replacedBy := Some(|rows|))] + [row];
      Linked(after) && Grows(rows, after)
  {
    var marked := rows[i := rows[i].(revokedAt := Some(now), replacedBy := Some(|rows|))];
    var after := marked + [row];
    assert forall k :: 0 <= k < |rows| && rows[k].replacedBy.Some? ==> rows[k].replacedBy.value < |rows|;
    assert forall k :: 0 <= k < |after| && after[k].replacedBy.Some? ==>
      after[k].replacedBy == if k == i then Some(|rows|) else rows[k].replacedBy;
  }

  lemma StepKeepsLinks(rows: Rows, op: Op)
    requires Linked(rows)
    ensures Linked(Step(rows, op)) && Grows(rows, Step(rows, op))
  {
    hide Linked, Grows;
    Unchanged(rows);
    match op
    case Login(user, tenant, hash, expiresAt) =>
      AppendKeepsLinks(rows, NewRow(user, tenant, hash, expiresAt));
    case Refresh(p, now, userActive, hash, expiresAt) =>
      match ResultOf(rows, p, now, userActive) {
        case Reused => RevokeKeepsLinks(rows, p.user, now);
        case Rotated(_) =>
          RotateKeepsLinks(rows, p.id, now, NewRow(rows[p.id].user, rows[p.id].tenant, hash, expiresAt));
        case _ =>
      }
    case Logout(p, now) =>
      if p.Claims? && p.id < |rows| {
        LogoutKeepsLinks(rows, p.id, now);
      }
    case PasswordChange(user, now) =>
      RevokeKeepsLinks(rows, user, now);
  }

  lemma Unchanged(rows: Rows)
    ensures Grows(rows, rows)
  {
  }

  lemma LogoutKeepsLinks(rows: Rows, i: TokenId, now: int)
    requires Linked(rows) && i < |rows|
    ensures Live(rows, i) ==>
      Linked(rows[i := rows[i].(revokedAt := Some(now))]) && Grows(rows, rows[i := rows[i].(revokedAt := Some(now))])
  {
  }

  lemma {:induction false} RunsKeepLinks(rows: Rows, ops: seq<Op>)
    requires Linked(rows)
    ensures Linked(Run(rows, ops)) && Grows(rows, Run(rows, ops))
    decreases |ops|
  {
    if ops != [] {
      RunsKeepLinks(rows, ops[..|ops| - 1]);
      StepKeepsLinks(Run(rows, ops[..|ops| - 1]), ops[|ops| - 1]);
    }
  }

  /** The rotation chain that starts at a token. */
  function Chain(rows: Rows, i: TokenId): (c: seq<TokenId>)
    requires Linked(rows) && i < |rows|
    ensures c != [] && c[0] == i
    decreases |rows| - i
  {
    if rows[i].replacedBy.None? then [i] else [i] + Chain(rows, rows[i].replacedBy.value)
  }

  /** Chains are acyclic, stay with one user, and only their last token can be live. */
  lemma {:induction false} OnlyLastIsLive(rows: Rows, i: TokenId)
    requires Linked(rows) && i < |rows|
    ensures forall a, b :: 0 <= a < b < |Chain(rows, i)| ==> Chain(rows, i)[a] < Chain(rows, i)[b]
    ensures forall a :: 0 <= a < |Chain(rows, i)| ==>
      Chain(rows, i)[a] < |rows| && rows[Chain(rows, i)[a]].user == rows[i].user
    ensures forall a :: 0 <= a < |Chain(rows, i)| - 1 ==> !Live(rows, Chain(rows, i)[a])
    decreases |rows| - i
  {
    if rows[i].replacedBy.Some? {
      var j := rows[i].replacedBy.value;
      OnlyLastIsLive(rows, j);
      var rest := Chain(rows, j);
      assert Chain(rows, i) == [i] + rest;
      assert forall a :: 0 <= a < |rest| ==> rest[a] >= rest[0];
    }
  }

  /** A token that replaces no other one opens a chain. */
  ghost predicate IsHead(rows: Rows, i: TokenId) {
    forall k :: 0 <= k < |rows| ==> rows[k].replacedBy != Some(i)
  }

  lemma {:induction false} ChainMember(rows: Rows, i: TokenId, t: TokenId)
    requires Linked(rows) && i < |rows| && t in Chain(rows, i) && t != i
    ensures exists k :: 0 <= k < |rows| && rows[k].replacedBy == Some(t) && k in Chain(rows, i)
    ensures i < t < |rows|
    decreases |rows| - i
  {
    var j := rows[i].replacedBy.value;
    assert Chain(rows, i) == [i] + Chain(rows, j);
    if t != j {
      ChainMember(rows, j, t);
    } else {
      assert i in Chain(rows, i);
    }
  }

  /** Chains from different heads share no token. */
  lemma {:induction false} ChainsAreDisjoint(rows: Rows, g: TokenId, h: TokenId, t: TokenId)
    requires Linked(rows) && g < |rows| && h < |rows| && IsHead(rows, g) && IsHead(rows, h)
    requires t in Chain(rows, g) && t in Chain(rows, h)
    ensures g == h
    decreases t
  {
    if t != g && t != h {
      ChainMember(rows, g, t);
      ChainMember(rows, h, t);
      var k :| 0 <= k < |rows| && rows[k].replacedBy == Some(t) && k in Chain(rows, g);
      assert k in Chain(rows, h);
      assert k < t;
      ChainsAreDisjoint(rows, g, h, k);
    } else if t == g && t != h {
      ChainMember(rows, h, t);
      assert false;
    } else if t == h && t != g {
      ChainMember(rows, g, t);
      assert false;
    }
  }

  /** A token is exchanged at most once: after one rotation every later presentation is refused. */
  lemma ExchangedOnce(rows: Rows, p: Presented, now: int, active: bool, hash: nat, expiresAt: int, ops: seq<Op>,
                      q: Presented, later: int, laterActive: bool)
    requires Linked(rows) && ResultOf(rows, p, now, active).Rotated?
    requires q.Claims? && q.id == p.id
    ensures
      var after := Run(Step(rows, Refresh(p, now, active, hash, expiresAt)), ops);
      && ResultOf(after, q, later, laterActive) in {Invalid, Reused}
      && (q == p ==> ResultOf(after, q, later, laterActive) == Reused)
      && p.id < |after| && after[p.id].replacedBy == Some(|rows|)
  {
    StepKeepsLinks(rows, Refresh(p, now, active, hash, expiresAt));
    RunsKeepLinks(Step(rows, Refresh(p, now, active, hash, expiresAt)), ops);
  }

  /** A token at or past its expiry is never exchanged, whatever is done before it is presented. */
  lemma ExpiredIsNeverExchanged(rows: Rows, ops: seq<Op>, p: Presented, now: int, active: bool)
    requires Linked(rows) && p.Claims? && p.id < |rows| && rows[p.id].expiresAt <= now
    ensures !ResultOf(Run(rows, ops), p, now, active).Rotated?
    ensures |Step(Run(rows, ops), Refresh(p, now, active, 0, 0))| == |Run(rows, ops)|
  {
    RunsKeepLinks(rows, ops);
    hide Run, Linked;
  }

  /** Presenting a revoked token leaves its user without a live token and everyone else's rows untouched. */
  lemma ReplayRevokesFamily(rows: Rows, p: Presented, now: int, active: bool, hash: nat, expiresAt: int)
    requires Linked(rows) && Known(rows, p) && !Live(rows, p.id)
    ensures ResultOf(rows, p, now, active) == Reused
    ensures
      var after := Step(rows, Refresh(p, now, active, hash, expiresAt));
      && |after| == |rows|
      && forall i :: 0 <= i < |rows| ==>
           if rows[i].user == p.user then !Live(after, i) else after[i] == rows[i]
  {
  }

  predicate IssuesTo(op: Op, user: UserId) {
    op.Login? && op.user == user
  }

  ghost predicate NoneLive(rows: Rows, user: UserId) {
    forall i :: 0 <= i < |rows| && rows[i].user == user ==> !Live(rows, i)
  }

  lemma StepKeepsLockedOut(rows: Rows, user: UserId, op: Op)
    requires NoneLive(rows, user) && !IssuesTo(op, user)
    ensures NoneLive(Step(rows, op), user)
  {
  }

  /** Once a user has no live token, only a new login gives them one: neither refreshes nor anything else does. */
  lemma {:induction false} LockedOutUntilLogin(rows: Rows, user: UserId, ops: seq<Op>)
    requires NoneLive(rows, user)
    requires forall i :: 0 <= i < |ops| ==> !IssuesTo(ops[i], user)
    ensures NoneLive(Run(rows, ops), user)
    decreases |ops|
  {
    if ops != [] {
      var init, op := ops[..|ops| - 1], ops[|ops| - 1];
      LockedOutUntilLogin(rows, user, init);
      StepKeepsLockedOut(Run(rows, init), user, op);
    }
  }
}
