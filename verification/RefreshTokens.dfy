/** Refresh-token rotation with replay detection (RFC 9700, section 4.14.2). */
module RefreshTokens {
  import opened Wrappers

  /** The signed claims of a JWT; `jti` names a stored row. */
  datatype Claims = Claims(jti: nat, sub: string, role: string, client: string, typ: string, exp: int)

  /** A token as presented: its claims, and whether the server's own secret signed them. */
  datatype Token = Token(claims: Claims, signed: bool)

  /** The stored digest stands for the exact token text, so a row keeps the token itself. */
  datatype RefreshToken = RefreshToken(family: nat, digest: Token, user: string, client: string, expiresAt: int,
                                       usedAt: Option<int>, revokedAt: Option<int>, replacedBy: Option<nat>)

  datatype AuthError = Invalid | Reused | Revoked

  const SUPPORTED_CLIENTS: set<string> := {"fan", "admin", "artist"}
  const REFRESH_TOKEN_TYPE := "refresh"

  function Decode(t: Token, client: string, now: int): Option<Claims> {
    if client !in SUPPORTED_CLIENTS || !t.signed || t.claims.exp <= now then None
    else if t.claims.typ != REFRESH_TOKEN_TYPE || t.claims.client != client then None
    else Some(t.claims)
  }

  /** A new row; without a family it founds one, which its own row names. */
  function Issue(rows: seq<RefreshToken>, user: string, role: string, client: string, family: Option<nat>,
                 expiresAt: int)
    : seq<RefreshToken>
  {
    var jti := |rows|;
    var raw := Token(Claims(jti, user, role, client, REFRESH_TOKEN_TYPE, expiresAt), true);
    rows + [RefreshToken(if family.Some? then family.value else jti, raw, user, client, expiresAt, None, None, None)]
  }

  function RevokeFamily(rows: seq<RefreshToken>, family: nat, now: int): (r: seq<RefreshToken>)
    ensures |r| == |rows|
  {
    seq(|rows|, i requires 0 <= i < |rows| =>
      if rows[i].family == family && rows[i].revokedAt.None? then rows[i].(revokedAt := Some(now)) else rows[i])
  }

  function Rotate(rows: seq<RefreshToken>, t: Token, client: string, now: int, ttl: int, roles: map<string, string>)
    : (seq<RefreshToken>, Result<nat, AuthError>)
  {
    var claims := Decode(t, client, now);
    if claims.None? then (rows, Err(Invalid))
    else
      var jti := claims.value.jti;
      if jti >= |rows| || rows[jti].digest != t then (rows, Err(Invalid))
      else
        var row := rows[jti];
        if row.usedAt.Some? || row.replacedBy.Some? then (RevokeFamily(rows, row.family, now), Err(Reused))
        else if row.revokedAt.Some? || row.expiresAt <= now then (rows, Err(Revoked))
        else if row.user != claims.value.sub || row.client != client then (rows, Err(Invalid))
        else if row.user !in roles || roles[row.user] != claims.value.role then (rows, Err(Invalid))
        else
          var next := |rows|;
          var used := rows[jti := row.(usedAt := Some(now), replacedBy := Some(next))];
          (Issue(used, row.user, roles[row.user], client, Some(row.family), now + ttl), Ok(next))
  }

  class TokenStore {
    var rows: seq<RefreshToken>

    constructor ()
      ensures rows == []
    {
      rows := [];
    }

    method IssueRefreshToken(user: string, role: string, client: string, family: Option<nat>, now: int, ttl: int)
      returns (r: Result<nat, AuthError>)
      modifies this
      ensures client in SUPPORTED_CLIENTS ==>
        rows == Issue(old(rows), user, role, client, family, now + ttl) && r == Ok(|old(rows)|)
      ensures client !in SUPPORTED_CLIENTS ==> rows == old(rows) && r == Err(Invalid)
    {
      if client !in SUPPORTED_CLIENTS {
        return Err(Invalid);
      }
      var jti := |rows|;
      var expiresAt := now + ttl;
      var raw := Token(Claims(jti, user, role, client, REFRESH_TOKEN_TYPE, expiresAt), true);
      var familyId := if family.Some? then family.value else jti;
      rows := rows + [RefreshToken(familyId, raw, user, client, expiresAt, None, None, None)];
      return Ok(jti);
    }

    method RevokeRefreshFamily(family: nat, now: int)
      modifies this
      ensures rows == RevokeFamily(old(rows), family, now)
    {
      rows := seq(|rows|, i requires 0 <= i < |rows| reads this =>
        if rows[i].family == family && rows[i].revokedAt.None? then rows[i].(revokedAt := Some(now)) else rows[i]);
    }

    method RotateRefreshToken(t: Token, client: string, now: int, ttl: int, roles: map<string, string>)
      returns (r: Result<nat, AuthError>)
      modifies this
      ensures (rows, r) == Rotate(old(rows), t, client, now, ttl, roles)
    {
      var claims := Decode(t, client, now);
      if claims.None? {
        return Err(Invalid);
      }
      var jti := claims.value.jti;
      if jti >= |rows| || rows[jti].digest != t {
        return Err(Invalid);
      }
      var row := rows[jti];
      if row.usedAt.Some? || row.replacedBy.Some? {
        RevokeRefreshFamily(row.family, now);
        return Err(Reused);
      }
      if row.revokedAt.Some? || row.expiresAt <= now {
        return Err(Revoked);
      }
      if row.user != claims.value.sub || row.client != client {
        return Err(Invalid);
      }
      if row.user !in roles || roles[row.user] != claims.value.role {
        return Err(Invalid);
      }
      rows := rows[jti := row.(usedAt := Some(now))];
      var issued := IssueRefreshToken(row.user, roles[row.user], client, Some(row.family), now, ttl);
      rows := rows[jti := rows[jti].(replacedBy := Some(issued.value))];
      assert rows == Rotate(old(rows), t, client, now, ttl, roles).0;
      return issued;
    }
  }

  datatype Move =
    | Login(user: string, role: string, client: string, expiresAt: int)
    | Revoke(family: nat, now: int)
    | Present(token: Token, client: string, now: int, ttl: int, roles: map<string, string>)

  function Step(rows: seq<RefreshToken>, m: Move): seq<RefreshToken> {
    match m
    case Login(user, role, client, expiresAt) => Issue(rows, user, role, client, None, expiresAt)
    case Revoke(family, now) => RevokeFamily(rows, family, now)
    case Present(t, client, now, ttl, roles) => Rotate(rows, t, client, now, ttl, roles).0
  }

  function Run(rows: seq<RefreshToken>, ms: seq<Move>): seq<RefreshToken> {
    if |ms| == 0 then rows else Step(Run(rows, ms[..|ms| - 1]), ms[|ms| - 1])
  }

  /** j is the row of i's family that was issued right after i. */
  ghost predicate Next(rows: seq<RefreshToken>, i: nat, j: nat)
    requires i < |rows|
  {
    && i < j < |rows| && rows[j].family == rows[i].family
    && rows[j].user == rows[i].user && rows[j].client == rows[i].client
    && forall k :: i < k < j ==> rows[k].family != rows[i].family
  }

  ghost predicate Newest(rows: seq<RefreshToken>, i: nat)
    requires i < |rows|
  {
    forall k :: i < k < |rows| ==> rows[k].family != rows[i].family
  }

  /** A token is used exactly when it has a successor, and its successor is the next row of its family. */
  ghost predicate LinkOk(rows: seq<RefreshToken>, i: nat)
    requires i < |rows|
  {
    var row := rows[i];
    && row.family <= i && rows[row.family].family == row.family
    && (row.usedAt.Some? <==> row.replacedBy.Some?)
    && (if row.replacedBy.Some? then Next(rows, i, row.replacedBy.value) else Newest(rows, i))
    && row.digest
      == Token(Claims(i, row.user, row.digest.claims.role, row.client, REFRESH_TOKEN_TYPE, row.expiresAt), true)
  }

  ghost predicate Valid(rows: seq<RefreshToken>) {
    && (forall i :: 0 <= i < |rows| ==> LinkOk(rows, i))
    && (forall i, j :: 0 <= i < |rows| && 0 <= j < |rows| && rows[i].family == rows[j].family ==>
          rows[i].revokedAt.Some? == rows[j].revokedAt.Some?)
  }

  lemma IssueKeeps(rows: seq<RefreshToken>, user: string, role: string, client: string, expiresAt: int)
    requires Valid(rows)
    ensures Valid(Issue(rows, user, role, client, None, expiresAt))
  {
    var rows' := Issue(rows, user, role, client, None, expiresAt);
    forall i | 0 <= i < |rows|
      ensures LinkOk(rows', i) && rows'[i].family < |rows|
    {
      assert LinkOk(rows, i) && rows'[i] == rows[i];
    }
    assert rows'[|rows|].family == |rows|;
    assert LinkOk(rows', |rows|);
  }

  lemma RevokeKeeps(rows: seq<RefreshToken>, family: nat, now: int)
    requires Valid(rows)
    ensures Valid(RevokeFamily(rows, family, now))
  {
    var rows' := RevokeFamily(rows, family, now);
    forall i | 0 <= i < |rows|
      ensures LinkOk(rows', i)
    {
      assert LinkOk(rows, i);
    }
  }

  lemma RotateKeeps(rows: seq<RefreshToken>, t: Token, client: string, now: int, ttl: int, roles: map<string, string>)
    requires Valid(rows)
    ensures Valid(Rotate(rows, t, client, now, ttl, roles).0)
  {
    var (rows', r) := Rotate(rows, t, client, now, ttl, roles);
    if r == Err(Reused) {
      RevokeKeeps(rows, rows[t.claims.jti].family, now);
    } else if r.Ok? {
      var jti, next := t.claims.jti, |rows|;
      assert LinkOk(rows, jti);
      forall i | 0 <= i < |rows'|
        ensures LinkOk(rows', i)
      {
        if i != next {
          assert LinkOk(rows, i);
          assert i != jti && rows[i].family == rows[jti].family ==> rows[i].replacedBy.Some?;
        }
      }
    }
  }

  lemma StepKeeps(rows: seq<RefreshToken>, m: Move)
    requires Valid(rows)
    ensures Valid(Step(rows, m))
  {
    match m
    case Login(user, role, client, expiresAt) => IssueKeeps(rows, user, role, client, expiresAt);
    case Revoke(family, now) => RevokeKeeps(rows, family, now);
    case Present(t, client, now, ttl, roles) => RotateKeeps(rows, t, client, now, ttl, roles);
  }

  lemma {:induction false} RunKeeps(rows: seq<RefreshToken>, ms: seq<Move>)
    requires Valid(rows)
    ensures Valid(Run(rows, ms))
  {
    if |ms| > 0 {
      RunKeeps(rows, ms[..|ms| - 1]);
      StepKeeps(Run(rows, ms[..|ms| - 1]), ms[|ms| - 1]);
    }
  }

  /** Follow replaced_by n times from row i. */
  function Follow(rows: seq<RefreshToken>, i: nat, n: nat): Option<nat> {
    if i >= |rows| then None
    else if n == 0 then Some(i)
    else match Follow(rows, i, n - 1)
      case Some(j) => if j < |rows| then rows[j].replacedBy else None
      case None => None
  }

  /** One chain: following replaced_by from a family's founder reaches every row of the family. */
  lemma {:induction false} FamilyIsOneChain(rows: seq<RefreshToken>, j: nat) returns (n: nat)
    requires Valid(rows) && j < |rows|
    ensures Follow(rows, rows[j].family, n) == Some(j)
    decreases j
  {
    assert LinkOk(rows, j);
    var f := rows[j].family;
    if j == f {
      n := 0;
    } else {
      var i := j - 1;
      while rows[i].family != f
        invariant f <= i < j && forall k :: i < k < j ==> rows[k].family != f
        decreases i
      {
        i := i - 1;
      }
      assert LinkOk(rows, i);
      var m := FamilyIsOneChain(rows, i);
      n := m + 1;
    }
  }

  /** Neither used nor revoked. */
  predicate Live(rows: seq<RefreshToken>, i: nat) {
    i < |rows| && rows[i].usedAt.None? && rows[i].revokedAt.None?
  }

  lemma OneLivePerFamily(rows: seq<RefreshToken>, i: nat, j: nat)
    requires Valid(rows) && Live(rows, i) && Live(rows, j) && rows[i].family == rows[j].family
    ensures i == j
  {
    assert LinkOk(rows, i) && LinkOk(rows, j);
  }

  /** Exactly which tokens a rotation accepts, in any reachable state. */
  lemma AcceptedIff(rows: seq<RefreshToken>, t: Token, client: string, now: int, ttl: int, roles: map<string, string>)
    requires Valid(rows)
    ensures var i := t.claims.jti;
            Rotate(rows, t, client, now, ttl, roles).1.Ok? <==>
              && Live(rows, i) && Newest(rows, i) && rows[i].digest == t
              && client in SUPPORTED_CLIENTS && rows[i].client == client && now < rows[i].expiresAt
              && rows[i].user in roles && roles[rows[i].user] == t.claims.role
  {
    if t.claims.jti < |rows| {
      assert LinkOk(rows, t.claims.jti);
    }
  }

  /** Rotation hands the family over: the new token is accepted until it expires, and the old one counts as a replay. */
  lemma RotationHandsOver(rows: seq<RefreshToken>, t: Token, client: string, now: int, ttl: int,
                          roles: map<string, string>, later: int)
    requires Valid(rows) && Rotate(rows, t, client, now, ttl, roles).1.Ok?
    ensures var (rows', r) := Rotate(rows, t, client, now, ttl, roles);
            && rows'[r.value].family == rows[t.claims.jti].family
            && (Rotate(rows', rows'[r.value].digest, client, later, ttl, roles).1.Ok? <==> later < now + ttl)
            && Rotate(rows', t, client, later, ttl, roles).1 == Err(if later < t.claims.exp then Reused else Invalid)
  {
  }

  ghost predicate FamilyDead(rows: seq<RefreshToken>, family: nat) {
    family < |rows| && forall i :: 0 <= i < |rows| && rows[i].family == family ==> rows[i].revokedAt.Some?
  }

  lemma {:induction false} DeadFamilyStays(rows: seq<RefreshToken>, family: nat, ms: seq<Move>)
    requires Valid(rows) && FamilyDead(rows, family)
    ensures var rows' := Run(rows, ms);
            && FamilyDead(rows', family) && |rows| <= |rows'|
            && (forall i :: |rows| <= i < |rows'| ==> rows'[i].family != family)
  {
    if |ms| > 0 {
      DeadFamilyStays(rows, family, ms[..|ms| - 1]);
      RunKeeps(rows, ms[..|ms| - 1]);
    }
  }

  // ---- other families ----

  /** The move neither revokes family f nor presents a token whose id names a row of f. */
  predicate LeavesAlone(rows: seq<RefreshToken>, m: Move, f: nat) {
    match m
    case Login(_, _, _, _) => true
    case Revoke(family, _) => family != f
    case Present(t, _, _, _, _) => t.claims.jti < |rows| ==> rows[t.claims.jti].family != f
  }

  /** The rows of family f are as they were, and there is no new one. */
  ghost predicate Untouched(a: seq<RefreshToken>, b: seq<RefreshToken>, f: nat) {
    && |a| <= |b| && (forall i :: 0 <= i < |a| ==> a[i].family == b[i].family)
    && (forall i :: 0 <= i < |a| && a[i].family == f ==> b[i] == a[i])
    && (forall i :: |a| <= i < |b| ==> b[i].family != f)
  }

  lemma StepLeavesAlone(rows: seq<RefreshToken>, m: Move, f: nat)
    requires Valid(rows) && f < |rows| && LeavesAlone(rows, m, f)
    ensures Untouched(rows, Step(rows, m), f)
  {
  }

  /**
   Revocations, replays and rotations in other families, and new logins, leave a family's rows
   exactly as they are.
   */
  lemma {:induction false} OtherFamiliesUntouched(rows: seq<RefreshToken>, f: nat, ms: seq<Move>)
    requires Valid(rows) && f < |rows|
    requires forall k :: 0 <= k < |ms| ==> LeavesAlone(Run(rows, ms[..k]), ms[k], f)
    ensures Untouched(rows, Run(rows, ms), f)
  {
    hide Step, LeavesAlone;
    if |ms| > 0 {
      var init, last := ms[..|ms| - 1], |ms| - 1;
      assert forall k :: 0 <= k < last ==> init[..k] == ms[..k];
      OtherFamiliesUntouched(rows, f, init);
      RunKeeps(rows, init);
      StepLeavesAlone(Run(rows, init), ms[last], f);
    }
  }

  /** So a token that would have been accepted before still is: nobody is signed out by another's replay or logout. */
  lemma OthersStaySignedIn(rows: seq<RefreshToken>, ms: seq<Move>, t: Token, client: string, now: int, ttl: int,
                           roles: map<string, string>)
    requires Valid(rows) && Rotate(rows, t, client, now, ttl, roles).1.Ok?
    requires forall k :: 0 <= k < |ms| ==> LeavesAlone(Run(rows, ms[..k]), ms[k], rows[t.claims.jti].family)
    ensures Rotate(Run(rows, ms), t, client, now, ttl, roles).1.Ok?
  {
    AcceptedIff(rows, t, client, now, ttl, roles);
    var f := rows[t.claims.jti].family;
    assert LinkOk(rows, t.claims.jti);
    OtherFamiliesUntouched(rows, f, ms);
    RunKeeps(rows, ms);
    AcceptedIff(Run(rows, ms), t, client, now, ttl, roles);
    hide Rotate, Run, Valid;
  }

  /** Why a genuine token that is no replay is refused as revoked. */
  lemma RevokedIff(rows: seq<RefreshToken>, t: Token, client: string, now: int, ttl: int, roles: map<string, string>)
    requires Valid(rows)
    ensures var i := t.claims.jti;
            Rotate(rows, t, client, now, ttl, roles).1 == Err(Revoked) <==>
              && i < |rows| && rows[i].digest == t && rows[i].usedAt.None? && rows[i].revokedAt.Some?
              && client in SUPPORTED_CLIENTS && rows[i].client == client && now < rows[i].expiresAt
  {
    if t.claims.jti < |rows| {
      assert LinkOk(rows, t.claims.jti);
    }
  }

  // ---- replays ----

  /** A genuine used token, presented by its own client before it expires. */
  predicate Replayed(rows: seq<RefreshToken>, t: Token, client: string, now: int) {
    var i := t.claims.jti;
    && i < |rows| && rows[i].digest == t && rows[i].usedAt.Some?
    && client in SUPPORTED_CLIENTS && rows[i].client == client && now < rows[i].expiresAt
  }

  /** Exactly which presented tokens count as replays and revoke their family. */
  lemma ReusedIff(rows: seq<RefreshToken>, t: Token, client: string, now: int, ttl: int, roles: map<string, string>)
    requires Valid(rows)
    ensures Rotate(rows, t, client, now, ttl, roles).1 == Err(Reused) <==> Replayed(rows, t, client, now)
    ensures Replayed(rows, t, client, now) ==>
      Rotate(rows, t, client, now, ttl, roles).0 == RevokeFamily(rows, rows[t.claims.jti].family, now)
  {
    if t.claims.jti < |rows| {
      assert LinkOk(rows, t.claims.jti);
    }
  }

  /**
   Replay detection: once a used token has been presented by its client before it expires, no token
   of its family is ever accepted again, whatever happens later, and the family never gains another.
   */
  lemma ReplayEndsFamily(rows: seq<RefreshToken>, p: Move, ms: seq<Move>,
                         t: Token, client: string, now: int, ttl: int, roles: map<string, string>)
    requires Valid(rows) && p.Present? && Replayed(rows, p.token, p.client, p.now)
    ensures var family := rows[p.token.claims.jti].family;
            var later := Run(Step(rows, p), ms);
            && |rows| <= |later| && (forall i :: |rows| <= i < |later| ==> later[i].family != family)
            && (t.claims.jti < |later| && later[t.claims.jti].family == family ==>
                  Rotate(later, t, client, now, ttl, roles).1.Err?)
  {
    ReusedIff(rows, p.token, p.client, p.now, p.ttl, p.roles);
    StepKeeps(rows, p);
    assert LinkOk(rows, p.token.claims.jti);
    DeadFamilyStays(Step(rows, p), rows[p.token.claims.jti].family, ms);
    RunKeeps(Step(rows, p), ms);
  }

  /** A used token that is no replay in this sense, being expired or another client's, changes nothing. */
  lemma OtherReuseIgnored(rows: seq<RefreshToken>, t: Token, client: string, now: int, ttl: int,
                          roles: map<string, string>)
    requires Valid(rows) && t.claims.jti < |rows| && rows[t.claims.jti].digest == t && rows[t.claims.jti].usedAt.Some?
    requires !Replayed(rows, t, client, now)
    ensures Rotate(rows, t, client, now, ttl, roles) == (rows, Err(Invalid))
  {
    assert LinkOk(rows, t.claims.jti);
  }

  function FirstToken(user: string, role: string): Token {
    Token(Claims(0, user, role, "fan", REFRESH_TOKEN_TYPE, 100), true)
  }

  /**
   A run in which a used token goes unnoticed: it expires at 100, is rotated at 90, and is presented
   again at 150. Nothing is revoked, and its successor is still accepted at 151.
   */
  lemma LateReplayUnnoticed(user: string, role: string)
    ensures var roles := map[user := role];
            var rows := Rotate(Issue([], user, role, "fan", None, 100), FirstToken(user, role), "fan", 90, 100,
                               roles).0;
            && |rows| == 2 && rows[0].digest == FirstToken(user, role) && rows[0].usedAt == Some(90)
            && Rotate(rows, rows[0].digest, "fan", 150, 100, roles) == (rows, Err(Invalid))
            && Rotate(rows, rows[1].digest, "fan", 151, 100, roles).1 == Ok(2)
  {
  }

  /** A store without tokens is valid, so what a valid store keeps holds in every reachable one. */
  lemma EmptyValid()
    ensures Valid([])
  {
  }
}
