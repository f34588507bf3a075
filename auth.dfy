/**
 * The access guards of middleware/authMiddleware.js. Each guard is a chain
 * of early returns; here each is a function from the request's inputs to an
 * outcome: pass the request on, or answer it with an HTTP status and an
 * error message. `verifyToken` and `requireAdmin` take the Authorization
 * header, the token verifier function and the rows the database answers;
 * `requirePremium` takes the user stored by `verifyToken`, the rows and the
 * clock.
 */
module AuthMiddleware {
  import opened Wrappers
  import opened Jwt

  /** A row of the `users` table, with the columns the guards read. */
  datatype UserRow = UserRow(id: nat, isBanned: bool, isGuest: bool, isPremium: bool, subscriptionExpiresAt: Option<int>)

  /** A row of the `admin_users` table. */
  datatype AdminRow = AdminRow(id: nat, role: string, isActive: bool)

  /** What `verifyToken` stores in `req.user`. */
  datatype RequestUser = RequestUser(userId: nat, role: string, isGuest: bool)

  /** What `requireAdmin` stores in `req.admin`. */
  datatype RequestAdmin = RequestAdmin(adminId: nat, role: string)

  /** Calling `next()` with the principal stored on the request, or `res.status(s).json({ error })`. */
  datatype Outcome<+P> = Next(principal: P) | Respond(status: nat, error: string)

  /** `s.split(sep)` as JavaScript computes it: n separators give n + 1 parts, possibly empty. */
  function Split(s: string, sep: char): (parts: seq<string>)
    ensures |parts| >= 1
    ensures forall i :: 0 <= i < |parts| ==> sep !in parts[i]
    decreases |s|
  {
    if s == [] then [[]]
    else
      var rest := Split(s[1..], sep);
      if s[0] == sep then [[]] + rest
      else [[s[0]] + rest[0]] + rest[1..]
  }

  /** A word without separators splits into itself. */
  lemma {:induction false} SplitWord(w: string, sep: char)
    requires sep !in w
    ensures Split(w, sep) == [w]
    decreases |w|
  {
    if w != [] {
      SplitWord(w[1..], sep);
      assert [w[0]] + w[1..] == w;
    }
  }

  /** A leading word followed by one separator splits off as the first part. */
  lemma {:induction false} SplitAfterWord(w: string, sep: char, rest: string)
    requires sep !in w
    ensures Split(w + [sep] + rest, sep) == [w] + Split(rest, sep)
    decreases |w|
  {
    if w == [] {
      assert w + [sep] + rest == [sep] + rest;
      assert ([sep] + rest)[1..] == rest;
    } else {
      var s := w + [sep] + rest;
      assert s[1..] == w[1..] + [sep] + rest;
      SplitAfterWord(w[1..], sep, rest);
      assert [w[0]] + w[1..] == w;
    }
  }

  /**
   * `req.headers.authorization?.split(' ')[1]`, kept only when truthy: the
   * second space-separated word of the header, if there is one and it is
   * not empty.
   */
  function BearerToken(header: Option<string>): (t: Option<string>)
    ensures t.Some? ==> t.value != [] && ' ' !in t.value
    ensures header.None? ==> t.None?
  {
    if header.None? then None
    else
      var parts := Split(header.value, ' ');
      if |parts| >= 2 && parts[1] != [] then Some(parts[1]) else None
  }

  /** "Bearer <token>" yields the token, whatever the first word is. */
  lemma BearerRoundTrip(scheme: string, token: string)
    requires ' ' !in scheme && ' ' !in token && token != []
    ensures BearerToken(Some(scheme + " " + token)) == Some(token)
  {
    SplitAfterWord(scheme, ' ', token);
    SplitWord(token, ' ');
  }

  /**
   * A header with a space splits at its first space: the token is the word
   * after it, up to the next space or the end, and an empty word is no token.
   */
  lemma SecondWord(scheme: string, token: string, rest: string)
    requires ' ' !in scheme && ' ' !in token && (rest == [] || rest[0] == ' ')
    ensures BearerToken(Some(scheme + " " + token + rest)) == (if token == [] then None else Some(token))
  {
    assert scheme + " " + token + rest == scheme + [' '] + (token + rest);
    SplitAfterWord(scheme, ' ', token + rest);
    if rest == [] {
      assert token + rest == token;
      SplitWord(token, ' ');
    } else {
      assert token + rest == token + [' '] + rest[1..];
      SplitAfterWord(token, ' ', rest[1..]);
    }
  }

  /** A header with no space in it carries no token. */
  lemma NoSpaceNoToken(header: string)
    requires ' ' !in header
    ensures BearerToken(Some(header)) == None
  {
    SplitWord(header, ' ');
  }

  function UserRowId(r: UserRow): nat { r.id }
  function AdminRowId(r: AdminRow): nat { r.id }

  /**
   * `SELECT ... WHERE id = ?` over a table whose rows carry their id as
   * `idOf`: the matching rows in table order. A missing id is bound as NULL
   * and matches nothing.
   */
  function RowsWithId<R>(table: seq<R>, id: Option<nat>, idOf: R -> nat): (rows: seq<R>)
    ensures id.None? ==> rows == []
    ensures forall i :: 0 <= i < |rows| ==> rows[i] in table && Some(idOf(rows[i])) == id
    ensures id.Some? ==> forall r :: r in table && idOf(r) == id.value ==> r in rows
  {
    if table == [] || id.None? then []
    else
      var rest := RowsWithId(table[1..], id, idOf);
      if idOf(table[0]) == id.value then [table[0]] + rest else rest
  }

  /**
   * `verifyToken`. `users` is the `users` table as the query sees it, or
   * None when the query throws; a throwing query lands in the same catch
   * block as a rejected token.
   */
  function VerifyToken(header: Option<string>, verify: string -> TokenVerdict, users: Option<seq<UserRow>>): (r: Outcome<RequestUser>)
    ensures BearerToken(header).None? <==> r == Respond(401, "No token provided")
    ensures r.Respond? ==> r.status == 401 || r == Respond(403, "Account is banned")
    ensures BearerToken(header).Some? && verify(BearerToken(header).value).Verified? && users.None? ==>
      r == Respond(401, "Invalid token")
    ensures r.Next? ==>
      && BearerToken(header).Some? && verify(BearerToken(header).value).Verified?
      && var c := verify(BearerToken(header).value).claims;
      && c.userId == Some(r.principal.userId)
      && r.principal.role == RoleOrDefault(c.role)
      && users.Some?
      && exists row :: row in users.value && row.id == r.principal.userId && !row.isBanned && row.isGuest == r.principal.isGuest
  {
    var token := BearerToken(header);
    if token.None? then Respond(401, "No token provided")
    else
      match verify(token.value)
      case Expired => Respond(401, "Token expired")
      case Rejected => Respond(401, "Invalid token")
      case Verified(c) =>
        if users.None? then Respond(401, "Invalid token")
        else
          var rows := RowsWithId(users.value, c.userId, UserRowId);
          if |rows| == 0 then Respond(401, "User not found")
          else if rows[0].isBanned then Respond(403, "Account is banned")
          else Next(RequestUser(c.userId.value, RoleOrDefault(c.role), rows[0].isGuest))
  }

  /** Without a token the verifier and the database are never consulted. */
  lemma MissingTokenIgnoresVerifier(header: Option<string>, v1: string -> TokenVerdict, v2: string -> TokenVerdict,
                                    db1: Option<seq<UserRow>>, db2: Option<seq<UserRow>>)
    requires BearerToken(header).None?
    ensures VerifyToken(header, v1, db1) == VerifyToken(header, v2, db2) == Respond(401, "No token provided")
  {
  }

  /** An expired token is reported as such; every other refusal as an invalid token. */
  lemma VerifierRefusals(header: Option<string>, verify: string -> TokenVerdict, users: Option<seq<UserRow>>)
    requires BearerToken(header).Some?
    ensures verify(BearerToken(header).value) == Expired ==> VerifyToken(header, verify, users) == Respond(401, "Token expired")
    ensures verify(BearerToken(header).value) == Rejected ==> VerifyToken(header, verify, users) == Respond(401, "Invalid token")
  {
  }

  /** A valid token for a banned user is refused with 403, and for an unknown user with 401. */
  lemma KnownUserChecks(header: Option<string>, verify: string -> TokenVerdict, table: seq<UserRow>)
    requires BearerToken(header).Some? && verify(BearerToken(header).value).Verified?
    ensures var rows := RowsWithId(table, verify(BearerToken(header).value).claims.userId, UserRowId);
      && (rows == [] ==> VerifyToken(header, verify, Some(table)) == Respond(401, "User not found"))
      && (rows != [] && rows[0].isBanned ==> VerifyToken(header, verify, Some(table)) == Respond(403, "Account is banned"))
  {
  }

  /** A valid token for an existing, unbanned user passes, with the token's role (or "user") and the row's guest flag. */
  lemma ValidUserPasses(header: Option<string>, verify: string -> TokenVerdict, table: seq<UserRow>, row: UserRow)
    requires BearerToken(header).Some? && verify(BearerToken(header).value).Verified?
    requires var c := verify(BearerToken(header).value).claims;
      RowsWithId(table, c.userId, UserRowId) == [row] && !row.isBanned
    ensures var c := verify(BearerToken(header).value).claims;
      VerifyToken(header, verify, Some(table)) == Next(RequestUser(row.id, RoleOrDefault(c.role), row.isGuest))
  {
  }

  /** The `subscription_expires_at` test: an expiry exists and lies before now. */
  predicate Lapsed(row: UserRow, now: int) {
    row.subscriptionExpiresAt.Some? && row.subscriptionExpiresAt.value < now
  }

  /**
   * `requirePremium`, run after `verifyToken` has stored `user`. `users` is
   * the `users` table, or None when the query throws.
   */
  function RequirePremium(user: RequestUser, users: Option<seq<UserRow>>, now: int): (r: Outcome<RequestUser>)
    ensures r.Next? ==> r.principal == user
    ensures r.Next? <==>
      && users.Some?
      && var rows := RowsWithId(users.value, Some(user.userId), UserRowId);
      && rows != [] && rows[0].isPremium && !Lapsed(rows[0], now)
    ensures users.None? ==> r == Respond(500, "Server error")
    ensures users.Some? && RowsWithId(users.value, Some(user.userId), UserRowId) == [] ==>
      r == Respond(404, "User not found")
    ensures var rows := if users.Some? then RowsWithId(users.value, Some(user.userId), UserRowId) else [];
      users.Some? && rows != [] && (!rows[0].isPremium || Lapsed(rows[0], now)) ==>
      r == Respond(403, "Premium subscription required")
    ensures r.Respond? ==> r.status in {403, 404, 500}
  {
    if users.None? then Respond(500, "Server error")
    else
      var rows := RowsWithId(users.value, Some(user.userId), UserRowId);
      if |rows| == 0 then Respond(404, "User not found")
      else if !rows[0].isPremium || Lapsed(rows[0], now) then Respond(403, "Premium subscription required")
      else Next(user)
  }

  /** A premium user with no expiry is never turned away, whatever the time. */
  lemma PremiumWithoutExpiryAllowed(user: RequestUser, table: seq<UserRow>, row: UserRow, now: int)
    requires RowsWithId(table, Some(user.userId), UserRowId) == [row]
    requires row.isPremium && row.subscriptionExpiresAt.None?
    ensures RequirePremium(user, Some(table), now) == Next(user)
  {
  }

  /** A subscription that admits a request at some time admitted it at every earlier time. */
  lemma PremiumAdmissionMonotone(user: RequestUser, users: Option<seq<UserRow>>, earlier: int, later: int)
    requires earlier <= later
    requires RequirePremium(user, users, later).Next?
    ensures RequirePremium(user, users, earlier).Next?
  {
  }

  predicate IsAdminRole(role: Option<string>) {
    role == Some("admin") || role == Some("super_admin")
  }

  /**
   * `requireAdmin`. The role is taken from the token, not from the
   * `admin_users` row; the row only has to exist and be active. Every
   * failure of the verifier or the query answers 401 'Invalid admin token'.
   */
  function RequireAdmin(header: Option<string>, verify: string -> TokenVerdict, admins: Option<seq<AdminRow>>): (r: Outcome<RequestAdmin>)
    ensures BearerToken(header).None? ==> r == Respond(401, "No token provided")
    ensures r.Next? ==> r.principal.role in {"admin", "super_admin"}
    ensures r.Next? ==>
      && BearerToken(header).Some? && verify(BearerToken(header).value).Verified?
      && var c := verify(BearerToken(header).value).claims;
      && c.adminId == Some(r.principal.adminId) && c.role == Some(r.principal.role)
      && admins.Some?
      && exists row :: row in admins.value && row.id == r.principal.adminId && row.isActive
    ensures r.Respond? ==> r.status in {401, 403}
    ensures BearerToken(header).Some? && !verify(BearerToken(header).value).Verified? ==> r == Respond(401, "Invalid admin token")
    ensures r.Next? <==>
      && BearerToken(header).Some? && verify(BearerToken(header).value).Verified?
      && var c := verify(BearerToken(header).value).claims;
      && IsAdminRole(c.role) && admins.Some?
      && var rows := RowsWithId(admins.value, c.adminId, AdminRowId);
      && rows != [] && rows[0].isActive
  {
    var token := BearerToken(header);
    if token.None? then Respond(401, "No token provided")
    else
      match verify(token.value)
      case Expired => Respond(401, "Invalid admin token")
      case Rejected => Respond(401, "Invalid admin token")
      case Verified(c) =>
        if !IsAdminRole(c.role) then Respond(403, "Admin access required")
        else if admins.None? then Respond(401, "Invalid admin token")
        else
          var rows := RowsWithId(admins.value, c.adminId, AdminRowId);
          if |rows| == 0 || !rows[0].isActive then Respond(403, "Admin access denied")
          else Next(RequestAdmin(c.adminId.value, c.role.value))
  }

  /** A verified token whose role is neither admin role is refused before the database is asked. */
  lemma NonAdminRoleRefused(header: Option<string>, verify: string -> TokenVerdict, a1: Option<seq<AdminRow>>, a2: Option<seq<AdminRow>>)
    requires BearerToken(header).Some? && verify(BearerToken(header).value).Verified?
    requires !IsAdminRole(verify(BearerToken(header).value).claims.role)
    ensures RequireAdmin(header, verify, a1) == RequireAdmin(header, verify, a2) == Respond(403, "Admin access required")
  {
  }

  /** An admin role in the token is not enough: a missing or inactive `admin_users` row is refused with 403. */
  lemma InactiveAdminRefused(header: Option<string>, verify: string -> TokenVerdict, table: seq<AdminRow>)
    requires BearerToken(header).Some? && verify(BearerToken(header).value).Verified?
    requires IsAdminRole(verify(BearerToken(header).value).claims.role)
    requires var rows := RowsWithId(table, verify(BearerToken(header).value).claims.adminId, AdminRowId);
      rows == [] || !rows[0].isActive
    ensures RequireAdmin(header, verify, Some(table)) == Respond(403, "Admin access denied")
  {
  }

  /** A verified admin token whose `admin_users` row is active passes, with the token's id and role. */
  lemma ValidAdminPasses(header: Option<string>, verify: string -> TokenVerdict, table: seq<AdminRow>, row: AdminRow)
    requires BearerToken(header).Some? && verify(BearerToken(header).value).Verified?
    requires var c := verify(BearerToken(header).value).claims;
      IsAdminRole(c.role) && RowsWithId(table, c.adminId, AdminRowId) == [row] && row.isActive
    ensures var c := verify(BearerToken(header).value).claims;
      RequireAdmin(header, verify, Some(table)) == Next(RequestAdmin(row.id, c.role.value))
  {
  }

  /** A throwing `admin_users` query is reported like a bad token. */
  lemma AdminLookupFailure(header: Option<string>, verify: string -> TokenVerdict)
    requires BearerToken(header).Some? && verify(BearerToken(header).value).Verified?
    requires IsAdminRole(verify(BearerToken(header).value).claims.role)
    ensures RequireAdmin(header, verify, None) == Respond(401, "Invalid admin token")
  {
  }
}
