/**
 * The partner search of services/matchmakingService.js. The service reads
 * the requester's blocked list, builds one SQL query clause by clause, and
 * returns one random row of its answer, or null. Here the query is a list of
 * conditions with positional parameters, its meaning is given by
 * `Satisfies`, and the whole search is compared with a direct statement of
 * who is eligible (`Eligible`).
 */
module Matchmaking {
  import opened Wrappers

  /** A row of the `users` table; `gender`, `region` and `avatar_url` may be NULL. */
  datatype User = User(id: nat, name: string, age: nat, gender: Option<string>, region: Option<string>,
                       avatarUrl: Option<string>, isOnline: bool, isBanned: bool)

  /** The columns the search selects and returns. */
  datatype Profile = Profile(id: nat, name: string, age: nat, gender: Option<string>, region: Option<string>,
                             avatarUrl: Option<string>)

  /** A row of the `blocked_users` table. */
  datatype BlockRow = BlockRow(blockerId: nat, blockedId: nat)

  /** The request's optional filters. */
  datatype Filters = Filters(genderFilter: Option<string>, regionFilter: Option<string>)

  function ProfileOf(u: User): Profile {
    Profile(u.id, u.name, u.age, u.gender, u.region, u.avatarUrl)
  }

  /** JavaScript truthiness of an optional string: present and not empty. */
  predicate Truthy(s: Option<string>) { s.Some? && s.value != "" }

  /** `genderFilter && genderFilter !== 'any'`. */
  predicate GenderConstrained(f: Filters) { Truthy(f.genderFilter) && f.genderFilter.value != "any" }

  /** `if (regionFilter)`. */
  predicate RegionConstrained(f: Filters) { Truthy(f.regionFilter) }

  /** The users the requester has blocked, as a set. */
  function BlockedSet(rows: seq<BlockRow>, userId: nat): set<nat> {
    set r | r in rows && r.blockerId == userId :: r.blockedId
  }

  /** `SELECT blocked_id FROM blocked_users WHERE blocker_id = ?` followed by `blocked.map(b => b.blocked_id)`. */
  function BlockedIds(rows: seq<BlockRow>, userId: nat): (ids: seq<nat>)
    ensures forall x :: x in ids <==> x in BlockedSet(rows, userId)
  {
    if rows == [] then []
    else
      var rest := BlockedIds(rows[1..], userId);
      assert BlockedSet(rows, userId) == BlockedSet(rows[1..], userId) + (if rows[0].blockerId == userId then {rows[0].blockedId} else {}) by {
        assert forall r :: r in rows <==> r == rows[0] || r in rows[1..];
      }
      if rows[0].blockerId == userId then [rows[0].blockedId] + rest else rest
  }

  /** Who may be offered to the requester, stated directly. */
  predicate Eligible(u: User, userId: nat, blocked: set<nat>, f: Filters) {
    && u.id != userId
    && u.isOnline
    && !u.isBanned
    && u.id !in blocked
    && (GenderConstrained(f) ==> u.gender == Some(f.genderFilter.value))
    && (RegionConstrained(f) ==> u.region == Some(f.regionFilter.value))
  }

  /** Gender plays no part unless a gender other than 'any' is asked for. */
  lemma GenderIgnoredUnlessConstrained(u: User, userId: nat, blocked: set<nat>, f: Filters, g: Option<string>)
    requires !GenderConstrained(f)
    ensures Eligible(u.(gender := g), userId, blocked, f) == Eligible(u, userId, blocked, f)
  {
  }

  /** Region plays no part unless a non-empty region is asked for. */
  lemma RegionIgnoredUnlessConstrained(u: User, userId: nat, blocked: set<nat>, f: Filters, g: Option<string>)
    requires !RegionConstrained(f)
    ensures Eligible(u.(region := g), userId, blocked, f) == Eligible(u, userId, blocked, f)
  {
  }

  // ---------------------------------------------------------------------
  // The query as the service builds it

  datatype SqlValue = SqlInt(n: nat) | SqlText(s: string)

  /** The conditions the service can add to the WHERE clause; `?` marks a positional parameter. */
  datatype Condition =
    | IdNotParam              // id != ?
    | OnlineIsTrue            // is_online = TRUE
    | BannedIsFalse           // is_banned = FALSE
    | IdNotInList(ids: seq<nat>)  // id NOT IN (…), the ids written into the text
    | GenderIsParam           // gender = ?
    | RegionIsParam           // region = ?

  /** The query text (as its conditions) and the `params` array sent with it. */
  datatype Query = Query(conditions: seq<Condition>, params: seq<SqlValue>)

  function Arity(c: Condition): nat {
    match c
    case IdNotParam => 1
    case GenderIsParam => 1
    case RegionIsParam => 1
    case _ => 0
  }

  /** The number of `?` placeholders in a list of conditions. */
  function Placeholders(cs: seq<Condition>): nat {
    if cs == [] then 0 else Arity(cs[0]) + Placeholders(cs[1..])
  }

  /**
   * The driver binds one parameter to each placeholder. The model treats a
   * query whose parameters do not match its placeholders as failing;
   * `BuildQuery` never builds one.
   */
  predicate WellFormed(q: Query) {
    Placeholders(q.conditions) == |q.params|
  }

  /** One condition on one row, with its bound parameters. A comparison with NULL is never true. */
  predicate Holds(c: Condition, args: seq<SqlValue>, u: User)
    requires |args| == Arity(c)
  {
    match c
    case IdNotParam => args[0] != SqlInt(u.id)
    case OnlineIsTrue => u.isOnline
    case BannedIsFalse => !u.isBanned
    case IdNotInList(ids) => u.id !in ids
    case GenderIsParam => u.gender.Some? && args[0] == SqlText(u.gender.value)
    case RegionIsParam => u.region.Some? && args[0] == SqlText(u.region.value)
  }

  /** The WHERE clause on one row: the conjunction of its conditions, parameters bound left to right. */
  predicate Satisfies(cs: seq<Condition>, ps: seq<SqlValue>, u: User)
    requires Placeholders(cs) == |ps|
  {
    if cs == [] then true
    else
      var k := Arity(cs[0]);
      Holds(cs[0], ps[..k], u) && Satisfies(cs[1..], ps[k..], u)
  }

  /** Placeholders are counted additively. */
  lemma {:induction false} PlaceholdersAppend(cs: seq<Condition>, ds: seq<Condition>)
    ensures Placeholders(cs + ds) == Placeholders(cs) + Placeholders(ds)
    decreases |cs|
  {
    if cs != [] {
      assert (cs + ds)[0] == cs[0] && (cs + ds)[1..] == cs[1..] + ds;
      PlaceholdersAppend(cs[1..], ds);
    } else {
      assert cs + ds == ds;
    }
  }

  /** Adding a condition (and its parameters) to a query is conjunction. */
  lemma {:induction false} AppendCondition(cs: seq<Condition>, ps: seq<SqlValue>, c: Condition, args: seq<SqlValue>, u: User)
    requires Placeholders(cs) == |ps| && |args| == Arity(c)
    ensures Placeholders(cs + [c]) == |ps + args|
    ensures Satisfies(cs + [c], ps + args, u) == (Satisfies(cs, ps, u) && Holds(c, args, u))
    decreases |cs|
  {
    PlaceholdersAppend(cs, [c]);
    assert Placeholders([c]) == Arity(c);
    if cs == [] {
      assert [] + [c] == [c] && [] + args == args;
      assert args[..Arity(c)] == args;
    } else {
      var k := Arity(cs[0]);
      assert (cs + [c])[1..] == cs[1..] + [c];
      assert (ps + args)[..k] == ps[..k];
      assert (ps + args)[k..] == ps[k..] + args;
      AppendCondition(cs[1..], ps[k..], c, args, u);
    }
  }

  /** The same, for every row at once. */
  lemma AppendConditionAll(cs: seq<Condition>, ps: seq<SqlValue>, c: Condition, args: seq<SqlValue>)
    requires Placeholders(cs) == |ps| && |args| == Arity(c)
    ensures Placeholders(cs + [c]) == |ps + args|
    ensures forall u :: Satisfies(cs + [c], ps + args, u) == (Satisfies(cs, ps, u) && Holds(c, args, u))
  {
    AppendCondition(cs, ps, c, args, User(0, "", 0, None, None, None, false, false));
    forall u ensures Satisfies(cs + [c], ps + args, u) == (Satisfies(cs, ps, u) && Holds(c, args, u)) {
      AppendCondition(cs, ps, c, args, u);
    }
  }

  /** Without a gender condition the query does not look at the gender column. */
  lemma {:induction false} GenderColumnUnread(cs: seq<Condition>, ps: seq<SqlValue>, u: User, g: Option<string>)
    requires Placeholders(cs) == |ps| && GenderIsParam !in cs
    ensures Satisfies(cs, ps, u.(gender := g)) == Satisfies(cs, ps, u)
    decreases |cs|
  {
    if cs != [] {
      assert forall x :: x in cs[1..] ==> x in cs;
      GenderColumnUnread(cs[1..], ps[Arity(cs[0])..], u, g);
    }
  }

  /** Without a region condition the query does not look at the region column. */
  lemma {:induction false} RegionColumnUnread(cs: seq<Condition>, ps: seq<SqlValue>, u: User, g: Option<string>)
    requires Placeholders(cs) == |ps| && RegionIsParam !in cs
    ensures Satisfies(cs, ps, u.(region := g)) == Satisfies(cs, ps, u)
    decreases |cs|
  {
    if cs != [] {
      assert forall x :: x in cs[1..] ==> x in cs;
      RegionColumnUnread(cs[1..], ps[Arity(cs[0])..], u, g);
    }
  }

  /** The base query of lines 15-22: not the requester, online, not banned. */
  lemma BaseQuery(userId: nat, u: User)
    ensures Placeholders([IdNotParam, OnlineIsTrue, BannedIsFalse]) == 1
    ensures Satisfies([IdNotParam, OnlineIsTrue, BannedIsFalse], [SqlInt(userId)], u) <==>
      u.id != userId && u.isOnline && !u.isBanned
  {
    var cs := [IdNotParam, OnlineIsTrue, BannedIsFalse];
    var ps := [SqlInt(userId)];
    assert cs[1..] == [OnlineIsTrue, BannedIsFalse] && cs[1..][1..] == [BannedIsFalse] && cs[1..][1..][1..] == [];
    assert ps[..1] == ps && ps[1..] == [];
    var empty: seq<SqlValue> := [];
    assert empty[..0] == [] && empty[0..] == [];
    assert Satisfies([BannedIsFalse], [], u) == !u.isBanned;
    assert Satisfies([OnlineIsTrue, BannedIsFalse], [], u) == (u.isOnline && Satisfies([BannedIsFalse], [], u));
    assert Satisfies(cs, ps, u) == (Holds(IdNotParam, ps, u) && Satisfies([OnlineIsTrue, BannedIsFalse], [], u));
  }

  /**
   * Lines 15-38: the base query, then `query +=` and `params.push` for each
   * filter that applies. The result means exactly `Eligible`.
   */
  method BuildQuery(userId: nat, blockedIds: seq<nat>, f: Filters) returns (q: Query)
    ensures WellFormed(q)
    ensures forall u :: Satisfies(q.conditions, q.params, u) <==> Eligible(u, userId, (set x | x in blockedIds), f)
    ensures GenderIsParam in q.conditions <==> GenderConstrained(f)
    ensures RegionIsParam in q.conditions <==> RegionConstrained(f)
    ensures IdNotInList(blockedIds) in q.conditions <==> |blockedIds| > 0
  {
    ghost var blocked := set x | x in blockedIds;
    var conditions := [IdNotParam, OnlineIsTrue, BannedIsFalse];
    var params := [SqlInt(userId)];
    assert Placeholders(conditions) == |params|;
    forall u ensures Satisfies(conditions, params, u) <==> u.id != userId && u.isOnline && !u.isBanned {
      BaseQuery(userId, u);
    }

    if |blockedIds| > 0 {
      AppendConditionAll(conditions, params, IdNotInList(blockedIds), []);
      assert params + [] == params;
      conditions := conditions + [IdNotInList(blockedIds)];
    }
    assert forall u :: Satisfies(conditions, params, u) <==> u.id != userId && u.isOnline && !u.isBanned && u.id !in blocked;
    assert (IdNotInList(blockedIds) in conditions <==> |blockedIds| > 0) && GenderIsParam !in conditions && RegionIsParam !in conditions;

    if GenderConstrained(f) {
      AppendConditionAll(conditions, params, GenderIsParam, [SqlText(f.genderFilter.value)]);
      conditions := conditions + [GenderIsParam];
      params := params + [SqlText(f.genderFilter.value)];
    }
    assert forall u :: Satisfies(conditions, params, u) <==>
      u.id != userId && u.isOnline && !u.isBanned && u.id !in blocked && (GenderConstrained(f) ==> u.gender == Some(f.genderFilter.value));
    assert (IdNotInList(blockedIds) in conditions <==> |blockedIds| > 0) && (GenderIsParam in conditions <==> GenderConstrained(f)) && RegionIsParam !in conditions;

    if RegionConstrained(f) {
      AppendConditionAll(conditions, params, RegionIsParam, [SqlText(f.regionFilter.value)]);
      conditions := conditions + [RegionIsParam];
      params := params + [SqlText(f.regionFilter.value)];
    }
    assert forall u :: Satisfies(conditions, params, u) <==> Eligible(u, userId, blocked, f);
    q := Query(conditions, params);
  }

  /** `SELECT … WHERE …` over a table: the rows that satisfy the query, in table order. */
  function SelectRows(q: Query, table: seq<User>): (rows: seq<User>)
    requires WellFormed(q)
    ensures forall u :: u in rows <==> u in table && Satisfies(q.conditions, q.params, u)
  {
    if table == [] then []
    else
      var rest := SelectRows(q, table[1..]);
      assert forall u :: u in table <==> u == table[0] || u in table[1..];
      if Satisfies(q.conditions, q.params, table[0]) then [table[0]] + rest else rest
  }

  /**
   * `db.query(query, params)`. The model runs only queries whose parameters
   * match their placeholders, and `BuildQuery` builds only those.
   */
  function Execute(q: Query, table: seq<User>): (answer: Option<seq<User>>)
    ensures answer.Some? <==> WellFormed(q)
    ensures answer.Some? ==> forall u :: u in answer.value <==> u in table && Satisfies(q.conditions, q.params, u)
  {
    if WellFormed(q) then Some(SelectRows(q, table)) else None
  }

  /**
   * `findMatch`. Each table is given as what its query reads, or None when
   * that query throws; a throw is caught and answered with null. `ORDER BY
   * RAND() LIMIT 1` is an arbitrary choice among the answer's rows.
   */
  method FindMatch(userId: nat, f: Filters, blockTable: Option<seq<BlockRow>>, userTable: Option<seq<User>>)
    returns (m: Option<Profile>)
    ensures m.Some? ==>
      && blockTable.Some? && userTable.Some?
      && exists u :: u in userTable.value && Eligible(u, userId, BlockedSet(blockTable.value, userId), f) && m.value == ProfileOf(u)
    ensures m.Some? ==> m.value.id != userId && m.value.id !in BlockedSet(blockTable.value, userId)
    ensures m.None? <==>
      || blockTable.None? || userTable.None?
      || forall u :: u in userTable.value ==> !Eligible(u, userId, BlockedSet(blockTable.value, userId), f)
  {
    if blockTable.None? {
      return None;
    }
    var blockedIds := BlockedIds(blockTable.value, userId);
    assert (set x | x in blockedIds) == BlockedSet(blockTable.value, userId);
    var q := BuildQuery(userId, blockedIds, f);
    if userTable.None? {
      return None;
    }
    var answer := Execute(q, userTable.value);
    if answer.None? {
      return None;
    }
    var matches := answer.value;
    if |matches| > 0 {
      assert matches[0] in matches;
      var pick :| pick in matches;
      m := Some(ProfileOf(pick));
    } else {
      m := None;
      forall u | u in userTable.value ensures !Eligible(u, userId, BlockedSet(blockTable.value, userId), f) {
        assert Eligible(u, userId, BlockedSet(blockTable.value, userId), f) ==> u in matches;
      }
    }
  }
}
