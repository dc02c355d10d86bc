/** Where rows live: n tables read as one, and what each statement does to them. */
module Sharding {
  import opened Wrappers
  import opened Users
  import opened Decimal
  import opened Patterns

  /** The rows of one shard, by primary key. */
  type Table = map<int, User>

  type RoleTable = set<(int, string)>

  const HINT_PREFIX := "-- sharding:"

  const TWO_TO_64 := 0x1_0000_0000_0000_0000

  /** The remainder by repeated subtraction, which keeps the solver's arithmetic linear. */
  function Remainder(a: int, n: nat): (k: nat)
    requires n > 0
    ensures k < n
    decreases if a < 0 then 0 else a
  {
    if a < 0 then 0 else if a < n then a else Remainder(a - n, n)
  }

  lemma {:induction false} RemainderDivides(a: nat, n: nat) returns (q: nat)
    requires n > 0
    ensures a == q * n + Remainder(a, n)
    decreases a
  {
    if a < n {
      q := 0;
    } else {
      q := RemainderDivides(a - n, n);
      assert (q + 1) * n == q * n + n;
      q := q + 1;
    }
  }

  lemma MultipleAtLeast(d: int, n: nat)
    requires d > 0
    ensures d * n >= n
  {
    assert d * n == (d - 1) * n + n;
  }

  lemma QuotientUnique(n: nat, q: int, r: nat, q': int, r': nat)
    requires r < n && r' < n && q * n + r == q' * n + r'
    ensures r == r'
  {
    assert (q - q') * n == q * n - q' * n && (q' - q) * n == q' * n - q * n;
    if q > q' {
      MultipleAtLeast(q - q', n);
    } else if q < q' {
      MultipleAtLeast(q' - q, n);
    }
  }

  lemma RemainderIsModulo(a: nat, n: nat)
    requires n > 0
    ensures Remainder(a, n) == a % n
  {
    var q := RemainderDivides(a, n);
    assert a == a / n * n + a % n;
    QuotientUnique(n, q, Remainder(a, n), a / n, a % n);
  }

  /** The remainder is taken after conversion to an unsigned 64-bit number. */
  function ShardOf(id: int, n: nat): (k: nat)
    requires n > 0
    ensures k < n
  {
    Remainder(if id < 0 then TWO_TO_64 + id else id, n)
  }

  lemma ShardOfIsModulo(id: int, n: nat)
    requires n > 0 && -0x1_0000_0000_0000_0000 <= id
    ensures ShardOf(id, n) == (if id < 0 then 0x1_0000_0000_0000_0000 + id else id) % n
  {
    RemainderIsModulo(if id < 0 then TWO_TO_64 + id else id, n);
  }

  function Hint(k: nat): string {
    HINT_PREFIX + Digits(k)
  }

  function ShardingHint(id: int, maxShard: nat): string {
    Hint(ShardOf(id, maxShard + 1))
  }

  function AllHints(maxShard: nat): seq<string> {
    seq(maxShard + 1, i requires 0 <= i => Hint(i))
  }

  /** The shard a proxy sends a hinted statement to. */
  function Route(hint: string): int {
    if |hint| < |HINT_PREFIX| then 0 else Parse(hint[|HINT_PREFIX|..])
  }

  lemma RouteHint(k: nat)
    ensures Route(Hint(k)) == k
  {
    ParseDigits(k);
    assert Hint(k)[|HINT_PREFIX|..] == Digits(k);
  }

  /** The hint of an id names its shard in decimal and is one of the enumerated hints, these differ, and each reaches
      its own shard. */
  lemma HintsCoverIds(id: int, maxShard: nat)
    ensures ShardingHint(id, maxShard) == "-- sharding:" + ToString(ShardOf(id, maxShard + 1))
    ensures ShardingHint(id, maxShard) in AllHints(maxShard)
    ensures forall i, j :: 0 <= i < j <= maxShard ==> AllHints(maxShard)[i] != AllHints(maxShard)[j]
    ensures forall i :: 0 <= i <= maxShard ==> Route(AllHints(maxShard)[i]) == i
  {
    assert AllHints(maxShard)[ShardOf(id, maxShard + 1)] == ShardingHint(id, maxShard);
    forall i | 0 <= i <= maxShard
      ensures Route(AllHints(maxShard)[i]) == i
    {
      RouteHint(i);
    }
  }

  predicate RowPlaced(sh: seq<Table>, k: int, id: int)
    requires 0 <= k < |sh| && id in sh[k]
  {
    id > 0 && ShardOf(id, |sh|) == k && sh[k][id].id == id
  }

  /** Every row of id i sits in shard i mod n, under its own id. */
  ghost predicate Placed(sh: seq<Table>) {
    |sh| > 0 && forall k: int, id: int :: 0 <= k < |sh| && id in sh[k] ==> RowPlaced(sh, k, id)
  }

  /** The ids found in the first k shards. */
  ghost function IdsUpTo(sh: seq<Table>, k: nat): set<int>
    requires k <= |sh|
  {
    if k == 0 then {} else IdsUpTo(sh, k - 1) + sh[k - 1].Keys
  }

  lemma {:induction false} IdsCollected(sh: seq<Table>, k: nat, n: nat, id: int)
    requires k < n <= |sh| && id in sh[k]
    ensures id in IdsUpTo(sh, n)
    decreases n
  {
    if k < n - 1 {
      IdsCollected(sh, k, n - 1, id);
    }
  }

  /** The one table the shards stand for. */
  ghost function Logical(sh: seq<Table>): Table
    requires |sh| > 0
  {
    map id | id in IdsUpTo(sh, |sh|) && id in sh[ShardOf(id, |sh|)] :: sh[ShardOf(id, |sh|)][id]
  }

  /** A row of the union of the shards is a row of the logical table, and the other way round. */
  lemma LogicalIsUnion(sh: seq<Table>, k: nat, id: int)
    requires Placed(sh) && k < |sh|
    ensures id in sh[k] <==> id in Logical(sh) && ShardOf(id, |sh|) == k
    ensures id in sh[k] ==> Logical(sh)[id] == sh[k][id]
  {
    if id in sh[k] {
      assert RowPlaced(sh, k, id);
      IdsCollected(sh, k, |sh|, id);
    }
  }

  /** select ... where id = ?, on the shard of the id. */
  function RowOf(sh: seq<Table>, id: int): Option<User>
    requires |sh| > 0
  {
    var k := ShardOf(id, |sh|);
    if id in sh[k] then Some(sh[k][id]) else None
  }

  lemma RowRefines(sh: seq<Table>, id: int)
    requires Placed(sh)
    ensures RowOf(sh, id) == if id in Logical(sh) then Some(Logical(sh)[id]) else None
  {
    LogicalIsUnion(sh, ShardOf(id, |sh|), id);
  }

  predicate SameLoginOrEmail(u: User, login: string, email: string) {
    u.login == login || u.email == email
  }

  ghost predicate ExistsIn(t: Table, login: string, email: string) {
    exists id :: id in t && SameLoginOrEmail(t[id], login, email)
  }

  /** A unique constraint of one shard is in the way. */
  predicate Clash(t: Table, u: User) {
    exists id :: id in t && id != u.id && SameLoginOrEmail(t[id], u.login, u.email)
  }

  /** The same constraint seen from the logical table: it only binds rows of the same shard. */
  ghost predicate ClashIn(t: Table, n: nat, u: User)
    requires n > 0
  {
    exists id ::
      id in t && id != u.id && ShardOf(id, n) == ShardOf(u.id, n) && SameLoginOrEmail(t[id], u.login, u.email)
  }

  /** The row an insert writes: the deleted column keeps its default. */
  function Inserted(u: User): User {
    u.(deleted := false)
  }

  /** None is a statement exception. */
  function InsertRow(sh: seq<Table>, u: User): Option<seq<Table>>
    requires |sh| > 0
  {
    var k := ShardOf(u.id, |sh|);
    if u.id in sh[k] || Clash(sh[k], u) then None else Some(sh[k := sh[k][u.id := Inserted(u)]])
  }

  /** An update of a missing row changes nothing and does not fail. */
  function UpdateRow(sh: seq<Table>, u: User): Option<seq<Table>>
    requires |sh| > 0
  {
    var k := ShardOf(u.id, |sh|);
    if u.id !in sh[k] then Some(sh)
    else if Clash(sh[k], u) then None
    else Some(sh[k := sh[k][u.id := u]])
  }

  /** Saving a user: an update, nothing, or an insert under the next id; and the next id afterwards. */
  ghost function SaveRows(sh: seq<Table>, next: int, u: User): (Option<seq<Table>>, int)
    requires |sh| > 0
  {
    if u.id > 0 then (UpdateRow(sh, u), next)
    else if ExistsIn(Logical(sh), u.login, u.email) then (Some(sh), next)
    else (InsertRow(sh, u.(id := next)), next + 1)
  }

  lemma ClashRefines(sh: seq<Table>, u: User)
    requires Placed(sh)
    ensures Clash(sh[ShardOf(u.id, |sh|)], u) <==> ClashIn(Logical(sh), |sh|, u)
  {
    var k := ShardOf(u.id, |sh|);
    if Clash(sh[k], u) {
      var id :| id in sh[k] && id != u.id && SameLoginOrEmail(sh[k][id], u.login, u.email);
      LogicalIsUnion(sh, k, id);
      assert ClashIn(Logical(sh), |sh|, u);
    }
    if ClashIn(Logical(sh), |sh|, u) {
      var id :| id in Logical(sh) && id != u.id && ShardOf(id, |sh|) == k &&
                SameLoginOrEmail(Logical(sh)[id], u.login, u.email);
      LogicalIsUnion(sh, k, id);
    }
  }

  lemma WritePlaced(sh: seq<Table>, k: nat, u: User)
    requires Placed(sh) && u.id > 0 && k == ShardOf(u.id, |sh|)
    ensures Placed(sh[k := sh[k][u.id := u]])
  {
    var sh': seq<Table> := sh[k := sh[k][u.id := u]];
    forall i: int, id: int | 0 <= i < |sh'| && id in sh'[i]
      ensures RowPlaced(sh', i, id)
    {
      if i != k || id != u.id {
        assert RowPlaced(sh, i, id);
      }
    }
  }

  /** Writing one row in its shard writes that row of the logical table. */
  lemma WriteRefines(sh: seq<Table>, k: nat, u: User)
    requires Placed(sh) && u.id > 0 && k == ShardOf(u.id, |sh|)
    ensures Placed(sh[k := sh[k][u.id := u]])
    ensures Logical(sh[k := sh[k][u.id := u]]) == Logical(sh)[u.id := u]
  {
    WritePlaced(sh, k, u);
    var sh': seq<Table> := sh[k := sh[k][u.id := u]];
    var t, t' := Logical(sh), Logical(sh');
    forall id
      ensures id in t' <==> id == u.id || id in t
      ensures id in t' ==> t'[id] == t[u.id := u][id]
    {
      var i := ShardOf(id, |sh|);
      LogicalIsUnion(sh, i, id);
      LogicalIsUnion(sh', i, id);
    }
    assert t'.Keys == t[u.id := u].Keys;
  }

  /** Insert on n shards is insert on one table with constraints bound to residue classes. */
  lemma InsertRefines(sh: seq<Table>, u: User)
    requires Placed(sh) && u.id > 0
    ensures InsertRow(sh, u).None? <==> u.id in Logical(sh) || ClashIn(Logical(sh), |sh|, u)
    ensures InsertRow(sh, u).Some? ==>
              var sh' := InsertRow(sh, u).value;
              |sh'| == |sh| && Placed(sh') && Logical(sh') == Logical(sh)[u.id := u.(deleted := false)]
  {
    ClashRefines(sh, u);
    LogicalIsUnion(sh, ShardOf(u.id, |sh|), u.id);
    if InsertRow(sh, u).Some? {
      WriteRefines(sh, ShardOf(u.id, |sh|), Inserted(u));
    }
  }

  lemma UpdateRefines(sh: seq<Table>, u: User)
    requires Placed(sh) && u.id > 0
    ensures UpdateRow(sh, u).None? <==> u.id in Logical(sh) && ClashIn(Logical(sh), |sh|, u)
    ensures UpdateRow(sh, u).Some? ==>
              var sh' := UpdateRow(sh, u).value;
              && |sh'| == |sh| && Placed(sh')
              && Logical(sh') == if u.id in Logical(sh) then Logical(sh)[u.id := u] else Logical(sh)
  {
    ClashRefines(sh, u);
    LogicalIsUnion(sh, ShardOf(u.id, |sh|), u.id);
    if UpdateRow(sh, u).Some? && u.id in Logical(sh) {
      WriteRefines(sh, ShardOf(u.id, |sh|), u);
    }
  }

  ghost predicate LoginsUnique(t: Table) {
    forall i, j :: i in t && j in t && t[i].login == t[j].login ==> i == j
  }

  ghost predicate EmailsUnique(t: Table) {
    forall i, j :: i in t && j in t && t[i].email == t[j].email ==> i == j
  }

  /** The guard of global email uniqueness: no row outside the shard written holds the email. */
  ghost predicate EmailFreeElsewhere(t: Table, n: nat, u: User)
    requires n > 0
  {
    forall id :: id in t && ShardOf(id, n) != ShardOf(u.id, n) ==> t[id].email != u.email
  }

  /** An accepted update keeps emails globally unique exactly when no other shard holds the new email. */
  lemma UpdateKeepsEmailsUnique(sh: seq<Table>, u: User)
    requires Placed(sh) && u.id > 0 && u.id in Logical(sh) && EmailsUnique(Logical(sh))
    requires UpdateRow(sh, u).Some?
    ensures EmailsUnique(Logical(UpdateRow(sh, u).value)) <==> EmailFreeElsewhere(Logical(sh), |sh|, u)
  {
    UpdateRefines(sh, u);
    var t, t' := Logical(sh), Logical(UpdateRow(sh, u).value);
    if !EmailFreeElsewhere(t, |sh|, u) {
      var id :| id in t && ShardOf(id, |sh|) != ShardOf(u.id, |sh|) && t[id].email == u.email;
      assert t'[id].email == t'[u.id].email;
    } else {
      forall id | id in t && t[id].email == u.email
        ensures id == u.id
      {
        if id != u.id {
          assert SameLoginOrEmail(t[id], u.login, u.email);
          assert false;
        }
      }
    }
  }

  /** Two shards, one email: the per-shard constraint accepts a global duplicate. */
  lemma EmailsCanCollide()
    ensures
      var a := User(1, "ann", "Ann", "a@x", "", false);
      var b := User(2, "bob", "Bob", "b@x", "", false);
      var sh: seq<Table> := [map[2 := b], map[1 := a]];
      && Placed(sh) && EmailsUnique(Logical(sh)) && LoginsUnique(Logical(sh))
      && UpdateRow(sh, b.(email := "a@x")).Some?
      && !EmailsUnique(Logical(UpdateRow(sh, b.(email := "a@x")).value))
  {
    var a := User(1, "ann", "Ann", "a@x", "", false);
    var b := User(2, "bob", "Bob", "b@x", "", false);
    var sh: seq<Table> := [map[2 := b], map[1 := a]];
    LogicalIsUnion(sh, 1, 1);
    LogicalIsUnion(sh, 0, 2);
    assert a.login[0] != b.login[0] && a.email[0] != b.email[0];
    forall id | id in Logical(sh)
      ensures id == 1 || id == 2
    {
      LogicalIsUnion(sh, ShardOf(id, 2), id);
    }
    var b' := b.(email := "a@x");
    UpdateKeepsEmailsUnique(sh, b');
    assert Logical(sh)[1].email == b'.email;
  }

  /** The row auth looks for in a shard. */
  predicate AuthMatch(u: User, login: string, password: string) {
    u.login == login && u.password == password && !u.deleted
  }

  ghost predicate IsAuthAnswer(t: Table, login: string, password: string, id: int) {
    if id == 0 then forall i :: i in t ==> !AuthMatch(t[i], login, password)
    else id in t && AuthMatch(t[id], login, password)
  }

  /** With unique logins there is one answer, whatever the order of shards and rows. */
  lemma AuthAnswerUnique(t: Table, login: string, password: string, a: int, b: int)
    requires LoginsUnique(t)
    requires IsAuthAnswer(t, login, password, a) && IsAuthAnswer(t, login, password, b)
    ensures a == b
  {
  }

  /** The user object a search is asked with. */
  datatype Query = Query(login: string, email: string, name: string)

  /** The three optional LIKE patterns of the statement sent to the shards. */
  datatype Sql = Sql(name: Option<string>, login: Option<string>, email: Option<string>)

  /** What the search does to the query object: emails keep their spaces. */
  function RewriteQuery(q: Query): Query {
    q.(login := Rewrite(q.login), name := Rewrite(q.name))
  }

  function PatternOf(text: string): Option<string> {
    if text == "" then None else Some(Contains(text))
  }

  function SqlOf(q: Query): Sql {
    var r := RewriteQuery(q);
    Sql(PatternOf(r.name), PatternOf(r.login), PatternOf(r.email))
  }

  /** An absent condition, or one the lower-cased column meets. */
  predicate Fits(pattern: Option<string>, value: string) {
    pattern.None? || Like(pattern.value, Lower(value))
  }

  predicate Selects(sql: Sql, u: User) {
    !u.deleted && Fits(sql.name, u.name) && Fits(sql.login, u.login) && Fits(sql.email, u.email)
  }

  /** The words of the text stand in order in the value when that is shown in small letters. */
  ghost predicate HasWords(text: string, value: string) {
    exists at :: SpeltInOrder(Words(text), value, at)
  }

  lemma WordsPattern(text: string, value: string)
    requires Plain(text)
    ensures Fits(PatternOf(Rewrite(text)), value) <==> HasWords(text, value)
  {
    OrderMeaning(Words(text), value);
    if text == "" {
      assert InOrder([""], Lower(value), [0]);
    } else {
      assert |Rewrite(text)| == |text|;
      PatternMeaning(text, Lower(value));
    }
  }

  /** What a search selects: names and logins by their words in order, emails by one contiguous piece. */
  lemma SelectsMeaning(q: Query, u: User)
    requires Plain(q.name) && Plain(q.login) && Plain(q.email)
    ensures Selects(SqlOf(q), u) <==>
              && !u.deleted && HasWords(q.name, u.name) && HasWords(q.login, u.login)
              && exists k :: SpeltAt(q.email, u.email, k)
  {
    WordsPattern(q.name, u.name);
    WordsPattern(q.login, u.login);
    PiecePattern(q.email, u.email);
  }

  lemma PiecePattern(text: string, value: string)
    requires Plain(text)
    ensures Fits(PatternOf(text), value) <==> exists k :: SpeltAt(text, value, k)
  {
    SubstringMeaning(text, Lower(value));
    forall k: int
      ensures At(text, Lower(value), k) <==> SpeltAt(text, value, k)
    {
      SpeltMeaning(text, value, k);
    }
    if text == "" {
      assert SpeltAt("", value, 0);
    }
  }

  predicate InSmallLetters(q: Query) {
    forall ch :: ch in CAPITALS ==> ch !in q.name && ch !in q.login && ch !in q.email
  }

  /** The text stands in the value, any of its letters written as capitals. */
  predicate InAnyCase(text: string, value: string, k: int) {
    && 0 <= k <= k + |text| <= |value|
    && forall i :: 0 <= i < |text| ==> value[k + i] == text[i] || IsCapitalOf(value[k + i], text[i])
  }

  lemma AnyCaseIsSpelt(text: string, value: string, k: int)
    requires InAnyCase(text, value, k) && forall ch :: ch in CAPITALS ==> ch !in text
    ensures SpeltAt(text, value, k)
  {
    forall i | 0 <= i < |text|
      ensures ShownAs(value[k + i], text[i])
    {
      assert text[i] in text;
    }
  }

  lemma AnyCaseFits(text: string, value: string, k: int)
    requires InAnyCase(text, value, k) && Plain(text) && forall ch :: ch in CAPITALS ==> ch !in text
    ensures Fits(PatternOf(Rewrite(text)), value) && Fits(PatternOf(text), value)
  {
    AnyCaseIsSpelt(text, value, k);
    SpeltMeaning(text, value, k);
    LiteralIsFound(text, Lower(value), k);
    PiecePattern(text, value);
    assert |Rewrite(text)| == |text|;
  }

  /** A query in small letters finds every undeleted row that holds its texts, whatever the case of the letters
      there. */
  lemma FoundInAnyCase(q: Query, u: User, name: int, login: int, email: int)
    requires Plain(q.name) && Plain(q.login) && Plain(q.email) && InSmallLetters(q) && !u.deleted
    requires InAnyCase(q.name, u.name, name) && InAnyCase(q.login, u.login, login) && InAnyCase(q.email, u.email, email)
    ensures Selects(SqlOf(q), u)
  {
    AnyCaseFits(q.name, u.name, name);
    AnyCaseFits(q.login, u.login, login);
    AnyCaseFits(q.email, u.email, email);
  }

  ghost predicate Answers(t: Table, sql: Sql, u: User) {
    u.id in t && Selects(sql, t[u.id]) && u == Public(t[u.id])
  }

  /** Each undeleted matching row is listed exactly once and nothing else is. */
  ghost predicate IsListing(rows: seq<User>, t: Table, sql: Sql) {
    forall u :: multiset(rows)[u] == if Answers(t, sql, u) then 1 else 0
  }

  predicate HasRole(roles: seq<RoleTable>, id: int, role: string)
    requires |roles| > 0
  {
    (id, role) in roles[ShardOf(id, |roles|)]
  }

  function WithRole(roles: seq<RoleTable>, id: int, role: string): seq<RoleTable>
    requires |roles| > 0
  {
    var k := ShardOf(id, |roles|);
    roles[k := roles[k] + {(id, role)}]
  }

  function WithoutRole(roles: seq<RoleTable>, id: int, role: string): seq<RoleTable>
    requires |roles| > 0
  {
    var k := ShardOf(id, |roles|);
    roles[k := roles[k] - {(id, role)}]
  }

  /** A pair sits only in the role table of its user's shard. */
  ghost predicate RolesPlaced(roles: seq<RoleTable>) {
    |roles| > 0 && forall k, p :: 0 <= k < |roles| && p in roles[k] ==> ShardOf(p.0, |roles|) == k
  }

  /** The one role table the shards stand for: the union of their pairs. */
  ghost function RolePairs(roles: seq<RoleTable>): RoleTable {
    set k, p | 0 <= k < |roles| && p in roles[k] :: p
  }

  lemma PairIsPlaced(roles: seq<RoleTable>, p: (int, string))
    requires RolesPlaced(roles)
    ensures p in RolePairs(roles) <==> p in roles[ShardOf(p.0, |roles|)]
  {
  }

  /** Checking, granting and revoking a role on the shard of the user are operations on the one role table. */
  lemma RolesRefine(roles: seq<RoleTable>, id: int, role: string)
    requires RolesPlaced(roles)
    ensures HasRole(roles, id, role) <==> (id, role) in RolePairs(roles)
    ensures RolesPlaced(WithRole(roles, id, role)) && RolesPlaced(WithoutRole(roles, id, role))
    ensures RolePairs(WithRole(roles, id, role)) == RolePairs(roles) + {(id, role)}
    ensures RolePairs(WithoutRole(roles, id, role)) == RolePairs(roles) - {(id, role)}
  {
    forall p
      ensures p in RolePairs(WithRole(roles, id, role)) <==> p in RolePairs(roles) + {(id, role)}
      ensures p in RolePairs(WithoutRole(roles, id, role)) <==> p in RolePairs(roles) - {(id, role)}
    {
      PairIsPlaced(roles, p);
      PairIsPlaced(WithRole(roles, id, role), p);
      PairIsPlaced(WithoutRole(roles, id, role), p);
    }
  }
}
