/** What every step keeps: where rows are, who owns which login, and that every user value is well formed. */
module Invariant {
  import opened Wrappers
  import opened Users
  import opened Decimal
  import opened Sharding
  import opened CacheModel
  import opened Repository
  import opened Validation
  import opened Edits
  import opened System
  import opened Frames

  /** No password survives the queue: only the set-up administrator can have one. */
  predicate PasswordOk(u: User) {
    u.password == "" || (u.password == ADMIN.password && u.login == ADMIN.login)
  }

  predicate Sound(u: User) {
    WellFormed(u) && PasswordOk(u)
  }

  /** A user value anywhere in the system agrees with the row of its id on the login,
      and on the email too when no edit changes emails. */
  ghost predicate UserOk(t: Table, u: User, em: bool) {
    && Sound(u)
    && (u.id > 0 ==> u.id in t && t[u.id].login == u.login && (em ==> t[u.id].email == u.email))
  }

  /** Rows stay, with their logins (and emails). */
  ghost predicate Grows(t: Table, t': Table, em: bool) {
    forall i :: i in t ==> i in t' && t'[i].login == t[i].login && (em ==> t'[i].email == t[i].email)
  }

  ghost predicate TableOk(t: Table, em: bool) {
    && (forall i :: i in t ==> i > 0 && t[i].id == i && Sound(t[i]))
    && LoginsUnique(t) && (em ==> EmailsUnique(t))
  }

  ghost predicate IdsOk(t: Table, nextId: int, consumer: Consumer) {
    && nextId > 0 && (forall i :: i in t ==> i < nextId)
    && (consumer.Numbered? ==> 0 < consumer.id < nextId && consumer.id !in t)
  }

  ghost predicate ObjectOk(t: Table, o: Object, em: bool) {
    FromObject(o).Some? && UserOk(t, FromObject(o).value, em)
  }

  /** An object lies under the id or the login of its user; lists decode throughout. */
  ghost predicate EntryOk(t: Table, key: string, j: Json, em: bool) {
    match j
    case Obj(o) =>
      && ObjectOk(t, o, em)
      && var u := FromObject(o).value; u.id > 0 && (key == ToString(u.id) || key == u.login)
    case Arr(items) => forall i :: 0 <= i < |items| ==> ObjectOk(t, items[i], em)
  }

  ghost predicate CacheOk(t: Table, es: Entries, em: bool) {
    forall key :: key in es ==> EntryOk(t, key, es[key].value, em)
  }

  ghost predicate LogOk(t: Table, log: seq<Json>, em: bool) {
    forall p :: 0 <= p < |log| ==> log[p].Obj? && ObjectOk(t, log[p].fields, em)
  }

  ghost predicate TasksOk(t: Table, tasks: map<nat, Task>, em: bool) {
    forall k :: k in tasks ==> tasks[k].user.id > 0 && UserOk(t, tasks[k].user, em)
  }

  ghost predicate RowsOk(t: Table, rows: seq<User>, em: bool) {
    forall i :: 0 <= i < |rows| ==> UserOk(t, rows[i], em)
  }

  ghost predicate ScansOk(t: Table, scans: map<nat, Scan>, em: bool) {
    forall k :: k in scans ==> RowsOk(t, scans[k].rows, em)
  }

  ghost predicate QueueOk(log: seq<Json>, committed: nat, consumer: Consumer) {
    && committed <= |log|
    && (!consumer.Down? ==> consumer.pos == committed && (!consumer.Idle? ==> committed < |log|))
  }

  /** Between the existence check and the insert nobody takes the login. */
  ghost predicate PendingOk(t: Table, log: seq<Json>, consumer: Consumer, em: bool) {
    (consumer.Absent? || consumer.Numbered?) && consumer.pos < |log| && FromJson(log[consumer.pos]).Some? ==>
      var u := FromJson(log[consumer.pos]).value;
      && u.id <= 0
      && forall i :: i in t ==> t[i].login != u.login && (em ==> t[i].email != u.email)
  }

  ghost predicate Shape(c: Config, s: State) {
    |s.shards| == c.maxShard + 1 && |s.roles| == c.maxShard + 1 && Placed(s.shards)
  }

  ghost predicate Inv(c: Config, s: State, em: bool) {
    && Shape(c, s)
    && TableOk(T(s), em)
    && IdsOk(T(s), s.nextId, s.consumer)
    && CacheOk(T(s), s.cache, em)
    && LogOk(T(s), s.log, em)
    && TasksOk(T(s), s.tasks, em)
    && ScansOk(T(s), s.scans, em)
    && QueueOk(s.log, s.committed, s.consumer)
    && PendingOk(T(s), s.log, s.consumer, em)
  }

  /** The part that holds whatever the sign-up bodies: placed rows under used ids, the consumer at the committed
      record. */
  ghost predicate Basics(c: Config, s: State) {
    Shape(c, s) && IdsOk(T(s), s.nextId, s.consumer) && QueueOk(s.log, s.committed, s.consumer)
  }

  /** The steps of runs whose edits leave emails alone. */
  ghost predicate KeepsEmail(e: Step) {
    match e
    case Edit(_, body, _) => Email !in body
    case EditFetched(_, _, body, _) => Email !in body
    case _ => true
  }

  lemma InitInv(c: Config, s: State, em: bool)
    requires Init(c, s)
    ensures Inv(c, s, em)
  {
    assert Placed(s.shards);
    assert T(s) == map[];
  }

  lemma CacheGrows(t: Table, t': Table, es: Entries, em: bool)
    requires CacheOk(t, es, em) && Grows(t, t', em)
    ensures CacheOk(t', es, em)
  {
    forall key | key in es
      ensures EntryOk(t', key, es[key].value, em)
    {
      assert EntryOk(t, key, es[key].value, em);
    }
  }

  lemma LogGrows(t: Table, t': Table, log: seq<Json>, em: bool)
    requires LogOk(t, log, em) && Grows(t, t', em)
    ensures LogOk(t', log, em)
  {
    forall p | 0 <= p < |log|
      ensures ObjectOk(t', log[p].fields, em)
    {
      assert ObjectOk(t, log[p].fields, em);
    }
  }

  lemma TasksGrow(t: Table, t': Table, tasks: map<nat, Task>, em: bool)
    requires TasksOk(t, tasks, em) && Grows(t, t', em)
    ensures TasksOk(t', tasks, em)
  {
  }

  lemma ScansGrow(t: Table, t': Table, scans: map<nat, Scan>, em: bool)
    requires ScansOk(t, scans, em) && Grows(t, t', em)
    ensures ScansOk(t', scans, em)
  {
    forall k | k in scans
      ensures RowsOk(t', scans[k].rows, em)
    {
      assert RowsOk(t, scans[k].rows, em);
    }
  }

  lemma UpdateTable(t: Table, u: User, em: bool)
    requires TableOk(t, em) && u.id > 0 && UserOk(t, u, em)
    ensures TableOk(t[u.id := u], em) && Grows(t, t[u.id := u], em)
  {
  }

  lemma InsertTable(t: Table, u: User, em: bool)
    requires TableOk(t, em) && u.id > 0 && Sound(u) && u.id !in t
    requires forall i :: i in t ==> t[i].login != u.login && (em ==> t[i].email != u.email)
    ensures TableOk(t[u.id := u], em) && Grows(t, t[u.id := u], em)
  {
  }

  /** A user put under its own keys keeps the cache in order. */
  lemma PutKeeps(t: Table, es: Entries, now: int, on: bool, key: string, u: User, em: bool)
    requires CacheOk(t, es, em) && UserOk(t, u, em) && u.id > 0
    requires key == ToString(u.id) || key == u.login
    ensures CacheOk(t, PutEntry(es, now, on, key, Obj(ToJsonWithPassword(u))), em)
  {
    DecodeWithPassword(u);
    var es' := PutEntry(es, now, on, key, Obj(ToJsonWithPassword(u)));
    forall k | k in es'
      ensures EntryOk(t, k, es'[k].value, em)
    {
      if k != key || !on {
        assert EntryOk(t, k, es[k].value, em);
      }
    }
  }

  lemma PutUserKeeps(t: Table, es: Entries, now: int, on: bool, u: User, em: bool)
    requires CacheOk(t, es, em) && UserOk(t, u, em) && u.id > 0
    ensures CacheOk(t, PutUser(es, now, on, u), em)
  {
    PutKeeps(t, es, now, on, ToString(u.id), u, em);
    PutKeeps(t, PutEntry(es, now, on, ToString(u.id), Obj(ToJsonWithPassword(u))), now, on, u.login, u, em);
  }

  /** A new cache in order is all that a read changes. */
  lemma CacheInv(c: Config, s: State, em: bool, es: Entries)
    requires Inv(c, s, em) && CacheOk(T(s), es, em)
    ensures Inv(c, s.(cache := es), em)
  {
  }

  /** What a cache lookup answers is a proper user or the empty one. */
  lemma CachedUserOk(t: Table, es: Entries, now: int, on: bool, key: string, em: bool)
    requires CacheOk(t, es, em)
    ensures
      var u := CachedUser(es, now, on, key);
      u.id > 0 ==>
        && UserOk(t, u, em) && (key == ToString(u.id) || key == u.login)
        && on && key in es && Live(es[key], now) && es[key].value.Obj? && FromObject(es[key].value.fields) == Some(u)
  {
    if key in es {
      assert EntryOk(t, key, es[key].value, em);
    }
  }

  lemma RowOk(c: Config, s: State, em: bool, id: int)
    requires Inv(c, s, em)
    ensures RowOf(s.shards, id).Some? ==>
              var u := RowOf(s.shards, id).value;
              u.id == id > 0 && id in T(s) && T(s)[id] == u && UserOk(T(s), u, em)
  {
    RowRefines(s.shards, id);
  }

  lemma RowFound(c: Config, s: State, id: int)
    requires Shape(c, s) && RowOf(s.shards, id).Some?
    ensures RowOf(s.shards, id).value.id == id > 0 && id in T(s) && T(s)[id] == RowOf(s.shards, id).value
  {
    assert RowPlaced(s.shards, ShardOf(id, |s.shards|), id);
    RowRefines(s.shards, id);
  }

  /** get_by_id keeps the invariant, answers a proper user or the empty one, and touches only the cache. */
  lemma ReadInv(c: Config, s: State, em: bool, on: bool, id: int)
    requires Inv(c, s, em)
    ensures Inv(c, Read(s, on, id), em)
    ensures Found(s, on, id).id > 0 ==> UserOk(T(s), Found(s, on, id), em)
  {
    CachedUserOk(T(s), s.cache, s.clock, on, ToString(id), em);
    RowOk(c, s, em, id);
    if CachedUser(s.cache, s.clock, on, ToString(id)).id <= 0 && RowOf(s.shards, id).Some? {
      PutUserKeeps(T(s), s.cache, s.clock, on, RowOf(s.shards, id).value, em);
    }
    CacheInv(c, s, em, Read(s, on, id).cache);
  }

  lemma AppendInv(c: Config, s: State, em: bool, u: User)
    requires Inv(c, s, em) && UserOk(T(s), Public(u), em)
    ensures Inv(c, s.(log := s.log + [Obj(ToJson(u))]), em)
  {
    DecodePlain(u);
    var log' := s.log + [Obj(ToJson(u))];
    forall p | 0 <= p < |log'|
      ensures log'[p].Obj? && ObjectOk(T(s), log'[p].fields, em)
    {
      if p < |s.log| {
        assert ObjectOk(T(s), s.log[p].fields, em);
      }
    }
  }

  lemma EditWithInv(c: Config, s: State, em: bool, u: User, requester: int, body: Object, sent: bool)
    requires Inv(c, s, em) && (u.id > 0 ==> UserOk(T(s), u, em))
    requires em ==> Email !in body
    ensures Inv(c, EditWith(s, u, requester, body, sent), em)
    ensures EditWith(s, u, requester, body, sent).shards == s.shards
  {
    var outcome := EditOutcome(u, requester, HasRole(s.roles, requester, "admin"), body);
    if outcome.Ok? {
      EditKeeps(u, requester, HasRole(s.roles, requester, "admin"), body);
      if sent {
        AppendInv(c, s, em, outcome.value);
      }
    }
  }

  /** Replacing the row of a proper user value keeps everything. */
  lemma UpdateInv(c: Config, s: State, em: bool, u: User, s': State)
    requires Inv(c, s, em) && u.id > 0 && UserOk(T(s), u, em)
    requires UpdateRow(s.shards, u).Some? && s' == s.(shards := UpdateRow(s.shards, u).value, consumer := s'.consumer)
    requires s'.consumer == s.consumer || (s'.consumer.Applied? && QueueOk(s.log, s.committed, s'.consumer))
    ensures Inv(c, s', em) && T(s') == T(s)[u.id := u] && Grows(T(s), T(s'), em)
  {
    UpdateRefines(s.shards, u);
    UpdateTable(T(s), u, em);
    CacheGrows(T(s), T(s'), s.cache, em);
    LogGrows(T(s), T(s'), s.log, em);
    TasksGrow(T(s), T(s'), s.tasks, em);
    ScansGrow(T(s), T(s'), s.scans, em);
    UpdatePending(T(s), u, s, em);
  }

  lemma UpdatePending(t: Table, u: User, s: State, em: bool)
    requires PendingOk(t, s.log, s.consumer, em) && u.id > 0 && UserOk(t, u, em)
    ensures PendingOk(t[u.id := u], s.log, s.consumer, em)
  {
  }

  lemma DeleteWithInv(c: Config, s: State, em: bool, u: User, requester: int)
    requires Inv(c, s, em) && (u.id > 0 ==> UserOk(T(s), u, em))
    ensures Inv(c, DeleteWith(s, u, requester), em)
    ensures Grows(T(s), T(DeleteWith(s, u, requester)), em)
  {
    if MayDelete(s, u, requester) && UpdateRow(s.shards, u.(deleted := true)).Some? {
      UpdateInv(c, s, em, u.(deleted := true), DeleteWith(s, u, requester));
    }
  }

  /** Inserting a new login under a fresh id keeps everything. */
  lemma InsertInv(c: Config, s: State, em: bool, u: User, s': State)
    requires Inv(c, s, em) && Sound(u) && 0 < u.id < s'.nextId && s.nextId <= s'.nextId && u.id !in T(s)
    requires forall i :: i in T(s) ==> T(s)[i].login != u.login && (em ==> T(s)[i].email != u.email)
    requires !s'.consumer.Absent? && !s'.consumer.Numbered? && QueueOk(s.log, s.committed, s'.consumer)
    requires InsertRow(s.shards, u).Some?
    requires s' == s.(shards := InsertRow(s.shards, u).value, consumer := s'.consumer, nextId := s'.nextId)
    ensures Inv(c, s', em) && T(s') == T(s)[u.id := Inserted(u)] && Grows(T(s), T(s'), em)
  {
    InsertRefines(s.shards, u);
    InsertTable(T(s), Inserted(u), em);
    CacheGrows(T(s), T(s'), s.cache, em);
    LogGrows(T(s), T(s'), s.log, em);
    TasksGrow(T(s), T(s'), s.tasks, em);
    ScansGrow(T(s), T(s'), s.scans, em);
  }

  lemma SignUpInv(c: Config, s: State, em: bool, e: Step)
    requires Inv(c, s, em) && e.SignUp? && Enabled(c, s, e)
    ensures Inv(c, Next(c, s, e), em) && Next(c, s, e).shards == s.shards
  {
    if Next(c, s, e) != s {
      AppendInv(c, s, em, FromJson(e.body).value);
    }
  }

  lemma RePutInv(c: Config, s: State, em: bool, answer: int)
    requires Inv(c, s, em) && answer in T(s)
    ensures Inv(c, s.(cache := AuthCache(s.shards, s.cache, s.clock, true, answer)), em)
  {
    RowRefines(s.shards, answer);
    ReadInv(c, s, em, true, answer);
    PutUserKeeps(T(s), Read(s, true, answer).cache, s.clock, true, Found(s, true, answer), em);
    CacheInv(c, s, em, AuthCache(s.shards, s.cache, s.clock, true, answer));
  }

  lemma SignInInv(c: Config, s: State, em: bool, e: Step)
    requires Inv(c, s, em) && e.SignIn? && Enabled(c, s, e)
    ensures Inv(c, Next(c, s, e), em) && Next(c, s, e).shards == s.shards
  {
    if !SignInByCache(c, s, e.login, e.password) && e.answer > 0 && c.authCache {
      RePutInv(c, s, em, e.answer);
    }
  }

  lemma ListRowsOk(t: Table, es: Entries, now: int, on: bool, key: string, rows: seq<User>, sql: Sql, em: bool)
    requires TableOk(t, em) && CacheOk(t, es, em) && IsListing(rows, t, sql)
    ensures CachedRows(es, now, on, key) == [] || ListHit(es, now, on, key)
    ensures RowsOk(t, rows, em)
  {
    if key in es {
      assert EntryOk(t, key, es[key].value, em);
    }
    forall i | 0 <= i < |rows|
      ensures UserOk(t, rows[i], em)
    {
      assert multiset(rows)[rows[i]] > 0;
      assert Answers(t, sql, rows[i]);
    }
  }

  lemma PutListKeeps(t: Table, es: Entries, now: int, on: bool, q: Query, rows: seq<User>, em: bool)
    requires CacheOk(t, es, em) && RowsOk(t, rows, em)
    ensures CacheOk(t, PutList(es, now, on, q, rows), em)
  {
    var es' := PutList(es, now, on, q, rows);
    forall key | key in es'
      ensures EntryOk(t, key, es'[key].value, em)
    {
      if on && key == SearchKey(q) {
        forall i | 0 <= i < |rows|
          ensures ObjectOk(t, Encoded(rows)[i], em)
        {
          DecodePlain(rows[i]);
        }
      } else {
        assert EntryOk(t, key, es[key].value, em);
      }
    }
  }

  lemma SearchInv(c: Config, s: State, em: bool, e: Step)
    requires Inv(c, s, em) && e.Search? && Enabled(c, s, e)
    ensures Inv(c, Next(c, s, e), em) && Next(c, s, e).shards == s.shards
  {
    var key := SearchKey(e.like);
    if !ListHit(s.cache, s.clock, c.userCache, key) {
      ListRowsOk(T(s), s.cache, s.clock, c.userCache, key, e.rows, SqlOf(e.like), em);
      assert [] + e.rows == e.rows;
      PutListKeeps(T(s), s.cache, s.clock, c.userCache, RewriteQuery(e.like), e.rows, em);
    }
  }

  /** What a shard lists is proper in the logical table. */
  lemma ShardRowsOk(sh: seq<Table>, k: nat, rows: seq<User>, sql: Sql, em: bool)
    requires Placed(sh) && k < |sh| && TableOk(Logical(sh), em) && IsListing(rows, sh[k], sql)
    ensures RowsOk(Logical(sh), rows, em)
  {
    forall i | 0 <= i < |rows|
      ensures UserOk(Logical(sh), rows[i], em)
    {
      assert multiset(rows)[rows[i]] > 0;
      assert Answers(sh[k], sql, rows[i]);
      LogicalIsUnion(sh, k, rows[i].id);
    }
  }

  lemma ScanWrittenInv(c: Config, s: State, em: bool, task: nat, x: Scan)
    requires Inv(c, s, em) && RowsOk(T(s), x.rows, em)
    ensures Inv(c, s.(scans := s.scans[task := x]), em)
  {
    var scans' := s.scans[task := x];
    forall k | k in scans'
      ensures RowsOk(T(s), scans'[k].rows, em)
    {
      assert k != task ==> RowsOk(T(s), s.scans[k].rows, em);
    }
  }

  lemma StartSearchInv(c: Config, s: State, em: bool, task: nat, like: Query)
    requires Inv(c, s, em) && Enabled(c, s, StartSearch(task, like))
    ensures
      var x := Scan(like, [], 0);
      && Next(c, s, StartSearch(task, like)) == s.(scans := s.scans[task := x])
      && Inv(c, s.(scans := s.scans[task := x]), em)
  {
    NoRowsLeft(T(s), s.cache, s.clock, c.userCache, SearchKey(like), em);
    ScanWrittenInv(c, s, em, task, Scan(like, [], 0));
  }

  /** A miss leaves no rows of the cached list behind. */
  lemma NoRowsLeft(t: Table, es: Entries, now: int, on: bool, key: string, em: bool)
    requires CacheOk(t, es, em) && !ListHit(es, now, on, key)
    ensures CachedRows(es, now, on, key) == []
  {
    if key in es {
      assert EntryOk(t, key, es[key].value, em);
    }
  }

  lemma SelectShardInv(c: Config, s: State, em: bool, task: nat, rows: seq<User>)
    requires Inv(c, s, em) && Enabled(c, s, SelectShard(task, rows))
    ensures Inv(c, SelectFor(s, task, rows), em)
  {
    var x := s.scans[task];
    ShardRowsOk(s.shards, x.next, rows, SqlOf(x.like), em);
    assert RowsOk(T(s), x.rows, em);
    ScanWrittenInv(c, s, em, task, x.(rows := x.rows + rows, next := x.next + 1));
  }

  lemma SaveSearchInv(c: Config, s: State, em: bool, task: nat)
    requires Inv(c, s, em) && Enabled(c, s, SaveSearch(task))
    ensures Inv(c, SaveScan(c, s, task), em)
  {
    var x := s.scans[task];
    assert RowsOk(T(s), x.rows, em);
    PutListKeeps(T(s), s.cache, s.clock, c.userCache, RewriteQuery(x.like), x.rows, em);
  }

  lemma ScanStepInv(c: Config, s: State, em: bool, e: Step)
    requires Inv(c, s, em) && Enabled(c, s, e) && IsScanStep(e)
    ensures Inv(c, Next(c, s, e), em) && Next(c, s, e).shards == s.shards
  {
    if e.StartSearch? {
      StartSearchInv(c, s, em, e.task, e.like);
    } else if e.SelectShard? {
      SelectShardInv(c, s, em, e.task, e.rows);
    } else {
      SaveSearchInv(c, s, em, e.task);
    }
  }

  lemma FetchInv(c: Config, s: State, em: bool, e: Step)
    requires Inv(c, s, em) && e.Fetch? && Enabled(c, s, e)
    ensures Inv(c, Next(c, s, e), em) && Next(c, s, e).shards == s.shards
  {
    ReadInv(c, s, em, On(c, e.caller), e.id);
  }

  lemma TaskPutInv(c: Config, s: State, em: bool, task: nat, es: Entries)
    requires Inv(c, s, em) && task in s.tasks && CacheOk(T(s), es, em)
    ensures Inv(c, s.(cache := es, tasks := s.tasks[task := s.tasks[task].AfterPut()]), em)
  {
    var s1 := s.(tasks := s.tasks[task := s.tasks[task].AfterPut()]);
    TaskMovedInv(c, s, em, task);
    CacheInv(c, s1, em, es);
  }

  lemma TaskMovedInv(c: Config, s: State, em: bool, task: nat)
    requires Inv(c, s, em) && task in s.tasks
    ensures Inv(c, s.(tasks := s.tasks[task := s.tasks[task].AfterPut()]), em)
  {
    assert s.tasks[task].AfterPut().user == s.tasks[task].user;
  }

  lemma PutInv(c: Config, s: State, em: bool, task: nat)
    requires Inv(c, s, em) && Enabled(c, s, Put(task))
    ensures Inv(c, PutTask(s, task), em) && PutTask(s, task).shards == s.shards
  {
    var x := s.tasks[task];
    PutKeeps(T(s), s.cache, s.clock, true, x.Key(), x.user, em);
    TaskPutInv(c, s, em, task, PutTask(s, task).cache);
  }

  lemma GetInv(c: Config, s: State, em: bool, e: Step)
    requires Inv(c, s, em) && (e.Validate? || e.Get?) && Enabled(c, s, e)
    ensures Inv(c, Next(c, s, e), em) && Next(c, s, e).shards == s.shards
  {
    match e
    case Validate(token) =>
      if token.Signed? {
        ReadInv(c, s, em, c.authCache, token.id);
      }
    case Get(id) => ReadInv(c, s, em, c.userCache, id);
  }

  lemma ApplyUpdateInv(c: Config, s: State, em: bool, u: User)
    requires Inv(c, s, em) && Enabled(c, s, Apply) && FromJson(s.log[s.consumer.pos]) == Some(u) && u.id > 0
    requires UserOk(T(s), u, em)
    ensures Inv(c, ApplyPolled(s), em) && Grows(T(s), T(ApplyPolled(s)), em)
  {
    if UpdateRow(s.shards, u).Some? {
      UpdateInv(c, s, em, u, ApplyPolled(s));
    }
  }

  lemma NoSuchRow(t: Table, login: string, email: string)
    requires !ExistsIn(t, login, email)
    ensures forall i :: i in t ==> t[i].login != login && t[i].email != email
  {
    forall i | i in t
      ensures t[i].login != login && t[i].email != email
    {
      assert !SameLoginOrEmail(t[i], login, email);
    }
  }

  /** The check found nothing: the create may go on. */
  lemma AbsentInv(c: Config, s: State, em: bool, u: User)
    requires Inv(c, s, em) && s.consumer.Polled? && s.consumer.pos < |s.log|
    requires FromJson(s.log[s.consumer.pos]) == Some(u) && u.id <= 0 && !ExistsIn(T(s), u.login, u.email)
    ensures Inv(c, s.(consumer := Absent(s.consumer.pos)), em)
  {
    NoSuchRow(T(s), u.login, u.email);
  }

  lemma KnownInv(c: Config, s: State, em: bool)
    requires Inv(c, s, em) && s.consumer.Polled?
    ensures Inv(c, s.(consumer := Applied(s.consumer.pos)), em)
  {
  }

  lemma ApplyCreateInv(c: Config, s: State, em: bool, u: User)
    requires Inv(c, s, em) && Enabled(c, s, Apply) && FromJson(s.log[s.consumer.pos]) == Some(u) && u.id <= 0
    ensures Inv(c, ApplyPolled(s), em) && Grows(T(s), T(ApplyPolled(s)), em)
  {
    if ExistsIn(T(s), u.login, u.email) {
      KnownInv(c, s, em);
    } else {
      AbsentInv(c, s, em, u);
    }
  }

  lemma ApplyInv(c: Config, s: State, em: bool)
    requires Inv(c, s, em) && Enabled(c, s, Apply)
    ensures Inv(c, ApplyPolled(s), em) && Grows(T(s), T(ApplyPolled(s)), em)
  {
    assert ObjectOk(T(s), s.log[s.consumer.pos].fields, em);
    var u := FromJson(s.log[s.consumer.pos]).value;
    if u.id > 0 {
      ApplyUpdateInv(c, s, em, u);
    } else {
      ApplyCreateInv(c, s, em, u);
    }
  }

  lemma InsertNumberedInv(c: Config, s: State, em: bool)
    requires Inv(c, s, em) && Enabled(c, s, Insert)
    ensures Inv(c, InsertNumbered(s), em) && Grows(T(s), T(InsertNumbered(s)), em)
  {
    assert ObjectOk(T(s), s.log[s.consumer.pos].fields, em);
    var u := FromJson(s.log[s.consumer.pos]).value.(id := s.consumer.id);
    if InsertRow(s.shards, u).Some? {
      InsertInv(c, s, em, u, InsertNumbered(s));
    }
  }

  lemma AdminSound()
    ensures Sound(ADMIN)
  {
    assert ADMIN.email[5] == '@';
  }

  lemma SetUpInserts(c: Config, s: State, em: bool, s': State)
    requires Inv(c, s, em) && !s.consumer.Absent? && !s.consumer.Numbered?
    requires !ExistsIn(T(s), ADMIN.login, ADMIN.email) && InsertRow(s.shards, ADMIN.(id := s.nextId)).Some?
    requires s' == s.(shards := InsertRow(s.shards, ADMIN.(id := s.nextId)).value, nextId := s.nextId + 1)
    ensures Inv(c, s', em) && Grows(T(s), T(s'), em)
  {
    AdminSound();
    NoSuchRow(T(s), ADMIN.login, ADMIN.email);
    InsertInv(c, s, em, ADMIN.(id := s.nextId), s');
  }

  lemma LostIdInv(c: Config, s: State, em: bool)
    requires Inv(c, s, em)
    ensures Inv(c, s.(nextId := s.nextId + 1), em)
  {
  }

  /** Nothing, a lost id, or a new administrator. */
  ghost predicate SetUpCase(s: State, s': State) {
    || s' == s || s' == s.(nextId := s.nextId + 1)
    || (&& HasShards(s) && !ExistsIn(T(s), ADMIN.login, ADMIN.email)
        && InsertRow(s.shards, ADMIN.(id := s.nextId)).Some?
        && s' == s.(shards := InsertRow(s.shards, ADMIN.(id := s.nextId)).value, nextId := s.nextId + 1))
  }

  lemma SetUpCaseInv(c: Config, s: State, em: bool, s': State)
    requires Inv(c, s, em) && !s.consumer.Absent? && !s.consumer.Numbered? && SetUpCase(s, s')
    ensures Inv(c, s', em) && Grows(T(s), T(s'), em)
  {
    if s' != s {
      if s' == s.(nextId := s.nextId + 1) {
        LostIdInv(c, s, em);
      } else {
        SetUpInserts(c, s, em, s');
      }
    }
  }

  lemma SetUpCases(s: State)
    requires HasShards(s)
    ensures SetUpCase(s, SetUpAdmin(s))
  {
  }

  /** The consumer moves without touching a row. */
  lemma ConsumerMoves(c: Config, s: State, em: bool, consumer: Consumer, committed: nat)
    requires Inv(c, s, em) && QueueOk(s.log, committed, consumer)
    requires consumer.Down? || consumer.Idle? || consumer.Polled?
    ensures Inv(c, s.(consumer := consumer, committed := committed), em)
  {
  }

  lemma TakeIdInv(c: Config, s: State, em: bool)
    requires Inv(c, s, em) && Enabled(c, s, TakeId)
    ensures Inv(c, Next(c, s, TakeId), em)
  {
  }

  lemma CommitInv(c: Config, s: State, em: bool)
    requires Inv(c, s, em) && s.consumer.Applied?
    ensures Inv(c, s.(consumer := Idle(s.consumer.pos + 1), committed := s.consumer.pos + 1), em)
  {
    ConsumerMoves(c, s, em, Idle(s.consumer.pos + 1), s.consumer.pos + 1);
  }

  lemma MoveInv(c: Config, s: State, em: bool, e: Step, s': State)
    requires Inv(c, s, em) && Does(c, s, e, s') && (e.Start? || e.Poll? || e.Crash?)
    ensures Inv(c, s', em) && s'.shards == s.shards
  {
    ConsumerMoves(c, s, em, s'.consumer, s.committed);
    assert s' == s.(consumer := s'.consumer, committed := s.committed);
  }

  lemma PositionInv(c: Config, s: State, em: bool, e: Step)
    requires Inv(c, s, em) && Enabled(c, s, e) && (e.Start? || e.Poll? || e.TakeId? || e.Commit? || e.Crash?)
    ensures Inv(c, Next(c, s, e), em) && Next(c, s, e).shards == s.shards
  {
    if e.TakeId? {
      TakeIdInv(c, s, em);
    } else if e.Commit? {
      CommitInv(c, s, em);
    } else {
      MoveInv(c, s, em, e, Next(c, s, e));
    }
  }

  predicate IsReadStep(e: Step) {
    e.SignUp? || e.SignIn? || e.Validate? || e.Get? || e.Search? || e.Fetch? || e.Put?
  }

  lemma ReadStepInv(c: Config, s: State, em: bool, e: Step)
    requires Inv(c, s, em) && Enabled(c, s, e) && IsReadStep(e)
    ensures Inv(c, Next(c, s, e), em) && Next(c, s, e).shards == s.shards
  {
    if e.SignUp? {
      SignUpInv(c, s, em, e);
    } else if e.SignIn? {
      SignInInv(c, s, em, e);
    } else if e.Search? {
      SearchInv(c, s, em, e);
    } else if e.Fetch? {
      FetchInv(c, s, em, e);
    } else if e.Put? {
      PutInv(c, s, em, e.task);
    } else {
      GetInv(c, s, em, e);
    }
  }

  lemma DropTaskInv(c: Config, s: State, em: bool, task: nat)
    requires Inv(c, s, em)
    ensures Inv(c, s.(tasks := s.tasks - {task}), em)
  {
  }

  lemma EditAskedInv(c: Config, s: State, em: bool, requester: int, body: Object, sent: bool)
    requires Inv(c, s, em) && (em ==> Email !in body)
    ensures Inv(c, EditAsked(c, s, requester, body, sent), em)
    ensures EditAsked(c, s, requester, body, sent).shards == s.shards
  {
    if Id in body && body[Id].Num? {
      var id := body[Id].n;
      ReadInv(c, s, em, c.userCache, id);
      EditWithInv(c, Read(s, c.userCache, id), em, Found(s, c.userCache, id), requester, body, sent);
    }
  }

  lemma EditFetchedInv(c: Config, s: State, em: bool, task: nat, requester: int, body: Object, sent: bool)
    requires Inv(c, s, em) && task in s.tasks && (em ==> Email !in body)
    ensures
      var s' := EditWith(s.(tasks := s.tasks - {task}), s.tasks[task].user, requester, body, sent);
      Inv(c, s', em) && s'.shards == s.shards
  {
    DropTaskInv(c, s, em, task);
    EditWithInv(c, s.(tasks := s.tasks - {task}), em, s.tasks[task].user, requester, body, sent);
  }

  lemma EditInv(c: Config, s: State, em: bool, e: Step)
    requires Inv(c, s, em) && Enabled(c, s, e) && (e.Edit? || e.EditFetched?) && (em ==> KeepsEmail(e))
    ensures Inv(c, Next(c, s, e), em) && Next(c, s, e).shards == s.shards
  {
    if e.Edit? {
      EditAskedInv(c, s, em, e.requester, e.changes, e.sent);
    } else {
      EditFetchedInv(c, s, em, e.task, e.requester, e.changes, e.sent);
    }
  }

  lemma DeleteAskedInv(c: Config, s: State, em: bool, requester: int, id: int)
    requires Inv(c, s, em)
    ensures
      var s' := DeleteWith(Read(s, c.userCache, id), Found(s, c.userCache, id), requester);
      Inv(c, s', em) && Grows(T(s), T(s'), em)
  {
    ReadInv(c, s, em, c.userCache, id);
    DeleteWithInv(c, Read(s, c.userCache, id), em, Found(s, c.userCache, id), requester);
  }

  lemma DeleteFetchedInv(c: Config, s: State, em: bool, task: nat, requester: int)
    requires Inv(c, s, em) && task in s.tasks
    ensures
      var s' := DeleteWith(s.(tasks := s.tasks - {task}), s.tasks[task].user, requester);
      Inv(c, s', em) && Grows(T(s), T(s'), em)
  {
    DropTaskInv(c, s, em, task);
    DeleteWithInv(c, s.(tasks := s.tasks - {task}), em, s.tasks[task].user, requester);
  }

  lemma DeleteInv(c: Config, s: State, em: bool, e: Step)
    requires Inv(c, s, em) && Enabled(c, s, e) && (e.Delete? || e.DeleteFetched?)
    ensures Inv(c, Next(c, s, e), em) && Grows(T(s), T(Next(c, s, e)), em)
  {
    if e.Delete? {
      DeleteAskedInv(c, s, em, e.requester, e.id);
    } else {
      DeleteFetchedInv(c, s, em, e.task, e.requester);
    }
  }

  lemma ConsumerWriteInv(c: Config, s: State, em: bool, e: Step)
    requires Inv(c, s, em) && Enabled(c, s, e) && (e.Apply? || e.Insert?)
    ensures Inv(c, Next(c, s, e), em) && Grows(T(s), T(Next(c, s, e)), em)
  {
    if e.Apply? {
      ApplyInv(c, s, em);
    } else {
      InsertNumberedInv(c, s, em);
    }
  }

  lemma DirectWriteInv(c: Config, s: State, em: bool, e: Step, s': State)
    requires Inv(c, s, em) && Does(c, s, e, s') && (e.SetUp? || e.Delete? || e.DeleteFetched?)
    ensures Inv(c, s', em) && Grows(T(s), T(s'), em)
  {
    if e.SetUp? {
      SetUpCases(s);
      SetUpCaseInv(c, s, em, s');
    } else {
      DeleteInv(c, s, em, e);
    }
  }

  lemma OtherRolesInv(c: Config, s: State, em: bool, roles: seq<RoleTable>)
    requires Inv(c, s, em) && |roles| == |s.roles|
    ensures Inv(c, s.(roles := roles), em)
  {
  }

  lemma RolesNext(c: Config, s: State, e: Step)
    requires Enabled(c, s, e) && (e.Grant? || e.Revoke?)
    ensures Next(c, s, e) == s.(roles := if e.Grant? then WithRole(s.roles, e.id, e.role)
                                         else WithoutRole(s.roles, e.id, e.role))
  {
  }

  lemma RolesInv(c: Config, s: State, em: bool, e: Step)
    requires Inv(c, s, em) && Enabled(c, s, e) && (e.Grant? || e.Revoke?)
    ensures Inv(c, Next(c, s, e), em) && Next(c, s, e).shards == s.shards
  {
    RolesNext(c, s, e);
    if e.Grant? {
      OtherRolesInv(c, s, em, WithRole(s.roles, e.id, e.role));
    } else {
      OtherRolesInv(c, s, em, WithoutRole(s.roles, e.id, e.role));
    }
  }

  lemma LaterInv(c: Config, s: State, em: bool, d: nat)
    requires Inv(c, s, em)
    ensures Inv(c, s.(clock := s.clock + d), em)
  {
  }

  lemma TickNext(c: Config, s: State, e: Step)
    requires Enabled(c, s, e) && (e.LoseId? || e.Tick?)
    ensures Next(c, s, e) == if e.Tick? then s.(clock := s.clock + e.d) else s.(nextId := s.nextId + 1)
  {
  }

  lemma TickInv(c: Config, s: State, em: bool, e: Step)
    requires Inv(c, s, em) && Enabled(c, s, e) && (e.LoseId? || e.Tick?)
    ensures Inv(c, Next(c, s, e), em) && Next(c, s, e).shards == s.shards
  {
    TickNext(c, s, e);
    if e.LoseId? {
      LostIdInv(c, s, em);
    } else {
      LaterInv(c, s, em, e.d);
    }
  }

  /** Finishing, granting, revoking, losing an id, and the passing of time. */
  lemma PlainStepInv(c: Config, s: State, em: bool, e: Step)
    requires Inv(c, s, em) && Enabled(c, s, e) && (e.Finish? || e.Grant? || e.Revoke? || e.LoseId? || e.Tick?)
    ensures Inv(c, Next(c, s, e), em) && Next(c, s, e).shards == s.shards
  {
    if e.Finish? {
      DropTaskInv(c, s, em, e.task);
    } else if e.Grant? || e.Revoke? {
      RolesInv(c, s, em, e);
    } else {
      TickInv(c, s, em, e);
    }
  }

  /** One step, whichever it is, keeps the invariant, every row and every login. */
  lemma NextInv(c: Config, s: State, em: bool, e: Step)
    requires Inv(c, s, em) && Enabled(c, s, e) && (em ==> KeepsEmail(e))
    ensures Inv(c, Next(c, s, e), em) && Grows(T(s), T(Next(c, s, e)), em)
  {
    if e.Apply? || e.Insert? {
      ConsumerWriteInv(c, s, em, e);
    } else if e.SetUp? || e.Delete? || e.DeleteFetched? {
      DirectWriteInv(c, s, em, e, Next(c, s, e));
    } else if IsReadStep(e) {
      ReadStepInv(c, s, em, e);
    } else if IsScanStep(e) {
      ScanStepInv(c, s, em, e);
    } else if e.Edit? || e.EditFetched? {
      EditInv(c, s, em, e);
    } else if e.Start? || e.Poll? || e.TakeId? || e.Commit? || e.Crash? {
      PositionInv(c, s, em, e);
    } else {
      PlainStepInv(c, s, em, e);
    }
  }

  lemma GrowsTransitive(a: Table, b: Table, d: Table, em: bool)
    requires Grows(a, b, em) && Grows(b, d, em)
    ensures Grows(a, d, em)
  {
  }

  /** Every state of every run satisfies the invariant; with permanent emails if no edit changes one. */
  lemma {:induction false} RunInv(c: Config, run: seq<State>, steps: seq<Step>, k: nat, em: bool)
    requires IsRun(c, run, steps) && k < |run|
    requires em ==> forall i :: 0 <= i < |steps| ==> KeepsEmail(steps[i])
    ensures Inv(c, run[k], em)
  {
    if k == 0 {
      InitInv(c, run[0], em);
    } else {
      RunInv(c, run, steps, k - 1, em);
      assert StepAt(c, run, steps, k - 1);
      NextInv(c, run[k - 1], em, steps[k - 1]);
    }
  }

  lemma RunStepGrows(c: Config, run: seq<State>, steps: seq<Step>, k: nat, em: bool)
    requires IsRun(c, run, steps) && k < |steps|
    requires em ==> forall i :: 0 <= i < |steps| ==> KeepsEmail(steps[i])
    ensures Shape(c, run[k]) && Shape(c, run[k + 1]) && Grows(T(run[k]), T(run[k + 1]), em)
  {
    RunInv(c, run, steps, k, em);
    assert StepAt(c, run, steps, k);
    NextInv(c, run[k], em, steps[k]);
  }

  /** Rows and logins of an earlier state are still there in a later one. */
  lemma {:induction false} RunGrows(c: Config, run: seq<State>, steps: seq<Step>, j: nat, k: nat, em: bool)
    requires IsRun(c, run, steps) && j <= k < |run|
    requires em ==> forall i :: 0 <= i < |steps| ==> KeepsEmail(steps[i])
    ensures Shape(c, run[j]) && Shape(c, run[k]) && Grows(T(run[j]), T(run[k]), em)
    decreases k
  {
    if j == k {
      RunInv(c, run, steps, j, em);
    } else {
      RunGrows(c, run, steps, j, k - 1, em);
      RunStepGrows(c, run, steps, k - 1, em);
      GrowsTransitive(T(run[j]), T(run[k - 1]), T(run[k]), em);
    }
  }

  /** The invariant before a step of a run, and the step. */
  lemma RunNext(c: Config, run: seq<State>, steps: seq<Step>, k: nat)
    requires IsRun(c, run, steps) && k < |steps|
    ensures Inv(c, run[k], false) && Enabled(c, run[k], steps[k]) && run[k + 1] == Next(c, run[k], steps[k])
  {
    RunInv(c, run, steps, k, false);
    assert StepAt(c, run, steps, k);
  }

  lemma ReachableInv(c: Config, s: State)
    requires Reachable(c, s)
    ensures Inv(c, s, false)
  {
    var run, steps :| RunTo(c, run, steps, s);
    RunInv(c, run, steps, |steps|, false);
  }
}
