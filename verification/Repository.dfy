/** The user entity's reads, through the cache and the shards. */
module Repository {
  import opened Wrappers
  import opened Users
  import opened Decimal
  import opened Sharding
  import opened CacheModel
  import opened DatabaseModel

  /** The cache after auth found a row: the user that get_by_id answers is saved once more. */
  function AuthCache(sh: seq<Table>, es: Entries, now: int, on: bool, id: int): Entries
    requires |sh| > 0
  {
    if id > 0 && on then PutUser(FoundCache(sh, es, now, on, id), now, on, FoundUser(sh, es, now, on, id)) else es
  }

  /** The rows fetched from one shard once the ids outside todo are done. */
  ghost predicate Fetched(rows: seq<User>, shard: Table, sql: Sql, todo: set<int>) {
    forall u :: multiset(rows)[u] == if Answers(shard, sql, u) && u.id !in todo then 1 else 0
  }

  lemma FetchOneMore(rows: seq<User>, shard: Table, sql: Sql, todo: set<int>, id: int)
    requires id in todo && id in shard && shard[id].id == id && Selects(sql, shard[id])
    requires Fetched(rows, shard, sql, todo)
    ensures Fetched(rows + [Public(shard[id])], shard, sql, todo - {id})
  {
    var x := Public(shard[id]);
    assert Answers(shard, sql, x);
    forall u
      ensures multiset(rows + [x])[u] == multiset(rows)[u] + if u == x then 1 else 0
    {
    }
  }

  /** Between two shards the list is complete up to the shard about to be read. */
  ghost predicate ListedBefore(rows: seq<User>, sh: seq<Table>, sql: Sql, k: nat)
    requires |sh| > 0
  {
    forall u :: multiset(rows)[u] == if Answers(Logical(sh), sql, u) && ShardOf(u.id, |sh|) < k then 1 else 0
  }

  lemma ListOneShard(rows: seq<User>, more: seq<User>, sh: seq<Table>, sql: Sql, k: nat)
    requires Placed(sh) && k < |sh|
    requires ListedBefore(rows, sh, sql, k) && IsListing(more, sh[k], sql)
    ensures ListedBefore(rows + more, sh, sql, k + 1)
  {
    forall u
      ensures multiset(rows + more)[u] == multiset(rows)[u] + multiset(more)[u]
      ensures Answers(sh[k], sql, u) <==> Answers(Logical(sh), sql, u) && ShardOf(u.id, |sh|) == k
    {
      LogicalIsUnion(sh, k, u.id);
    }
  }

  lemma AllShardsListed(rows: seq<User>, sh: seq<Table>, sql: Sql)
    requires |sh| > 0 && ListedBefore(rows, sh, sql, |sh|)
    ensures IsListing(rows, Logical(sh), sql)
  {
  }

  method SaveToCache(cache: Cache, u: User)
    modifies cache`entries
    ensures cache.entries == PutUser(old(cache.entries), cache.now, cache.enabled, u)
  {
    var obj := Obj(ToJsonWithPassword(u));
    cache.Put(ToString(u.id), obj);
    cache.Put(u.login, obj);
  }

  /** Both cache lookups of a user, by id text or by login. */
  method GetFromCache(cache: Cache, key: string) returns (u: User)
    ensures u == CachedUser(cache.entries, cache.now, cache.enabled, key)
  {
    var found, value := cache.Get(key, Arr([]));
    if found {
      match FromJson(value)
      case Some(user) =>
        u := user;
      case None =>
        u := EMPTY;
    } else {
      u := EMPTY;
    }
  }

  method SelectById(db: Database, id: int) returns (row: Option<User>)
    requires db.Valid()
    ensures row == RowOf(db.shards, id)
  {
    RouteHint(ShardOf(id, |db.shards|));
    var rows := db.Target(ShardingHint(id, db.maxShard));
    row := if id in rows then Some(rows[id]) else None;
  }

  method GetById(db: Database, cache: Cache, id: int) returns (u: User)
    requires db.Valid()
    modifies cache`entries
    ensures u == FoundUser(db.shards, old(cache.entries), cache.now, cache.enabled, id)
    ensures cache.entries == FoundCache(db.shards, old(cache.entries), cache.now, cache.enabled, id)
  {
    u := GetFromCache(cache, ToString(id));
    if u.id > 0 {
      return;
    }
    var row := SelectById(db, id);
    match row
    case Some(user) =>
      SaveToCache(cache, user);
      u := user;
    case None =>
      u := EMPTY;
  }

  method Auth(db: Database, cache: Cache, login: string, password: string) returns (id: int)
    requires db.Valid()
    modifies cache`entries
    ensures id >= 0
    ensures
      var cached := CachedUser(old(cache.entries), cache.now, cache.enabled, login);
      if cached.id > 0 && cached.password == password then
        id == cached.id && cache.entries == old(cache.entries)
      else
        && IsAuthAnswer(Logical(db.shards), login, password, id)
        && cache.entries == AuthCache(db.shards, old(cache.entries), cache.now, cache.enabled, id)
  {
    var cached := GetFromCache(cache, login);
    if cached.id > 0 {
      if cached.password == password {
        return cached.id;
      }
    }
    id := db.FindCredentials(login, password);
    if id != 0 {
      RowRefines(db.shards, id);
      assert RowPlaced(db.shards, ShardOf(id, |db.shards|), id);
      if cache.enabled {
        var user := GetById(db, cache, id);
        SaveToCache(cache, user);
      }
    }
  }

  /** The decoding loop: the rows before the first entry that throws. */
  method DecodeRows(items: seq<Object>, rows0: seq<User>) returns (complete: bool, rows: seq<User>)
    ensures complete <==> |DecodedPrefix(items)| == |items|
    ensures rows == rows0 + DecodedPrefix(items)
  {
    rows := rows0;
    ghost var done := [];
    var i := 0;
    while i < |items|
      invariant 0 <= i <= |items| && |done| == i
      invariant rows == rows0 + done
      invariant done + DecodedFrom(items, i) == DecodedPrefix(items)
    {
      match FromObject(items[i])
      case None =>
        return false, rows;
      case Some(u) =>
        DoneOneMore(items, i, done, u);
        rows, done := rows + [u], done + [u];
      i := i + 1;
    }
    return true, rows;
  }

  lemma DoneOneMore(items: seq<Object>, i: nat, done: seq<User>, u: User)
    requires i < |items| && FromObject(items[i]) == Some(u)
    ensures done + DecodedFrom(items, i) == (done + [u]) + DecodedFrom(items, i + 1)
  {
  }

  method SearchByCache(cache: Cache, like: Query, rows0: seq<User>) returns (hit: bool, rows: seq<User>)
    ensures hit <==> ListHit(cache.entries, cache.now, cache.enabled, SearchKey(like))
    ensures rows == rows0 + CachedRows(cache.entries, cache.now, cache.enabled, SearchKey(like))
  {
    rows := rows0;
    var found, value := cache.Get(SearchKey(like), Arr([]));
    if !found {
      return false, rows;
    }
    match value
    case Obj(_) =>
      return false, rows;
    case Arr(items) =>
      hit, rows := DecodeRows(items, rows0);
  }

  method SaveSearchToCache(cache: Cache, like: Query, rows: seq<User>)
    modifies cache`entries
    ensures cache.entries == PutList(old(cache.entries), cache.now, cache.enabled, like, rows)
  {
    var arr := [];
    for i := 0 to |rows|
      invariant arr == Encoded(rows)[..i]
    {
      arr := arr + [ToJson(rows[i])];
    }
    assert arr == Encoded(rows);
    cache.Put(SearchKey(like), Arr(arr));
  }

  /** The rows that were there, followed by a listing of the table. */
  ghost predicate ListedAfter(left: seq<User>, result: seq<User>, t: Table, sql: Sql) {
    exists listed :: result == left + listed && IsListing(listed, t, sql)
  }

  /** The inner loop of the search: one row of the shard after the other, in any order. */
  method FetchRows(shard: Table, sql: Sql, result0: seq<User>) returns (result: seq<User>)
    requires forall id :: id in shard ==> shard[id].id == id
    ensures ListedAfter(result0, result, shard, sql)
  {
    result := result0;
    ghost var fetched := [];
    var todo: set<int> := set id | id in shard && Selects(sql, shard[id]);
    while exists id :: id in todo
      invariant forall id :: id in todo ==> id in shard && Selects(sql, shard[id])
      invariant result == result0 + fetched && Fetched(fetched, shard, sql, todo)
      decreases todo
    {
      var id :| id in todo;
      FetchOneMore(fetched, shard, sql, todo, id);
      result := result + [Public(shard[id])];
      fetched := fetched + [Public(shard[id])];
      todo := todo - {id};
    }
    assert IsListing(fetched, shard, sql);
  }

  /** The rows of one more shard, at the end of the result. */
  lemma AppendShard(result0: seq<User>, listed: seq<User>, fetched: seq<User>, sh: seq<Table>, sql: Sql, k: nat)
    requires Placed(sh) && k < |sh|
    requires ListedBefore(listed, sh, sql, k) && IsListing(fetched, sh[k], sql)
    ensures ListedBefore(listed + fetched, sh, sql, k + 1)
    ensures result0 + listed + fetched == result0 + (listed + fetched)
  {
    ListOneShard(listed, fetched, sh, sql, k);
  }

  lemma ShardIds(sh: seq<Table>, k: nat)
    requires Placed(sh) && k < |sh|
    ensures forall id :: id in sh[k] ==> sh[k][id].id == id
  {
    assert forall id :: id in sh[k] ==> RowPlaced(sh, k, id);
  }

  /** The outer loop of the search: the shards in the order of their hints. */
  method ListShards(db: Database, sql: Sql, result0: seq<User>) returns (result: seq<User>)
    requires db.Valid()
    ensures ListedAfter(result0, result, Logical(db.shards), sql)
  {
    result := result0;
    ghost var listed := [];
    var hints := db.GetAllHints();
    HintsCoverIds(0, db.maxShard);
    for k := 0 to |hints|
      invariant result == result0 + listed && ListedBefore(listed, db.shards, sql, k)
    {
      var shard := db.Target(hints[k]);
      ShardIds(db.shards, k);
      var more := FetchRows(shard, sql, result);
      ghost var fetched :| more == result + fetched && IsListing(fetched, shard, sql);
      AppendShard(result0, listed, fetched, db.shards, sql, k);
      result, listed := more, listed + fetched;
    }
    AllShardsListed(listed, db.shards, sql);
  }

  /** The part of the search behind a cache miss. */
  method SearchShards(db: Database, cache: Cache, like0: Query, left: seq<User>) returns (result: seq<User>)
    requires db.Valid()
    modifies cache`entries
    ensures ListedAfter(left, result, Logical(db.shards), SqlOf(like0))
    ensures cache.entries == PutList(old(cache.entries), cache.now, cache.enabled, RewriteQuery(like0), result)
  {
    var sql := SqlOf(like0);
    var like := RewriteQuery(like0);
    result := ListShards(db, sql, left);
    SaveSearchToCache(cache, like, result);
  }

  /** A hit answers the cached list; a miss lists the shards behind whatever the lookup left in the result. */
  method Search(db: Database, cache: Cache, like: Query) returns (result: seq<User>)
    requires db.Valid()
    modifies cache`entries
    ensures
      var es := old(cache.entries);
      var left := CachedRows(es, cache.now, cache.enabled, SearchKey(like));
      if ListHit(es, cache.now, cache.enabled, SearchKey(like)) then
        result == left && cache.entries == es
      else
        && ListedAfter(left, result, Logical(db.shards), SqlOf(like))
        && cache.entries == PutList(es, cache.now, cache.enabled, RewriteQuery(like), result)
  {
    var hit;
    hit, result := SearchByCache(cache, like, []);
    assert result == CachedRows(cache.entries, cache.now, cache.enabled, SearchKey(like));
    if !hit {
      result := SearchShards(db, cache, like, result);
    }
  }
}
