/** The shards behind the proxy, and the user entity's statements on them. */
module DatabaseModel {
  import opened Wrappers
  import opened Users
  import opened Sharding

  class Database {
    const maxShard: nat
    var shards: seq<Table>
    var roles: seq<RoleTable>
    var nextId: int

    ghost predicate Valid()
      reads this
    {
      |shards| == maxShard + 1 && |roles| == maxShard + 1 && Placed(shards) && RolesPlaced(roles)
    }

    constructor (maxShard: nat)
      ensures Valid() && this.maxShard == maxShard && nextId == 1
      ensures Logical(shards) == map[]
      ensures forall k :: 0 <= k <= maxShard ==> shards[k] == map[] && roles[k] == {}
    {
      this.maxShard := maxShard;
      shards := seq(maxShard + 1, _ => map[]);
      roles := seq(maxShard + 1, _ => {});
      nextId := 1;
    }

    method GetAllHints() returns (hints: seq<string>)
      ensures hints == AllHints(maxShard)
    {
      hints := [];
      for i := 0 to maxShard + 1
        invariant hints == AllHints(maxShard)[..i]
      {
        hints := hints + [Hint(i)];
      }
    }

    method GenerateNewId() returns (id: int)
      modifies this`nextId
      ensures id == old(nextId) && nextId == id + 1
    {
      id := nextId;
      nextId := nextId + 1;
    }

    /** The rows a hinted statement sees. */
    function Target(hint: string): Table
      requires 0 <= Route(hint) < |shards|
      reads this
    {
      shards[Route(hint)]
    }

    /** Whether any shard holds the login or the email; as on the one logical table. */
    method IsExist(login: string, email: string) returns (result: bool)
      requires Valid()
      ensures result <==> ExistsIn(Logical(shards), login, email)
    {
      result := false;
      var hints := GetAllHints();
      HintsCoverIds(0, maxShard);
      for k := 0 to |hints|
        invariant forall id :: id in Logical(shards) && ShardOf(id, |shards|) < k ==>
                                 !SameLoginOrEmail(Logical(shards)[id], login, email)
      {
        var rows := Target(hints[k]);
        if exists id :: id in rows && SameLoginOrEmail(rows[id], login, email) {
          ghost var id :| id in rows && SameLoginOrEmail(rows[id], login, email);
          LogicalIsUnion(shards, k, id);
          return true;
        }
        forall id | id in Logical(shards) && ShardOf(id, |shards|) == k
          ensures !SameLoginOrEmail(Logical(shards)[id], login, email)
        {
          LogicalIsUnion(shards, k, id);
        }
      }
    }

    /** The loop of auth: the first shard with a matching undeleted row decides. */
    method FindCredentials(login: string, password: string) returns (id: int)
      requires Valid()
      ensures IsAuthAnswer(Logical(shards), login, password, id)
      ensures id != 0 ==>
                var row := Logical(shards)[id];
                row.login == login && row.password == password && !row.deleted
    {
      var hints := GetAllHints();
      HintsCoverIds(0, maxShard);
      for k := 0 to |hints|
        invariant forall i :: i in Logical(shards) && ShardOf(i, |shards|) < k ==>
                                !AuthMatch(Logical(shards)[i], login, password)
      {
        var rows := Target(hints[k]);
        if exists i :: i in rows && AuthMatch(rows[i], login, password) {
          id :| id in rows && AuthMatch(rows[id], login, password);
          LogicalIsUnion(shards, k, id);
          assert RowPlaced(shards, k, id);
          return id;
        }
        forall i | i in Logical(shards) && ShardOf(i, |shards|) == k
          ensures !AuthMatch(Logical(shards)[i], login, password)
        {
          LogicalIsUnion(shards, k, i);
        }
      }
      return 0;
    }

    method InsertEntity(u: User) returns (r: Result<bool>, saved: User)
      requires Valid() && nextId > 0
      modifies this`shards, this`nextId
      ensures Valid()
      ensures u.id <= 0 ==> SaveRows(old(shards), old(nextId), u) == (if r.Ok? then Some(shards) else None, nextId)
      ensures
        if ExistsIn(old(Logical(shards)), u.login, u.email) then
          r == Ok(false) && saved == u && shards == old(shards) && nextId == old(nextId)
        else
          && saved == u.(id := old(nextId)) && nextId == old(nextId) + 1
          && (if saved.id in old(Logical(shards)) || ClashIn(old(Logical(shards)), maxShard + 1, saved)
              then r == Err(Duplicate) && shards == old(shards)
              else r == Ok(true) && Logical(shards) == old(Logical(shards))[saved.id := saved.(deleted := false)])
    {
      saved := u;
      var exist := IsExist(u.login, u.email);
      if exist {
        return Ok(false), saved;
      }
      var id := GenerateNewId();
      saved := saved.(id := id);
      InsertRefines(shards, saved);
      match InsertRow(shards, saved)
      case None =>
        r := Err(Duplicate);
      case Some(written) =>
        shards := written;
        r := Ok(true);
    }

    method UpdateEntity(u: User) returns (r: Result<bool>)
      requires Valid() && u.id > 0
      modifies this`shards
      ensures Valid()
      ensures UpdateRow(old(shards), u) == if r.Ok? then Some(shards) else None
      ensures
        if u.id !in old(Logical(shards)) then r == Ok(true) && Logical(shards) == old(Logical(shards))
        else if ClashIn(old(Logical(shards)), maxShard + 1, u) then r == Err(Duplicate) && shards == old(shards)
        else r == Ok(true) && Logical(shards) == old(Logical(shards))[u.id := u]
    {
      UpdateRefines(shards, u);
      match UpdateRow(shards, u)
      case None =>
        r := Err(Duplicate);
      case Some(written) =>
        shards := written;
        r := Ok(true);
    }

    /** Both branches return: the call that would fill the cache is never reached. */
    method SaveToDb(u: User) returns (r: Result<bool>, saved: User)
      requires Valid() && nextId > 0
      modifies this`shards, this`nextId
      ensures Valid() && nextId > 0
      ensures SaveRows(old(shards), old(nextId), u) == (if r.Ok? then Some(shards) else None, nextId)
      ensures r.Err? ==> shards == old(shards)
      ensures u.id > 0 ==> saved == u && nextId == old(nextId)
      ensures u.id > 0 ==>
                if u.id !in old(Logical(shards)) then r == Ok(true) && Logical(shards) == old(Logical(shards))
                else if ClashIn(old(Logical(shards)), maxShard + 1, u) then r == Err(Duplicate) && shards == old(shards)
                else r == Ok(true) && Logical(shards) == old(Logical(shards))[u.id := u]
      ensures u.id <= 0 ==>
                if ExistsIn(old(Logical(shards)), u.login, u.email) then
                  r == Ok(false) && saved == u && shards == old(shards) && nextId == old(nextId)
                else
                  && saved == u.(id := old(nextId)) && nextId == old(nextId) + 1
                  && (if saved.id in old(Logical(shards)) || ClashIn(old(Logical(shards)), maxShard + 1, saved)
                      then r == Err(Duplicate) && shards == old(shards)
                      else
                        && r == Ok(true)
                        && Logical(shards) == old(Logical(shards))[saved.id := saved.(deleted := false)])
    {
      if u.id > 0 {
        r := UpdateEntity(u);
        return r, u;
      } else {
        r, saved := InsertEntity(u);
        return r, saved;
      }
    }

    /** Whether the one role table holds the pair. */
    method HaveRole(id: int, role: string) returns (r: bool)
      requires Valid()
      ensures r <==> (id, role) in RolePairs(roles)
    {
      RolesRefine(roles, id, role);
      r := (id, role) in roles[ShardOf(id, maxShard + 1)];
    }

    method AddRole(id: int, role: string)
      requires Valid()
      modifies this`roles
      ensures Valid() && roles == WithRole(old(roles), id, role)
      ensures RolePairs(roles) == old(RolePairs(roles)) + {(id, role)}
    {
      RolesRefine(roles, id, role);
      var have := HaveRole(id, role);
      var k := ShardOf(id, maxShard + 1);
      if have {
        assert roles[k] + {(id, role)} == roles[k];
        return;
      }
      roles := roles[k := roles[k] + {(id, role)}];
    }

    method RemoveRole(id: int, role: string)
      requires Valid()
      modifies this`roles
      ensures Valid() && roles == WithoutRole(old(roles), id, role)
      ensures RolePairs(roles) == old(RolePairs(roles)) - {(id, role)}
    {
      RolesRefine(roles, id, role);
      var k := ShardOf(id, maxShard + 1);
      roles := roles[k := roles[k] - {(id, role)}];
    }
  }
}
