/** Consequences of the invariant over whole runs. */
module Permanence {
  import opened Wrappers
  import opened Users
  import opened Decimal
  import opened Sharding
  import opened CacheModel
  import opened System
  import opened Invariant

  ghost predicate InCache(s: State, u: User) {
    exists key :: key in s.cache && FromJson(s.cache[key].value) == Some(u)
  }

  ghost predicate InCachedList(s: State, u: User) {
    exists key, i :: key in s.cache && s.cache[key].value.Arr? && 0 <= i < |s.cache[key].value.items| &&
                     FromObject(s.cache[key].value.items[i]) == Some(u)
  }

  ghost predicate InLog(s: State, u: User) {
    exists p :: 0 <= p < |s.log| && FromJson(s.log[p]) == Some(u)
  }

  ghost predicate InFlight(s: State, u: User) {
    exists k :: k in s.tasks && s.tasks[k].user == u
  }

  ghost predicate IsRow(s: State, u: User)
    requires HasShards(s)
  {
    u.id in T(s) && T(s)[u.id] == u
  }

  /** A user value held anywhere: a row, a cached object, a cached list, an event, a request. */
  ghost predicate Occurs(s: State, u: User)
    requires HasShards(s)
  {
    IsRow(s, u) || InCache(s, u) || InCachedList(s, u) || InLog(s, u) || InFlight(s, u)
  }

  lemma OccursOk(c: Config, s: State, u: User, em: bool)
    requires Inv(c, s, em) && Occurs(s, u)
    ensures UserOk(T(s), u, em)
  {
    if InCache(s, u) {
      var key :| key in s.cache && FromJson(s.cache[key].value) == Some(u);
      assert EntryOk(T(s), key, s.cache[key].value, em);
    } else if InCachedList(s, u) {
      var key, i :| key in s.cache && s.cache[key].value.Arr? && 0 <= i < |s.cache[key].value.items| &&
                    FromObject(s.cache[key].value.items[i]) == Some(u);
      assert EntryOk(T(s), key, s.cache[key].value, em);
      assert ObjectOk(T(s), s.cache[key].value.items[i], em);
    } else if InLog(s, u) {
      var p :| 0 <= p < |s.log| && FromJson(s.log[p]) == Some(u);
      assert ObjectOk(T(s), s.log[p].fields, em);
    }
  }

  /** Whatever names an id later carries the login its row had earlier. */
  lemma LoginPermanent(c: Config, run: seq<State>, steps: seq<Step>, j: nat, k: nat, i: int)
    requires IsRun(c, run, steps) && j <= k < |run|
    requires HasShards(run[j]) && i in T(run[j])
    ensures HasShards(run[k]) && i in T(run[k])
    ensures forall u :: Occurs(run[k], u) && u.id == i ==> u.login == T(run[j])[i].login
  {
    RunGrows(c, run, steps, j, k, false);
    RunInv(c, run, steps, k, false);
    forall u | Occurs(run[k], u) && u.id == i
      ensures u.login == T(run[j])[i].login
    {
      OccursOk(c, run[k], u, false);
    }
  }

  /** No positive id is ever held without its row. */
  lemma IdsHaveRows(c: Config, run: seq<State>, steps: seq<Step>, k: nat, u: User)
    requires IsRun(c, run, steps) && k < |run|
    requires HasShards(run[k]) && Occurs(run[k], u) && u.id > 0
    ensures u.id in T(run[k])
  {
    RunInv(c, run, steps, k, false);
    OccursOk(c, run[k], u, false);
  }

  lemma AlwaysWellFormed(c: Config, run: seq<State>, steps: seq<Step>, k: nat, u: User)
    requires IsRun(c, run, steps) && k < |run|
    requires HasShards(run[k]) && Occurs(run[k], u)
    ensures |u.name| >= 3 && |u.login| >= 3 && '@' in u.email && ' ' !in u.email && '\t' !in u.email
  {
    RunInv(c, run, steps, k, false);
    OccursOk(c, run[k], u, false);
  }

  /** Logins are globally unique in every run, emails in every run whose edits leave emails alone. */
  lemma UniqueAcrossShards(c: Config, run: seq<State>, steps: seq<Step>, k: nat)
    requires IsRun(c, run, steps) && k < |run|
    ensures HasShards(run[k]) && LoginsUnique(T(run[k]))
    ensures (forall i :: 0 <= i < |steps| ==> KeepsEmail(steps[i])) ==> EmailsUnique(T(run[k]))
  {
    RunInv(c, run, steps, k, false);
    if forall i :: 0 <= i < |steps| ==> KeepsEmail(steps[i]) {
      RunInv(c, run, steps, k, true);
    }
  }

  /** Every row of every reachable state is in the one shard of its id and under the sequence value. */
  lemma RowsInPlace(c: Config, run: seq<State>, steps: seq<Step>, k: nat, shard: nat, id: int)
    requires IsRun(c, run, steps) && k < |run|
    requires shard < |run[k].shards| && id in run[k].shards[shard]
    ensures |run[k].shards| == c.maxShard + 1 && shard == ShardOf(id, c.maxShard + 1)
    ensures run[k].shards[shard][id].id == id && 0 < id < run[k].nextId
  {
    RunInv(c, run, steps, k, false);
    assert RowPlaced(run[k].shards, shard, id);
    LogicalIsUnion(run[k].shards, shard, id);
  }

  /** The consumer's insert can only be refused for an email of its target shard: never for the key or the login. */
  lemma InsertRefusedOnlyForEmail(c: Config, run: seq<State>, steps: seq<Step>, k: nat)
    requires IsRun(c, run, steps) && k < |run| && Enabled(c, run[k], Insert)
    ensures
      var u := FromJson(run[k].log[run[k].consumer.pos]).value.(id := run[k].consumer.id);
      InsertRow(run[k].shards, u).None? <==>
      exists i ::
        i in T(run[k]) && ShardOf(i, |run[k].shards|) == ShardOf(u.id, |run[k].shards|) && T(run[k])[i].email == u.email
  {
    RunInv(c, run, steps, k, false);
    var s := run[k];
    var u := FromJson(s.log[s.consumer.pos]).value.(id := s.consumer.id);
    InsertRefines(s.shards, u);
    if i :| i in T(s) && ShardOf(i, |s.shards|) == ShardOf(u.id, |s.shards|) && T(s)[i].email == u.email {
      assert SameLoginOrEmail(T(s)[i], u.login, u.email);
    }
    if ClashIn(T(s), |s.shards|, u) {
      var i :| i in T(s) && i != u.id && ShardOf(i, |s.shards|) == ShardOf(u.id, |s.shards|) &&
               SameLoginOrEmail(T(s)[i], u.login, u.email);
      assert T(s)[i].login != u.login;
    }
  }

  /** Object lookups that find a list answer from the store, list lookups that find an object answer from the shards. */
  lemma KindSafe(c: Config, run: seq<State>, steps: seq<Step>, k: nat, on: bool, key: string)
    requires IsRun(c, run, steps) && k < |run| && key in run[k].cache
    ensures HasShards(run[k])
    ensures run[k].cache[key].value.Arr? ==> CachedUser(run[k].cache, run[k].clock, on, key) == EMPTY
    ensures forall id :: run[k].cache[key].value.Arr? && key == ToString(id) ==>
              Found(run[k], on, id) == if id in T(run[k]) then T(run[k])[id] else EMPTY
    ensures !ListHit(run[k].cache, run[k].clock, on, key) ==> CachedRows(run[k].cache, run[k].clock, on, key) == []
    ensures run[k].cache[key].value.Obj? ==> !ListHit(run[k].cache, run[k].clock, on, key)
  {
    RunInv(c, run, steps, k, false);
    assert EntryOk(T(run[k]), key, run[k].cache[key].value, false);
    if run[k].cache[key].value.Obj? {
      ObjectUnderSearchKeyIsMiss(run[k].cache, run[k].clock, on, key);
    }
    forall id | run[k].cache[key].value.Arr? && key == ToString(id)
      ensures Found(run[k], on, id) == if id in T(run[k]) then T(run[k])[id] else EMPTY
    {
      ListUnderIdKeyIsMiss(run[k].shards, run[k].cache, run[k].clock, on, id);
    }
  }

  /** Registered passwords never reach the store: the only password in use is the set-up administrator's. */
  lemma PasswordsAreLost(c: Config, run: seq<State>, steps: seq<Step>, k: nat, u: User)
    requires IsRun(c, run, steps) && k < |run|
    requires HasShards(run[k]) && Occurs(run[k], u)
    ensures u.password == "" || (u.login == "autotest_admin" && u.password == "123")
  {
    RunInv(c, run, steps, k, false);
    OccursOk(c, run[k], u, false);
  }
}
