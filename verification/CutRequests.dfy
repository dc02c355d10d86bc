/** A request or search that is cut at its accesses, run without interruption, is the whole one. */
module CutRequests {
  import opened Users
  import opened Decimal
  import opened Sharding
  import opened CacheModel
  import opened Repository
  import opened Tokens
  import opened System

  /** These steps lead from s to s'. */
  ghost predicate Leads(c: Config, run: seq<State>, steps: seq<Step>, s: State, s': State) {
    Moves(c, run, steps) && run[0] == s && run[|steps|] == s'
  }

  ghost predicate CanLead(c: Config, s: State, s': State, steps: seq<Step>) {
    exists run :: Leads(c, run, steps, s, s')
  }

  lemma NoSteps(c: Config, s: State)
    ensures CanLead(c, s, s, [])
  {
    assert Leads(c, [s], [], s, s);
  }

  lemma OneMoreStep(c: Config, s: State, s1: State, steps: seq<Step>, e: Step, s2: State)
    requires CanLead(c, s, s1, steps) && Does(c, s1, e, s2)
    ensures CanLead(c, s, s2, steps + [e])
  {
    var run :| Leads(c, run, steps, s, s1);
    AppendStep(c, run, steps, e, s2);
    assert Leads(c, run + [s2], steps + [e], s, s2);
  }

  /** The state with the task at this stage and these entries in the cache. */
  ghost function With(s: State, t: nat, x: Task, es: Entries): State {
    s.(tasks := s.tasks[t := x], cache := es)
  }

  lemma PutWith(c: Config, s: State, t: nat, x: Task, es: Entries)
    requires HasShards(s) && x.stage != Ready
    ensures Does(c, With(s, t, x, es), Put(t),
                 With(s, t, x.AfterPut(), PutEntry(es, s.clock, true, x.Key(), Obj(ToJsonWithPassword(x.user)))))
  {
    assert s.tasks[t := x][t := x.AfterPut()] == s.tasks[t := x.AfterPut()];
  }

  /** Two puts in a row are the whole save. */
  lemma TwoPuts(c: Config, s: State, t: nat, x: Task, es: Entries, s0: State, steps: seq<Step>)
    requires HasShards(s) && (x.stage.PutId? || x.stage.PutIdAgain?)
    requires CanLead(c, s0, With(s, t, x, es), steps)
    ensures CanLead(c, s0, With(s, t, x.AfterPut().AfterPut(), PutUser(es, s.clock, true, x.user)),
                    steps + [Put(t)] + [Put(t)])
  {
    var j := Obj(ToJsonWithPassword(x.user));
    var es1 := PutEntry(es, s.clock, true, ToString(x.user.id), j);
    PutWith(c, s, t, x, es);
    OneMoreStep(c, s0, With(s, t, x, es), steps, Put(t), With(s, t, x.AfterPut(), es1));
    PutWith(c, s, t, x.AfterPut(), es1);
    OneMoreStep(c, s0, With(s, t, x.AfterPut(), es1), steps + [Put(t)], Put(t),
                With(s, t, x.AfterPut().AfterPut(), PutEntry(es1, s.clock, true, x.user.login, j)));
  }

  /** A lookup of get_by_id: one fetch, then puts of the same request. */
  ghost predicate IsLookup(steps: seq<Step>, t: nat, caller: Caller, id: int) {
    |steps| > 0 && steps[0] == Fetch(t, caller, id) && forall i :: 0 < i < |steps| ==> steps[i] == Put(t)
  }

  /** The cache a whole request leaves: a sign-in saves once more what it looked up. */
  ghost function LookupCache(c: Config, s: State, caller: Caller, id: int): Entries
    requires HasShards(s)
  {
    if caller.BySignIn? then AuthCache(s.shards, s.cache, s.clock, c.authCache, id)
    else FoundCache(s.shards, s.cache, s.clock, On(c, caller), id)
  }

  ghost function LookedUp(c: Config, s: State, t: nat, caller: Caller, id: int): State
    requires HasShards(s)
  {
    With(s, t, Task(Found(s, On(c, caller), id), Ready, caller), LookupCache(c, s, caller, id))
  }

  lemma FetchFirst(c: Config, s: State, t: nat, caller: Caller, id: int)
    requires HasShards(s) && t !in s.tasks && MayFetch(c, s, caller, id)
    ensures CanLead(c, s, FetchTask(c, s, t, caller, id), [Fetch(t, caller, id)])
  {
    NoSteps(c, s);
    OneMoreStep(c, s, s, [], Fetch(t, caller, id), FetchTask(c, s, t, caller, id));
    assert [] + [Fetch(t, caller, id)] == [Fetch(t, caller, id)];
  }

  /** Without interruption fetch and puts do what the whole lookup does. */
  lemma CutLookup(c: Config, s: State, t: nat, caller: Caller, id: int) returns (steps: seq<Step>)
    requires HasShards(s) && t !in s.tasks && MayFetch(c, s, caller, id) && (caller.BySignIn? ==> id > 0)
    ensures IsLookup(steps, t, caller, id) && CanLead(c, s, LookedUp(c, s, t, caller, id), steps)
  {
    FetchFirst(c, s, t, caller, id);
    steps := [Fetch(t, caller, id)];
    var u, on := Found(s, On(c, caller), id), On(c, caller);
    var cached := CachedUser(s.cache, s.clock, on, ToString(id)).id > 0;
    var es := FoundCache(s.shards, s.cache, s.clock, on, id);
    if on && !cached {
      TwoPuts(c, s, t, Task(u, PutId, caller), s.cache, s, steps);
      steps := steps + [Put(t)] + [Put(t)];
    }
    if on && caller.BySignIn? {
      TwoPuts(c, s, t, Task(u, PutIdAgain, caller), es, s, steps);
      steps := steps + [Put(t)] + [Put(t)];
    }
  }

  lemma TaskGone(tasks: map<nat, Task>, t: nat, x: Task)
    requires t !in tasks
    ensures tasks[t := x] - {t} == tasks
  {
  }

  /** The last step of a request that has its user. */
  lemma LastStep(c: Config, s: State, t: nat, caller: Caller, id: int, steps: seq<Step>, e: Step, s': State)
    requires HasShards(s) && CanLead(c, s, LookedUp(c, s, t, caller, id), steps)
    requires Does(c, LookedUp(c, s, t, caller, id), e, s')
    ensures CanLead(c, s, s', steps + [e])
  {
    OneMoreStep(c, s, LookedUp(c, s, t, caller, id), steps, e, s');
  }

  /** A get: fetch, puts, and the answer. */
  lemma CutGet(c: Config, s: State, t: nat, id: int) returns (steps: seq<Step>)
    requires HasShards(s) && t !in s.tasks && id > 0 && Found(s, c.userCache, id).id > 0
    ensures IsLookup(steps, t, ByUser, id) && CanLead(c, s, Next(c, s, Get(id)), steps + [Finish(t)])
  {
    steps := CutLookup(c, s, t, ByUser, id);
    TaskGone(s.tasks, t, LookedUp(c, s, t, ByUser, id).tasks[t]);
    LastStep(c, s, t, ByUser, id, steps, Finish(t), Next(c, s, Get(id)));
  }

  lemma CutValidate(c: Config, s: State, t: nat, token: Token) returns (steps: seq<Step>)
    requires HasShards(s) && t !in s.tasks && token.Signed? && Found(s, c.authCache, token.id).id > 0
    ensures IsLookup(steps, t, ByValidate, token.id)
    ensures CanLead(c, s, Next(c, s, Validate(token)), steps + [Finish(t)])
  {
    steps := CutLookup(c, s, t, ByValidate, token.id);
    TaskGone(s.tasks, t, LookedUp(c, s, t, ByValidate, token.id).tasks[t]);
    LastStep(c, s, t, ByValidate, token.id, steps, Finish(t), Next(c, s, Validate(token)));
  }

  /** A sign-in that finds its row: the lookup behind the credentials, and two more puts. */
  lemma CutSignIn(c: Config, s: State, t: nat, e: Step) returns (steps: seq<Step>)
    requires Enabled(c, s, e) && e.SignIn? && !SignInByCache(c, s, e.login, e.password) && e.answer > 0
    requires Placed(s.shards) && c.authCache && t !in s.tasks
    ensures IsLookup(steps, t, BySignIn, e.answer) && CanLead(c, s, Next(c, s, e), steps + [Finish(t)])
  {
    RowRefines(s.shards, e.answer);
    assert RowPlaced(s.shards, ShardOf(e.answer, |s.shards|), e.answer);
    steps := CutLookup(c, s, t, BySignIn, e.answer);
    TaskGone(s.tasks, t, LookedUp(c, s, t, BySignIn, e.answer).tasks[t]);
    LastStep(c, s, t, BySignIn, e.answer, steps, Finish(t), Next(c, s, e));
  }

  /** An edit decides on the user its lookup found. */
  lemma CutEdit(c: Config, s: State, t: nat, requester: int, body: Object, sent: bool) returns (steps: seq<Step>)
    requires HasShards(s) && t !in s.tasks && Id in body && body[Id].Num? && Found(s, c.userCache, body[Id].n).id > 0
    ensures IsLookup(steps, t, ByUser, body[Id].n)
    ensures CanLead(c, s, Next(c, s, Edit(requester, body, sent)), steps + [EditFetched(t, requester, body, sent)])
  {
    var id := body[Id].n;
    steps := CutLookup(c, s, t, ByUser, id);
    TaskGone(s.tasks, t, LookedUp(c, s, t, ByUser, id).tasks[t]);
    var e := EditFetched(t, requester, body, sent);
    LastStep(c, s, t, ByUser, id, steps, e, Next(c, s, Edit(requester, body, sent)));
  }

  lemma CutDelete(c: Config, s: State, t: nat, requester: int, id: int) returns (steps: seq<Step>)
    requires HasShards(s) && t !in s.tasks && id >= 0 && Found(s, c.userCache, id).id > 0
    ensures IsLookup(steps, t, ByUser, id)
    ensures CanLead(c, s, Next(c, s, Delete(requester, id)), steps + [DeleteFetched(t, requester)])
  {
    steps := CutLookup(c, s, t, ByUser, id);
    TaskGone(s.tasks, t, LookedUp(c, s, t, ByUser, id).tasks[t]);
    LastStep(c, s, t, ByUser, id, steps, DeleteFetched(t, requester), Next(c, s, Delete(requester, id)));
  }

  /** The first k shards as they are read one after the other. */
  ghost function ReadUpTo(parts: seq<seq<User>>, k: nat): seq<User>
    requires k <= |parts|
  {
    if k == 0 then [] else ReadUpTo(parts, k - 1) + parts[k - 1]
  }

  ghost function SearchSteps(t: nat, like: Query, parts: seq<seq<User>>, k: nat): seq<Step>
    requires k <= |parts|
  {
    if k == 0 then [StartSearch(t, like)] else SearchSteps(t, like, parts, k - 1) + [SelectShard(t, parts[k - 1])]
  }

  ghost predicate PartOf(sh: seq<Table>, sql: Sql, parts: seq<seq<User>>, k: nat)
    requires k < |sh| == |parts|
  {
    IsListing(parts[k], sh[k], sql)
  }

  ghost predicate PartsOf(sh: seq<Table>, sql: Sql, parts: seq<seq<User>>) {
    |parts| == |sh| && forall k: nat :: k < |sh| ==> PartOf(sh, sql, parts, k)
  }

  /** The first k shards are listed. */
  ghost predicate PartsListed(sh: seq<Table>, sql: Sql, parts: seq<seq<User>>, k: nat)
    requires k <= |parts| && |sh| > 0
  {
    ListedBefore(ReadUpTo(parts, k), sh, sql, k)
  }

  ghost function Scanned(c: Config, s: State, t: nat, like: Query, parts: seq<seq<User>>, k: nat): State
    requires k <= |parts|
  {
    var left := CachedRows(s.cache, s.clock, c.userCache, SearchKey(like));
    s.(scans := s.scans[t := Scan(like, left + ReadUpTo(parts, k), k)])
  }

  lemma SearchStarts(c: Config, s: State, t: nat, like: Query, parts: seq<seq<User>>)
    requires HasShards(s) && t !in s.scans && !ListHit(s.cache, s.clock, c.userCache, SearchKey(like))
    ensures Does(c, s, StartSearch(t, like), Scanned(c, s, t, like, parts, 0))
  {
    var left := CachedRows(s.cache, s.clock, c.userCache, SearchKey(like));
    assert left + [] == left;
  }

  lemma ShardSelected(c: Config, s: State, t: nat, like: Query, parts: seq<seq<User>>, k: nat)
    requires HasShards(s) && PartsOf(s.shards, SqlOf(like), parts) && k < |parts|
    ensures Does(c, Scanned(c, s, t, like, parts, k), SelectShard(t, parts[k]), Scanned(c, s, t, like, parts, k + 1))
  {
    assert PartOf(s.shards, SqlOf(like), parts, k);
    var left := CachedRows(s.cache, s.clock, c.userCache, SearchKey(like));
    assert (left + ReadUpTo(parts, k)) + parts[k] == left + ReadUpTo(parts, k + 1);
    var s1, s2 := Scanned(c, s, t, like, parts, k), Scanned(c, s, t, like, parts, k + 1);
    assert s2.scans == s1.scans[t := s2.scans[t]];
  }

  lemma SearchSaved(c: Config, s: State, t: nat, like: Query, parts: seq<seq<User>>, rows: seq<User>)
    requires HasShards(s) && t !in s.scans && |parts| == |s.shards| && rows == ReadUpTo(parts, |parts|)
    requires !ListHit(s.cache, s.clock, c.userCache, SearchKey(like)) && IsListing(rows, T(s), SqlOf(like))
    ensures Does(c, Scanned(c, s, t, like, parts, |parts|), SaveSearch(t), Next(c, s, Search(like, rows)))
  {
    assert Scanned(c, s, t, like, parts, |parts|).scans - {t} == s.scans;
  }

  lemma NothingListed(sh: seq<Table>, sql: Sql, parts: seq<seq<User>>)
    requires |sh| > 0
    ensures PartsListed(sh, sql, parts, 0)
  {
  }

  lemma OneMoreListed(sh: seq<Table>, sql: Sql, parts: seq<seq<User>>, k: nat)
    requires Placed(sh) && k < |sh| == |parts| && PartOf(sh, sql, parts, k)
    requires PartsListed(sh, sql, parts, k)
    ensures PartsListed(sh, sql, parts, k + 1)
  {
    var before, more := ReadUpTo(parts, k), parts[k];
    ListOneShard(before, more, sh, sql, k);
    assert ReadUpTo(parts, k + 1) == before + more;
  }

  lemma {:induction false} ShardsListed(sh: seq<Table>, sql: Sql, parts: seq<seq<User>>, k: nat)
    requires Placed(sh) && PartsOf(sh, sql, parts) && k <= |parts|
    ensures PartsListed(sh, sql, parts, k)
  {
    NothingListed(sh, sql, parts);
    if k > 0 {
      ShardsListed(sh, sql, parts, k - 1);
      assert PartOf(sh, sql, parts, k - 1);
      OneMoreListed(sh, sql, parts, k - 1);
      assert PartsListed(sh, sql, parts, k - 1 + 1);
    }
  }

  lemma {:induction false} CutShards(c: Config, s: State, t: nat, like: Query, parts: seq<seq<User>>, k: nat)
    requires HasShards(s) && t !in s.scans && PartsOf(s.shards, SqlOf(like), parts) && k <= |parts|
    requires !ListHit(s.cache, s.clock, c.userCache, SearchKey(like))
    ensures CanLead(c, s, Scanned(c, s, t, like, parts, k), SearchSteps(t, like, parts, k))
  {
    if k == 0 {
      NoSteps(c, s);
      SearchStarts(c, s, t, like, parts);
      assert [] + [StartSearch(t, like)] == [StartSearch(t, like)];
      OneMoreStep(c, s, s, [], StartSearch(t, like), Scanned(c, s, t, like, parts, 0));
    } else {
      CutShards(c, s, t, like, parts, k - 1);
      ShardSelected(c, s, t, like, parts, k - 1);
      OneMoreStep(c, s, Scanned(c, s, t, like, parts, k - 1), SearchSteps(t, like, parts, k - 1),
                  SelectShard(t, parts[k - 1]), Scanned(c, s, t, like, parts, k));
    }
  }

  /** A search that reads its shards without interruption is the whole search with a listing of the logical table. */
  lemma CutSearch(c: Config, s: State, t: nat, like: Query, parts: seq<seq<User>>)
    requires HasShards(s) && Placed(s.shards) && t !in s.scans && PartsOf(s.shards, SqlOf(like), parts)
    requires !ListHit(s.cache, s.clock, c.userCache, SearchKey(like))
    ensures
      var e := Search(like, ReadUpTo(parts, |parts|));
      && Enabled(c, s, e)
      && CanLead(c, s, Next(c, s, e), SearchSteps(t, like, parts, |parts|) + [SaveSearch(t)])
  {
    var rows := ReadUpTo(parts, |parts|);
    ShardsListed(s.shards, SqlOf(like), parts, |parts|);
    AllShardsListed(rows, s.shards, SqlOf(like));
    CutShards(c, s, t, like, parts, |parts|);
    SearchSaved(c, s, t, like, parts, rows);
    OneMoreStep(c, s, Scanned(c, s, t, like, parts, |parts|), SearchSteps(t, like, parts, |parts|), SaveSearch(t),
                Next(c, s, Search(like, rows)));
  }
}
