/** What a cached read really guarantees. */
module Staleness {
  import opened Users
  import opened Decimal
  import opened Sharding
  import opened CacheModel
  import opened System
  import opened Frames
  import opened Invariant
  import opened Times

  ghost predicate RowAt(s: State, u: User) {
    HasShards(s) && u.id in T(s) && T(s)[u.id] == u
  }

  /** u was the complete row of its id at some state up to k; when bounded, not before the time since. */
  ghost predicate WasRow(run: seq<State>, k: int, u: User, since: int, bounded: bool) {
    exists j :: 0 <= j <= k < |run| && RowAt(run[j], u) && (bounded ==> run[j].clock >= since)
  }

  /** An object put at a time was the row at most d units before that time. */
  ghost predicate EntryFresh(run: seq<State>, k: int, e: Entry, d: int, bounded: bool) {
    FromJson(e.value).Some? ==> WasRow(run, k, FromJson(e.value).value, e.putAt - d, bounded)
  }

  ghost predicate CacheFresh(run: seq<State>, k: int, es: Entries, d: int, bounded: bool) {
    forall key :: key in es ==> EntryFresh(run, k, es[key], d, bounded)
  }

  predicate Fetches(e: Step, task: nat) {
    e.Fetch? && e.task == task
  }

  /** Step f is the last fetch of the request before step k. */
  ghost predicate LastFetch(steps: seq<Step>, k: int, task: nat, f: int) {
    0 <= f < k <= |steps| && Fetches(steps[f], task) && forall m :: f < m < k ==> !Fetches(steps[m], task)
  }

  /** u was a row when the request was last fetched. */
  ghost predicate HoldsRow(run: seq<State>, steps: seq<Step>, k: int, task: nat, u: User)
    requires |run| == |steps| + 1
  {
    exists f :: LastFetch(steps, k, task, f) && RowAt(run[f], u)
  }

  /** A request with puts still to come holds the row its select read; a sign-in may hold what the cache had. */
  ghost predicate TaskFresh(run: seq<State>, steps: seq<Step>, k: int, t: nat, x: Task, bounded: bool)
    requires |run| == |steps| + 1
  {
    if x.caller.BySignIn? then !bounded && WasRow(run, k, x.user, 0, false) else HoldsRow(run, steps, k, t, x.user)
  }

  ghost predicate TasksFresh(run: seq<State>, steps: seq<Step>, k: int, tasks: map<nat, Task>, bounded: bool)
    requires |run| == |steps| + 1
  {
    forall t :: t in tasks && tasks[t].stage != Ready ==> TaskFresh(run, steps, k, t, tasks[t], bounded)
  }

  /** Every put comes within d time units of the select that read its row. */
  ghost predicate PutsWithin(run: seq<State>, steps: seq<Step>, d: int)
    requires |run| == |steps| + 1
  {
    forall m, f :: 0 <= m < |steps| && steps[m].Put? && LastFetch(steps, m, steps[m].task, f) ==>
      run[m].clock - run[f].clock <= d
  }

  ghost predicate FreshAt(run: seq<State>, steps: seq<Step>, k: int, d: int, bounded: bool)
    requires |run| == |steps| + 1 && 0 <= k < |run|
  {
    CacheFresh(run, k, run[k].cache, d, bounded) && TasksFresh(run, steps, k, run[k].tasks, bounded)
  }

  /** The hypothesis of the bound: the sign-in service has no cache, and puts follow their selects within d. */
  ghost predicate PromptPuts(c: Config, run: seq<State>, steps: seq<Step>, d: int)
    requires |run| == |steps| + 1
  {
    !c.authCache && PutsWithin(run, steps, d)
  }

  lemma WasRowLater(run: seq<State>, k: int, k': int, u: User, since: int, since': int, bounded: bool)
    requires WasRow(run, k, u, since, bounded) && k <= k' < |run| && since' <= since
    ensures WasRow(run, k', u, since', bounded)
  {
  }

  lemma CacheFreshLater(run: seq<State>, k: int, k': int, es: Entries, d: int, bounded: bool)
    requires CacheFresh(run, k, es, d, bounded) && 0 <= k <= k' < |run|
    ensures CacheFresh(run, k', es, d, bounded)
  {
    forall key | key in es
      ensures EntryFresh(run, k', es[key], d, bounded)
    {
      assert EntryFresh(run, k, es[key], d, bounded);
    }
  }

  lemma PutFresh(run: seq<State>, k: int, es: Entries, on: bool, key: string, u: User, now: int, d: int, bounded: bool)
    requires CacheFresh(run, k, es, d, bounded) && WasRow(run, k, u, now - d, bounded)
    ensures CacheFresh(run, k, PutEntry(es, now, on, key, Obj(ToJsonWithPassword(u))), d, bounded)
  {
    DecodeWithPassword(u);
    var es' := PutEntry(es, now, on, key, Obj(ToJsonWithPassword(u)));
    forall q | q in es'
      ensures EntryFresh(run, k, es'[q], d, bounded)
    {
      if q != key || !on {
        assert EntryFresh(run, k, es[q], d, bounded);
      }
    }
  }

  lemma PutUserFresh(run: seq<State>, k: int, es: Entries, on: bool, u: User, now: int, d: int, bounded: bool)
    requires CacheFresh(run, k, es, d, bounded) && WasRow(run, k, u, now - d, bounded)
    ensures CacheFresh(run, k, PutUser(es, now, on, u), d, bounded)
  {
    var es1 := PutEntry(es, now, on, ToString(u.id), Obj(ToJsonWithPassword(u)));
    PutFresh(run, k, es, on, ToString(u.id), u, now, d, bounded);
    PutFresh(run, k, es1, on, u.login, u, now, d, bounded);
  }

  lemma PutListFresh(run: seq<State>, k: int, es: Entries, on: bool, q: Query, rows: seq<User>, now: int,
                     d: int, bounded: bool)
    requires CacheFresh(run, k, es, d, bounded)
    ensures CacheFresh(run, k, PutList(es, now, on, q, rows), d, bounded)
  {
    forall key | key in PutList(es, now, on, q, rows)
      ensures EntryFresh(run, k, PutList(es, now, on, q, rows)[key], d, bounded)
    {
      if key in es {
        assert EntryFresh(run, k, es[key], d, bounded);
      }
    }
  }

  /** A read through the cache: what it answers was the row within the life of an entry and d, and the cache stays
      fresh. */
  lemma ReadFresh(c: Config, run: seq<State>, k: int, on: bool, id: int, d: nat, bounded: bool)
    requires 0 <= k < |run| && Inv(c, run[k], false) && CacheFresh(run, k, run[k].cache, d, bounded)
    ensures CacheFresh(run, k, Read(run[k], on, id).cache, d, bounded)
    ensures Found(run[k], on, id).id > 0 ==>
              WasRow(run, k, Found(run[k], on, id), run[k].clock - LIFETIME - d, bounded)
    ensures !on && Found(run[k], on, id).id > 0 ==> RowAt(run[k], Found(run[k], on, id))
  {
    var s := run[k];
    var hit := CachedUser(s.cache, s.clock, on, ToString(id));
    CachedUserOk(T(s), s.cache, s.clock, on, ToString(id), false);
    if hit.id > 0 {
      var e := s.cache[ToString(id)];
      assert EntryFresh(run, k, e, d, bounded);
      WasRowLater(run, k, k, hit, e.putAt - d, s.clock - LIFETIME - d, bounded);
    } else {
      RowOk(c, s, false, id);
      if RowOf(s.shards, id).Some? {
        var u := RowOf(s.shards, id).value;
        assert RowAt(run[k], u);
        PutUserFresh(run, k, s.cache, on, u, s.clock, d, bounded);
      }
    }
  }

  lemma SignInFresh(c: Config, run: seq<State>, k: int, e: Step, d: nat, bounded: bool)
    requires 0 <= k < |run| && Inv(c, run[k], false) && CacheFresh(run, k, run[k].cache, d, bounded)
    requires e.SignIn? && Enabled(c, run[k], e) && (bounded ==> !c.authCache)
    ensures CacheFresh(run, k, Next(c, run[k], e).cache, d, bounded)
  {
    var s := run[k];
    if !SignInByCache(c, s, e.login, e.password) && e.answer > 0 && c.authCache {
      ReadFresh(c, run, k, true, e.answer, d, bounded);
      RowOk(c, s, false, e.answer);
      RowRefines(s.shards, e.answer);
      var u := Found(s, true, e.answer);
      var j :| 0 <= j <= k < |run| && RowAt(run[j], u);
      assert WasRow(run, k, u, s.clock - d, bounded);
      PutUserFresh(run, k, Read(s, true, e.answer).cache, true, u, s.clock, d, bounded);
    }
  }

  /** What a request is about to put was a row at most d before. */
  lemma TaskWasRow(run: seq<State>, steps: seq<Step>, k: int, task: nat, x: Task, d: nat, bounded: bool)
    requires |run| == |steps| + 1 && 0 <= k < |steps| && steps[k] == Put(task)
    requires TaskFresh(run, steps, k, task, x, bounded) && (bounded ==> PutsWithin(run, steps, d))
    ensures WasRow(run, k, x.user, run[k].clock - d, bounded)
  {
    if x.caller.BySignIn? {
      var j :| 0 <= j <= k < |run| && RowAt(run[j], x.user);
      assert WasRow(run, k, x.user, run[k].clock - d, bounded);
    } else {
      var f :| LastFetch(steps, k, task, f) && RowAt(run[f], x.user);
      assert WasRow(run, k, x.user, run[k].clock - d, bounded);
    }
  }

  lemma PutStepFresh(c: Config, run: seq<State>, steps: seq<Step>, k: int, task: nat, d: nat, bounded: bool)
    requires |run| == |steps| + 1 && 0 <= k < |steps| && steps[k] == Put(task) && Enabled(c, run[k], Put(task))
    requires FreshAt(run, steps, k, d, bounded) && (bounded ==> PutsWithin(run, steps, d))
    ensures CacheFresh(run, k, PutTask(run[k], task).cache, d, bounded)
  {
    var s := run[k];
    var x := s.tasks[task];
    TaskWasRow(run, steps, k, task, x, d, bounded);
    PutFresh(run, k, s.cache, true, x.Key(), x.user, s.clock, d, bounded);
  }

  /** The reads of whole requests. */
  predicate ReadsOnce(e: Step) {
    e.Validate? || e.Get? || e.Edit? || e.Delete?
  }

  /** A step that reads once leaves the cache of that read, or the one there was. */
  lemma ReadStepCache(c: Config, s: State, e: Step)
    requires Enabled(c, s, e) && ReadsOnce(e)
    ensures
      var on := if e.Validate? then c.authCache else c.userCache;
      || Next(c, s, e).cache == s.cache
      || (e.Validate? && e.token.Signed? && Next(c, s, e).cache == Read(s, on, e.token.id).cache)
      || ((e.Get? || e.Delete?) && Next(c, s, e).cache == Read(s, on, e.id).cache)
      || (e.Edit? && Id in e.changes && e.changes[Id].Num? && Next(c, s, e).cache == Read(s, on, e.changes[Id].n).cache)
  {
  }

  lemma ReadStepFresh(c: Config, run: seq<State>, k: int, e: Step, d: nat, bounded: bool)
    requires 0 <= k < |run| && Inv(c, run[k], false) && CacheFresh(run, k, run[k].cache, d, bounded)
    requires Enabled(c, run[k], e) && ReadsOnce(e)
    ensures CacheFresh(run, k, Next(c, run[k], e).cache, d, bounded)
  {
    ReadStepCache(c, run[k], e);
    if e.Validate? && e.token.Signed? {
      ReadFresh(c, run, k, c.authCache, e.token.id, d, bounded);
    } else if e.Get? || e.Delete? {
      ReadFresh(c, run, k, c.userCache, e.id, d, bounded);
    } else if e.Edit? && Id in e.changes && e.changes[Id].Num? {
      ReadFresh(c, run, k, c.userCache, e.changes[Id].n, d, bounded);
    }
  }

  lemma SearchFresh(c: Config, run: seq<State>, k: int, e: Step, d: nat, bounded: bool)
    requires 0 <= k < |run| && CacheFresh(run, k, run[k].cache, d, bounded) && Enabled(c, run[k], e) && e.Search?
    ensures CacheFresh(run, k, Next(c, run[k], e).cache, d, bounded)
  {
    var s := run[k];
    var left := CachedRows(s.cache, s.clock, c.userCache, SearchKey(e.like));
    PutListFresh(run, k, s.cache, c.userCache, RewriteQuery(e.like), left + e.rows, s.clock, d, bounded);
  }

  lemma SaveSearchFresh(c: Config, run: seq<State>, k: int, task: nat, d: nat, bounded: bool)
    requires 0 <= k < |run| && CacheFresh(run, k, run[k].cache, d, bounded) && Enabled(c, run[k], SaveSearch(task))
    ensures CacheFresh(run, k, SaveScan(c, run[k], task).cache, d, bounded)
  {
    var s, x := run[k], run[k].scans[task];
    PutListFresh(run, k, s.cache, c.userCache, RewriteQuery(x.like), x.rows, s.clock, d, bounded);
  }

  lemma CacheStepFresh(c: Config, run: seq<State>, steps: seq<Step>, k: int, d: nat, bounded: bool)
    requires |run| == |steps| + 1 && 0 <= k < |steps| && Inv(c, run[k], false) && FreshAt(run, steps, k, d, bounded)
    requires Enabled(c, run[k], steps[k]) && (bounded ==> PromptPuts(c, run, steps, d))
    ensures CacheFresh(run, k, Next(c, run[k], steps[k]).cache, d, bounded)
  {
    var e := steps[k];
    if e.SignIn? {
      SignInFresh(c, run, k, e, d, bounded);
    } else if e.Search? {
      SearchFresh(c, run, k, e, d, bounded);
    } else if e.SaveSearch? {
      SaveSearchFresh(c, run, k, e.task, d, bounded);
    } else if e.Put? {
      PutStepFresh(c, run, steps, k, e.task, d, bounded);
    } else if ReadsOnce(e) {
      ReadStepFresh(c, run, k, e, d, bounded);
    } else {
      FlightFrame(c, run[k], e);
    }
  }

  /** Requests in flight only come from a fetch, keep their user, and do not go back to an earlier put. */
  ghost predicate TasksKept(tasks: map<nat, Task>, tasks': map<nat, Task>) {
    forall t :: t in tasks' && tasks'[t].stage != Ready ==>
      && t in tasks && tasks[t].stage != Ready
      && tasks'[t].user == tasks[t].user && tasks'[t].caller == tasks[t].caller
  }

  lemma TasksKeepUsers(c: Config, s: State, e: Step)
    requires Enabled(c, s, e) && !e.Fetch?
    ensures TasksKept(s.tasks, Next(c, s, e).tasks)
  {
    if e.EditFetched? || e.DeleteFetched? || e.Finish? {
      TaskFrame(c, s, e, Next(c, s, e));
    } else if !e.Put? {
      FlightFrame(c, s, e);
    }
  }

  lemma HoldsRowLater(run: seq<State>, steps: seq<Step>, k: int, task: nat, u: User)
    requires |run| == |steps| + 1 && 0 <= k < |steps| && HoldsRow(run, steps, k, task, u) && !Fetches(steps[k], task)
    ensures HoldsRow(run, steps, k + 1, task, u)
  {
    var f :| LastFetch(steps, k, task, f) && RowAt(run[f], u);
    assert LastFetch(steps, k + 1, task, f);
  }

  lemma TaskLater(run: seq<State>, steps: seq<Step>, k: int, t: nat, x: Task, bounded: bool)
    requires |run| == |steps| + 1 && 0 <= k < |steps| && !Fetches(steps[k], t)
    requires TaskFresh(run, steps, k, t, x, bounded)
    ensures TaskFresh(run, steps, k + 1, t, x, bounded)
  {
    if x.caller.BySignIn? {
      WasRowLater(run, k, k + 1, x.user, 0, 0, false);
    } else {
      HoldsRowLater(run, steps, k, t, x.user);
    }
  }

  lemma TasksLater(run: seq<State>, steps: seq<Step>, k: int, tasks: map<nat, Task>, bounded: bool)
    requires |run| == |steps| + 1 && 0 <= k < |steps| && TasksFresh(run, steps, k, run[k].tasks, bounded)
    requires !steps[k].Fetch? && TasksKept(run[k].tasks, tasks)
    ensures TasksFresh(run, steps, k + 1, tasks, bounded)
  {
    forall t | t in tasks && tasks[t].stage != Ready
      ensures TaskFresh(run, steps, k + 1, t, tasks[t], bounded)
    {
      TaskLater(run, steps, k, t, run[k].tasks[t], bounded);
    }
  }

  /** A fetch that will put its user has just read it from the rows, unless a sign-in found it in the cache. */
  lemma FetchedRow(c: Config, s: State, e: Step)
    requires Inv(c, s, false) && e.Fetch? && Enabled(c, s, e)
    ensures
      var x := Next(c, s, e).tasks[e.task];
      && x.caller == e.caller && x.user == Found(s, On(c, e.caller), e.id) && x.user.id > 0
      && (x.stage != Ready && !e.caller.BySignIn? ==> RowAt(s, x.user))
  {
    RowOk(c, s, false, e.id);
  }

  lemma FetchTaskFresh(c: Config, run: seq<State>, steps: seq<Step>, k: int, d: nat, bounded: bool)
    requires |run| == |steps| + 1 && 0 <= k < |steps| && steps[k].Fetch? && Enabled(c, run[k], steps[k])
    requires Inv(c, run[k], false) && FreshAt(run, steps, k, d, bounded) && (bounded ==> !c.authCache)
    ensures
      var x := Next(c, run[k], steps[k]).tasks[steps[k].task];
      x.stage != Ready ==> TaskFresh(run, steps, k + 1, steps[k].task, x, bounded)
  {
    var e := steps[k];
    var x := Next(c, run[k], e).tasks[e.task];
    FetchedRow(c, run[k], e);
    if e.caller.BySignIn? {
      ReadFresh(c, run, k, On(c, e.caller), e.id, d, bounded);
      var j :| 0 <= j <= k < |run| && RowAt(run[j], x.user);
      assert WasRow(run, k + 1, x.user, 0, false);
    } else {
      assert LastFetch(steps, k + 1, e.task, k);
    }
  }

  lemma FetchFresh(c: Config, run: seq<State>, steps: seq<Step>, k: int, d: nat, bounded: bool)
    requires |run| == |steps| + 1 && 0 <= k < |steps| && steps[k].Fetch? && Enabled(c, run[k], steps[k])
    requires Inv(c, run[k], false) && FreshAt(run, steps, k, d, bounded) && (bounded ==> !c.authCache)
    ensures TasksFresh(run, steps, k + 1, Next(c, run[k], steps[k]).tasks, bounded)
  {
    var tasks := Next(c, run[k], steps[k]).tasks;
    FetchTaskFresh(c, run, steps, k, d, bounded);
    forall t | t in tasks && tasks[t].stage != Ready
      ensures TaskFresh(run, steps, k + 1, t, tasks[t], bounded)
    {
      if t != steps[k].task {
        TaskLater(run, steps, k, t, run[k].tasks[t], bounded);
      }
    }
  }

  lemma StepFresh(c: Config, run: seq<State>, steps: seq<Step>, k: int, d: nat, bounded: bool)
    requires |run| == |steps| + 1 && 0 <= k < |steps| && Inv(c, run[k], false) && FreshAt(run, steps, k, d, bounded)
    requires StepAt(c, run, steps, k) && (bounded ==> PromptPuts(c, run, steps, d))
    ensures FreshAt(run, steps, k + 1, d, bounded)
  {
    CacheStepFresh(c, run, steps, k, d, bounded);
    CacheFreshLater(run, k, k + 1, run[k + 1].cache, d, bounded);
    if steps[k].Fetch? {
      FetchFresh(c, run, steps, k, d, bounded);
    } else {
      TasksKeepUsers(c, run[k], steps[k]);
      TasksLater(run, steps, k, run[k + 1].tasks, bounded);
    }
  }

  lemma {:induction false} RunFresh(c: Config, run: seq<State>, steps: seq<Step>, k: nat, d: nat, bounded: bool)
    requires IsRun(c, run, steps) && k < |run| && (bounded ==> PromptPuts(c, run, steps, d))
    ensures FreshAt(run, steps, k, d, bounded)
  {
    if k > 0 {
      RunFresh(c, run, steps, k - 1, d, bounded);
      RunInv(c, run, steps, k - 1, false);
      assert StepAt(c, run, steps, k - 1);
      StepFresh(c, run, steps, k - 1, d, bounded);
    }
  }

  /** Any answer of get_by_id, under any interleaving and with any re-puts, was once the complete row of its id. */
  lemma AnswersWereRows(c: Config, run: seq<State>, steps: seq<Step>, k: nat, on: bool, id: int)
    requires IsRun(c, run, steps) && k < |run|
    ensures HasShards(run[k])
    ensures Found(run[k], on, id).id > 0 ==>
              exists j :: 0 <= j <= k && RowAt(run[j], Found(run[k], on, id))
  {
    RunInv(c, run, steps, k, false);
    RunFresh(c, run, steps, k, 0, false);
    ReadFresh(c, run, k, on, id, 0, false);
  }

  /** The answer for id at state k, if any, was the row at most age time units before. */
  ghost predicate AnswerWithin(run: seq<State>, k: nat, on: bool, id: int, age: int)
    requires k < |run|
  {
    HasShards(run[k]) &&
    (Found(run[k], on, id).id > 0 ==>
       exists j :: 0 <= j <= k && RowAt(run[j], Found(run[k], on, id)) && run[k].clock - run[j].clock <= age)
  }

  /** Without a cache in the sign-in service, and with every put within d of its select, an answer is the row as it
      stood at most 60 + d time units ago; a service without a cache answers the row as it is. */
  lemma BoundedStaleness(c: Config, run: seq<State>, steps: seq<Step>, k: nat, on: bool, id: int, d: nat)
    requires IsRun(c, run, steps) && k < |run| && !c.authCache && PutsWithin(run, steps, d)
    ensures AnswerWithin(run, k, on, id, if on then 60 + d else 0)
  {
    RunInv(c, run, steps, k, false);
    RunFresh(c, run, steps, k, d, true);
    ReadFresh(c, run, k, on, id, d, true);
  }

  /** An answer that is another user's is a live object put under that user's login, the text of the id. */
  lemma OtherUserHit(c: Config, s: State, on: bool, id: int)
    requires Inv(c, s, false)
    ensures
      var u := Found(s, on, id);
      u.id > 0 && u.id != id ==>
        u == CachedUser(s.cache, s.clock, on, ToString(id)) && u.login == ToString(id) &&
        u.id in T(s) && T(s)[u.id].login == ToString(id)
  {
    var hit := CachedUser(s.cache, s.clock, on, ToString(id));
    CachedUserOk(T(s), s.cache, s.clock, on, ToString(id), false);
    RowOk(c, s, false, id);
    if hit.id > 0 && ToString(id) == ToString(hit.id) {
      ToStringInjective(id, hit.id);
    }
  }

  /** The login of another row is the decimal text of id. */
  ghost predicate LoginIsText(t: Table, id: int, j: int) {
    j in t && j != id && t[j].login == ToString(id)
  }

  ghost predicate AnswersOther(c: Config, s: State, id: int) {
    HasShards(s) && Found(s, c.userCache, id).id > 0 && Found(s, c.userCache, id).id != id
  }

  ghost predicate WaitsAndGets(steps: seq<Step>) {
    forall i :: 0 <= i < |steps| ==> steps[i].Tick? || steps[i].Get?
  }

  ghost predicate LeadsToOther(c: Config, run: seq<State>, steps: seq<Step>, s: State, id: int) {
    Moves(c, run, steps) && run[0] == s && WaitsAndGets(steps) && AnswersOther(c, run[|steps|], id)
  }

  /** Waiting and reading alone can lead to a state that answers another user for id. */
  ghost predicate CanAnswerOther(c: Config, s: State, id: int) {
    exists run, steps :: LeadsToOther(c, run, steps, s, id)
  }

  lemma {:induction false} WaitsKeepRows(c: Config, run: seq<State>, steps: seq<Step>, k: nat)
    requires Moves(c, run, steps) && WaitsAndGets(steps) && k < |run|
    ensures run[k].shards == run[0].shards
  {
    if k > 0 {
      WaitsKeepRows(c, run, steps, k - 1);
      assert StepAt(c, run, steps, k - 1);
    }
  }

  /** A row read after all entries died is answered under its login too. */
  lemma ReadAfterDeath(c: Config, s: State, s1: State, s2: State, id: int, j: int)
    requires Inv(c, s, false) && TimesOk(s) && c.userCache && LoginIsText(T(s), id, j)
    requires s1 == s.(clock := s.clock + LIFETIME + 1) && s2 == Read(s1, true, j)
    ensures Does(c, s, Tick(LIFETIME + 1), s1) && Does(c, s1, Get(j), s2)
    ensures Found(s2, true, id) == T(s)[j] && j > 0
  {
    RowRefines(s1.shards, j);
    PutUserReads(s1.cache, s1.clock, T(s)[j], ToString(id));
  }

  lemma OtherIsLogin(c: Config, s: State, last: State, id: int)
    requires Inv(c, last, false) && last.shards == s.shards && AnswersOther(c, last, id)
    ensures HasShards(s) ==> exists j :: LoginIsText(T(s), id, j)
  {
    OtherUserHit(c, last, c.userCache, id);
    if HasShards(s) {
      assert LoginIsText(T(s), id, Found(last, c.userCache, id).id);
    }
  }

  lemma OtherHasLogin(c: Config, s: State, id: int)
    requires Reachable(c, s) && HasShards(s) && CanAnswerOther(c, s, id)
    ensures exists j :: LoginIsText(T(s), id, j)
  {
    var run, steps :| LeadsToOther(c, run, steps, s, id);
    var last := run[|steps|];
    MovesReachable(c, run, steps);
    ReachableInv(c, last);
    WaitsKeepRows(c, run, steps, |steps|);
    OtherIsLogin(c, s, last, id);
  }

  lemma LoginIsAnswered(c: Config, s: State, id: int, j: int)
    requires Inv(c, s, false) && TimesOk(s) && c.userCache && LoginIsText(T(s), id, j)
    ensures CanAnswerOther(c, s, id)
  {
    var s1 := s.(clock := s.clock + LIFETIME + 1);
    var s2 := Read(s1, true, j);
    ReadAfterDeath(c, s, s1, s2, id, j);
    TwoSteps(c, s, Tick(LIFETIME + 1), s1, Get(j), s2);
    var run, steps := [s, s1, s2], [Tick(LIFETIME + 1), Get(j)];
    assert WaitsAndGets(steps);
    assert LeadsToOther(c, run, steps, s, id);
  }

  /** get_by_id can come to answer another user for id exactly when some other row's login is the text of id. */
  lemma OwnRowExactly(c: Config, s: State, id: int)
    requires Reachable(c, s) && c.userCache
    ensures HasShards(s)
    ensures CanAnswerOther(c, s, id) <==> exists j :: LoginIsText(T(s), id, j)
  {
    ReachableInv(c, s);
    if CanAnswerOther(c, s, id) {
      OtherHasLogin(c, s, id);
    }
    if j :| LoginIsText(T(s), id, j) {
      ReachableTimes(c, s);
      LoginIsAnswered(c, s, id, j);
    }
  }

  /** A stale value u of a live, changed row lies under both its keys, as old as an entry can be. */
  ghost predicate StaleHeld(c: Config, s: State, u: User) {
    && HasShards(s) && c.authCache && u.id > 0
    && CachedUser(s.cache, s.clock, true, ToString(u.id)) == u
    && CachedUser(s.cache, s.clock + LIFETIME, true, ToString(u.id)) == u
    && u.id in T(s) && T(s)[u.id].login == u.login && !T(s)[u.id].deleted && T(s)[u.id].password != u.password
    && (var other := CachedUser(s.cache, s.clock + LIFETIME, true, u.login);
        other.id > 0 ==> other.password != T(s)[u.id].password)
  }

  lemma ReSignIn(c: Config, s1: State, u: User, e: Step)
    requires Inv(c, s1, false) && HasShards(s1) && c.authCache && u.id in T(s1)
    requires e == SignIn(u.login, T(s1)[u.id].password, u.id) && u.id > 0
    requires T(s1)[u.id].login == u.login && !T(s1)[u.id].deleted
    requires CachedUser(s1.cache, s1.clock, true, ToString(u.id)) == u
    requires !SignInByCache(c, s1, e.login, e.password)
    ensures Enabled(c, s1, e) && Next(c, s1, e) == s1.(cache := PutUser(s1.cache, s1.clock, true, u))
  {
    RowOk(c, s1, false, u.id);
    assert Found(s1, true, u.id) == u;
  }

  /** A value just put is held for another full life. */
  lemma HeldAfterPut(c: Config, s: State, s': State, u: User)
    requires StaleHeld(c, s, u)
    requires s' == s.(clock := s.clock + LIFETIME, cache := PutUser(s.cache, s.clock + LIFETIME, true, u))
    ensures StaleHeld(c, s', u)
  {
    DecodeWithPassword(u);
  }

  lemma HeldOneLife(c: Config, s: State, u: User, s1: State, e: Step)
    requires Inv(c, s, false) && StaleHeld(c, s, u) && s1 == s.(clock := s.clock + LIFETIME)
    requires e == SignIn(u.login, T(s)[u.id].password, u.id)
    ensures T(s1) == T(s) && CachedUser(s1.cache, s1.clock, true, ToString(u.id)) == u
    ensures !SignInByCache(c, s1, e.login, e.password) && Inv(c, s1, false)
  {
  }

  /** One round: wait out the life of the entry, then sign in with the row's own password. */
  lemma RePutRound(c: Config, s: State, u: User) returns (s1: State, e: Step, s2: State)
    requires Inv(c, s, false) && StaleHeld(c, s, u)
    ensures Enabled(c, s, Tick(LIFETIME)) && s1 == Next(c, s, Tick(LIFETIME))
    ensures Enabled(c, s1, e) && s2 == Next(c, s1, e) && e.SignIn?
    ensures StaleHeld(c, s2, u) && Inv(c, s2, false)
    ensures s1.shards == s2.shards == s.shards && s2.clock == s.clock + 60
  {
    s1 := s.(clock := s.clock + LIFETIME);
    e := SignIn(u.login, T(s)[u.id].password, u.id);
    HeldOneLife(c, s, u, s1, e);
    ReSignIn(c, s1, u, e);
    NextInv(c, s1, false, e);
    s2 := s1.(cache := PutUser(s1.cache, s1.clock, true, u));
    HeldAfterPut(c, s, s2, u);
  }

  /** No state of the segment has u as a row. */
  ghost predicate NeverRow(run: seq<State>, sh: seq<Table>, u: User) {
    forall k :: 0 <= k < |run| ==> run[k].shards == sh && HasShards(run[k]) && !RowAt(run[k], u)
  }

  lemma NeverRowLonger(rest: seq<State>, s: State, s1: State, u: User)
    requires NeverRow(rest, s.shards, u) && |rest| > 0 && s1.shards == s.shards && HasShards(s) && HasShards(s1)
    ensures NeverRow([s] + ([s1] + rest), s.shards, u)
  {
    var run := [s] + ([s1] + rest);
    forall k | 0 <= k < |run|
      ensures run[k].shards == s.shards && HasShards(run[k]) && !RowAt(run[k], u)
    {
      assert !RowAt(rest[0], u) && rest[0].shards == s.shards;
      assert k >= 2 ==> run[k] == rest[k - 2];
    }
  }

  lemma StaleAnswer(c: Config, s: State, u: User)
    requires StaleHeld(c, s, u)
    ensures Found(s, true, u.id) == u && NeverRow([s], s.shards, u)
  {
  }

  ghost predicate WaitsAndSignsIn(steps: seq<Step>) {
    forall i :: 0 <= i < |steps| ==> steps[i].Tick? || steps[i].SignIn?
  }

  lemma PrependRound(c: Config, s: State, s1: State, e: Step, rest: seq<State>, more: seq<Step>)
    returns (run: seq<State>, steps: seq<Step>)
    requires Moves(c, rest, more) && Enabled(c, s, Tick(LIFETIME)) && s1 == Next(c, s, Tick(LIFETIME))
    requires Enabled(c, s1, e) && Next(c, s1, e) == rest[0] && e.SignIn? && WaitsAndSignsIn(more)
    ensures run == [s] + ([s1] + rest) && Moves(c, run, steps) && WaitsAndSignsIn(steps)
    ensures |run| == |rest| + 2 && run[0] == s && run[|run| - 1] == rest[|rest| - 1]
  {
    PrependStep(c, s1, e, rest, more);
    PrependStep(c, s, Tick(LIFETIME), [s1] + rest, [e] + more);
    run, steps := [s] + ([s1] + rest), [Tick(LIFETIME)] + ([e] + more);
  }

  /** The last state is n lives later and still answers u, which no state of the run has as a row. */
  ghost predicate KeptStale(run: seq<State>, s: State, u: User, n: nat) {
    && |run| > 0 && run[0] == s && NeverRow(run, s.shards, u)
    && var last := run[|run| - 1];
       last.clock == s.clock + LIFETIME * n && HasShards(last) && Found(last, true, u.id) == u
  }

  /** With a cache in the sign-in service there is no bound: for every n some continuation still answers the
      outdated value after 60 n time units, although no row equals it on the way. */
  lemma {:induction false} NoBoundWithRePut(c: Config, s: State, u: User, n: nat)
    returns (run: seq<State>, steps: seq<Step>)
    requires Inv(c, s, false) && StaleHeld(c, s, u)
    ensures Moves(c, run, steps) && WaitsAndSignsIn(steps) && KeptStale(run, s, u, n)
    decreases n
  {
    StaleAnswer(c, s, u);
    if n == 0 {
      run, steps := [s], [];
    } else {
      var s1, e, s2 := RePutRound(c, s, u);
      var rest, more := NoBoundWithRePut(c, s2, u, n - 1);
      run, steps := PrependRound(c, s, s1, e, rest, more);
      NeverRowLonger(rest, s, s1, u);
    }
  }
}
