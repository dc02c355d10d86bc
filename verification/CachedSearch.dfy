/** What a cached search answers: the rows of actual selects with the asked statement, and how old they are. */
module CachedSearch {
  import opened Users
  import opened Patterns
  import opened Sharding
  import opened CacheModel
  import opened System
  import opened Frames
  import opened Invariant
  import opened Times
  import opened SearchKeys
  import opened Scenarios

  predicate StartsSearch(e: Step, task: nat) {
    e.StartSearch? && e.task == task
  }

  predicate SelectsFor(e: Step, task: nat) {
    e.SelectShard? && e.task == task
  }

  /** Step f is the last start of the search before step k. */
  ghost predicate LastStart(steps: seq<Step>, k: int, task: nat, f: int) {
    0 <= f < k <= |steps| && StartsSearch(steps[f], task) && forall m :: f < m < k ==> !StartsSearch(steps[m], task)
  }

  /** The shard of u's id answered u when it was read; at[m] is the state in which shard m was read. */
  ghost predicate RowRead(c: Config, run: seq<State>, at: seq<int>, sql: Sql, u: User) {
    var m := ShardOf(u.id, c.maxShard + 1);
    m < |at| && 0 <= at[m] < |run| && HasShards(run[at[m]]) && Answers(T(run[at[m]]), sql, u)
  }

  /** The rows are exactly those answers, once each. */
  ghost predicate RowsRead(c: Config, run: seq<State>, at: seq<int>, sql: Sql, rows: seq<User>) {
    forall u :: multiset(rows)[u] == if RowRead(c, run, at, sql, u) then 1 else 0
  }

  /** The reads are the selects of the search since its start, one shard after the other. */
  ghost predicate ReadsOf(steps: seq<Step>, k: int, task: nat, f: int, at: seq<int>) {
    && LastStart(steps, k, task, f)
    && (forall m :: 0 <= m < |at| ==> f < at[m] < k && SelectsFor(steps[at[m]], task))
    && (forall m :: 0 < m < |at| ==> at[m - 1] < at[m])
  }

  ghost predicate ScanReads(c: Config, run: seq<State>, steps: seq<Step>, k: int, task: nat, x: Scan,
                            f: int, at: seq<int>) {
    && ReadsOf(steps, k, task, f, at) && steps[f].like == x.like
    && |at| == x.next && RowsRead(c, run, at, SqlOf(x.like), x.rows)
  }

  /** A search in progress has what its selects so far answered. */
  ghost predicate ScanFrom(c: Config, run: seq<State>, steps: seq<Step>, k: int, task: nat, x: Scan) {
    exists f, at :: ScanReads(c, run, steps, k, task, x, f, at)
  }

  ghost predicate ScansFrom(c: Config, run: seq<State>, steps: seq<Step>, k: int, scans: map<nat, Scan>) {
    forall t :: t in scans ==> ScanFrom(c, run, steps, k, t, scans[t])
  }

  /** The search with query q reads all shards in the step that saves, or by selects before it. */
  ghost predicate ReadsBefore(steps: seq<Step>, p: int, q: Query, at: seq<int>)
    requires 0 <= p < |steps|
  {
    || (steps[p].Search? && steps[p].like == q && forall m :: 0 <= m < |at| ==> at[m] == p)
    || (steps[p].SaveSearch? && exists f :: ReadsOf(steps, p, steps[p].task, f, at) && steps[f].like == q)
  }

  /** Step p saves what an actual search with query q read from every shard. */
  ghost predicate SavedAt(c: Config, run: seq<State>, steps: seq<Step>, p: int, q: Query,
                          at: seq<int>, rows: seq<User>) {
    && |run| == |steps| + 1 && 0 <= p < |steps|
    && |at| == c.maxShard + 1 && ReadsBefore(steps, p, q, at) && RowsRead(c, run, at, SqlOf(q), rows)
  }

  ghost predicate EntrySaved(c: Config, run: seq<State>, steps: seq<Step>, k: int, key: string, e: Entry,
                             p: int, q: Query, at: seq<int>, rows: seq<User>) {
    && SavedAt(c, run, steps, p, q, at, rows) && p < k && run[p].clock == e.putAt
    && key == SearchKey(RewriteQuery(q)) && e.value == Arr(Encoded(rows))
  }

  /** A list in the cache is what some earlier search read, under the key of its rewritten query. */
  ghost predicate ListFrom(c: Config, run: seq<State>, steps: seq<Step>, k: int, key: string, e: Entry) {
    exists p, q, at, rows :: EntrySaved(c, run, steps, k, key, e, p, q, at, rows)
  }

  ghost predicate ListsFrom(c: Config, run: seq<State>, steps: seq<Step>, k: int, es: Entries) {
    forall key :: key in es && es[key].value.Arr? ==> ListFrom(c, run, steps, k, key, es[key])
  }

  /** The lists of es' were in es already. */
  ghost predicate NoNewLists(es: Entries, es': Entries) {
    forall key :: key in es' && es'[key].value.Arr? ==> key in es && es'[key] == es[key]
  }

  lemma ReadPutsObjects(s: State, on: bool, id: int)
    requires HasShards(s)
    ensures NoNewLists(s.cache, Read(s, on, id).cache)
  {
  }

  lemma PutUserPutsObjects(es: Entries, now: int, u: User)
    ensures NoNewLists(es, PutUser(es, now, true, u))
  {
  }

  lemma SignInPutsObjects(c: Config, s: State, e: Step)
    requires Enabled(c, s, e) && e.SignIn?
    ensures NoNewLists(s.cache, Next(c, s, e).cache)
  {
    if !SignInByCache(c, s, e.login, e.password) && e.answer > 0 && c.authCache {
      ReadPutsObjects(s, true, e.answer);
      PutUserPutsObjects(Read(s, true, e.answer).cache, s.clock, Found(s, true, e.answer));
    }
  }

  lemma ChangesPutObjects(c: Config, s: State, e: Step)
    requires Enabled(c, s, e) && (e.Edit? || e.Delete?)
    ensures NoNewLists(s.cache, Next(c, s, e).cache)
  {
    if e.Delete? {
      ReadPutsObjects(s, c.userCache, e.id);
    } else if Id in e.changes && e.changes[Id].Num? {
      ReadPutsObjects(s, c.userCache, e.changes[Id].n);
    }
  }

  /** Only a search puts lists. */
  lemma OtherStepsPutObjects(c: Config, s: State, e: Step)
    requires Enabled(c, s, e) && !e.Search? && !e.SaveSearch?
    ensures NoNewLists(s.cache, Next(c, s, e).cache)
  {
    if e.SignIn? {
      SignInPutsObjects(c, s, e);
    } else if e.Edit? || e.Delete? {
      ChangesPutObjects(c, s, e);
    } else if e.Validate? && e.token.Signed? {
      ReadPutsObjects(s, c.authCache, e.token.id);
    } else if e.Get? {
      ReadPutsObjects(s, c.userCache, e.id);
    }
  }

  lemma ScanLater(c: Config, run: seq<State>, steps: seq<Step>, k: int, task: nat, x: Scan)
    requires ScanFrom(c, run, steps, k, task, x) && 0 <= k < |steps| && !StartsSearch(steps[k], task)
    ensures ScanFrom(c, run, steps, k + 1, task, x)
  {
    var f, at :| ScanReads(c, run, steps, k, task, x, f, at);
    assert ScanReads(c, run, steps, k + 1, task, x, f, at);
  }

  /** One more shard read. */
  lemma ReadOneMore(c: Config, run: seq<State>, k: int, at: seq<int>, sql: Sql, rows: seq<User>, more: seq<User>)
    requires RowsRead(c, run, at, sql, rows) && 0 <= k < |run| && Shape(c, run[k]) && |at| <= c.maxShard
    requires IsListing(more, run[k].shards[|at|], sql)
    ensures RowsRead(c, run, at + [k], sql, rows + more)
  {
    var sh := run[k].shards;
    forall u
      ensures multiset(rows + more)[u] == if RowRead(c, run, at + [k], sql, u) then 1 else 0
    {
      assert multiset(rows + more)[u] == multiset(rows)[u] + multiset(more)[u];
      LogicalIsUnion(sh, |at|, u.id);
    }
  }

  lemma SelectFrom(c: Config, run: seq<State>, steps: seq<Step>, k: int, task: nat, rows: seq<User>)
    requires |run| == |steps| + 1 && 0 <= k < |steps| && steps[k] == SelectShard(task, rows)
    requires Shape(c, run[k]) && Enabled(c, run[k], steps[k]) && ScanFrom(c, run, steps, k, task, run[k].scans[task])
    ensures ScanFrom(c, run, steps, k + 1, task, SelectFor(run[k], task, rows).scans[task])
  {
    var x := run[k].scans[task];
    var f, at :| ScanReads(c, run, steps, k, task, x, f, at);
    ReadOneMore(c, run, k, at, SqlOf(x.like), x.rows, rows);
    var x' := SelectFor(run[k], task, rows).scans[task];
    assert ScanReads(c, run, steps, k + 1, task, x', f, at + [k]);
  }

  lemma StartFrom(c: Config, run: seq<State>, steps: seq<Step>, k: int, task: nat, like: Query)
    requires |run| == |steps| + 1 && 0 <= k < |steps| && steps[k] == StartSearch(task, like)
    ensures ScanFrom(c, run, steps, k + 1, task, Scan(like, [], 0))
  {
    assert ScanReads(c, run, steps, k + 1, task, Scan(like, [], 0), k, []);
  }

  /** What the step does to the search of one task. */
  lemma StepScan(c: Config, run: seq<State>, steps: seq<Step>, k: nat, t: nat)
    requires IsRun(c, run, steps) && k < |steps| && ScansFrom(c, run, steps, k, run[k].scans) && t in run[k + 1].scans
    ensures ScanFrom(c, run, steps, k + 1, t, run[k + 1].scans[t])
  {
    RunNext(c, run, steps, k);
    var e := steps[k];
    if e.StartSearch? && e.task == t {
      StartSearchInv(c, run[k], false, t, e.like);
      StartFrom(c, run, steps, k, t, e.like);
    } else if e.SelectShard? && e.task == t {
      SelectFrom(c, run, steps, k, t, e.rows);
    } else {
      if !IsScanStep(e) {
        FlightFrame(c, run[k], e);
      }
      assert t in run[k].scans && run[k + 1].scans[t] == run[k].scans[t];
      ScanLater(c, run, steps, k, t, run[k].scans[t]);
    }
  }

  lemma {:induction false} RunScans(c: Config, run: seq<State>, steps: seq<Step>, k: nat)
    requires IsRun(c, run, steps) && k < |run|
    ensures ScansFrom(c, run, steps, k, run[k].scans)
  {
    if k > 0 {
      RunScans(c, run, steps, k - 1);
      forall t | t in run[k].scans
        ensures ScanFrom(c, run, steps, k, t, run[k].scans[t])
      {
        StepScan(c, run, steps, k - 1, t);
      }
    }
  }

  lemma MissSavesList(c: Config, s: State, q: Query, rows: seq<User>)
    requires Inv(c, s, false) && Enabled(c, s, Search(q, rows))
    requires !ListHit(s.cache, s.clock, c.userCache, SearchKey(q))
    ensures Next(c, s, Search(q, rows)).cache == PutList(s.cache, s.clock, c.userCache, RewriteQuery(q), rows)
  {
    ListRowsOk(T(s), s.cache, s.clock, c.userCache, SearchKey(q), rows, SqlOf(q), false);
    assert [] + rows == rows;
  }

  /** A search in one step reads all shards at once. */
  lemma SearchSaves(c: Config, run: seq<State>, steps: seq<Step>, k: nat)
    requires IsRun(c, run, steps) && k < |steps| && steps[k].Search?
    requires !ListHit(run[k].cache, run[k].clock, c.userCache, SearchKey(steps[k].like))
    ensures run[k + 1].cache ==
            PutList(run[k].cache, run[k].clock, c.userCache, RewriteQuery(steps[k].like), steps[k].rows)
    ensures SavedAt(c, run, steps, k, steps[k].like, seq(c.maxShard + 1, _ => k), steps[k].rows)
  {
    RunNext(c, run, steps, k);
    MissSavesList(c, run[k], steps[k].like, steps[k].rows);
    var at := seq(c.maxShard + 1, _ => k);
    forall u
      ensures RowRead(c, run, at, SqlOf(steps[k].like), u) <==> Answers(T(run[k]), SqlOf(steps[k].like), u)
    {
    }
  }

  /** The save of a cut search has what its selects read. */
  lemma CutSearchSaves(c: Config, run: seq<State>, steps: seq<Step>, k: nat)
    returns (q: Query, at: seq<int>, rows: seq<User>)
    requires IsRun(c, run, steps) && k < |steps| && steps[k].SaveSearch?
    ensures run[k + 1].cache == PutList(run[k].cache, run[k].clock, c.userCache, RewriteQuery(q), rows)
    ensures SavedAt(c, run, steps, k, q, at, rows)
  {
    RunNext(c, run, steps, k);
    RunScans(c, run, steps, k);
    var x := run[k].scans[steps[k].task];
    var f;
    f, at :| ScanReads(c, run, steps, k, steps[k].task, x, f, at);
    q, rows := x.like, x.rows;
  }

  lemma ListLater(c: Config, run: seq<State>, steps: seq<Step>, k: int, key: string, e: Entry)
    requires ListFrom(c, run, steps, k, key, e)
    ensures ListFrom(c, run, steps, k + 1, key, e)
  {
    var p, q, at, rows :| EntrySaved(c, run, steps, k, key, e, p, q, at, rows);
    assert EntrySaved(c, run, steps, k + 1, key, e, p, q, at, rows);
  }

  lemma PutListFrom(c: Config, run: seq<State>, steps: seq<Step>, k: nat, q: Query, at: seq<int>, rows: seq<User>)
    requires |run| == |steps| + 1 && k < |steps| && ListsFrom(c, run, steps, k, run[k].cache)
    requires SavedAt(c, run, steps, k, q, at, rows)
    ensures ListsFrom(c, run, steps, k + 1, PutList(run[k].cache, run[k].clock, c.userCache, RewriteQuery(q), rows))
  {
    var es := PutList(run[k].cache, run[k].clock, c.userCache, RewriteQuery(q), rows);
    forall key | key in es && es[key].value.Arr?
      ensures ListFrom(c, run, steps, k + 1, key, es[key])
    {
      if c.userCache && key == SearchKey(RewriteQuery(q)) {
        assert EntrySaved(c, run, steps, k + 1, key, es[key], k, q, at, rows);
      } else {
        ListLater(c, run, steps, k, key, run[k].cache[key]);
      }
    }
  }

  lemma OldListsFrom(c: Config, run: seq<State>, steps: seq<Step>, k: nat, es: Entries, es': Entries)
    requires ListsFrom(c, run, steps, k, es) && NoNewLists(es, es')
    ensures ListsFrom(c, run, steps, k + 1, es')
  {
    forall key | key in es' && es'[key].value.Arr?
      ensures ListFrom(c, run, steps, k + 1, key, es'[key])
    {
      ListLater(c, run, steps, k, key, es[key]);
    }
  }

  lemma StepLists(c: Config, run: seq<State>, steps: seq<Step>, k: nat)
    requires IsRun(c, run, steps) && k < |steps| && ListsFrom(c, run, steps, k, run[k].cache)
    ensures ListsFrom(c, run, steps, k + 1, run[k + 1].cache)
  {
    RunNext(c, run, steps, k);
    var e := steps[k];
    if e.Search? && !ListHit(run[k].cache, run[k].clock, c.userCache, SearchKey(e.like)) {
      SearchSaves(c, run, steps, k);
      PutListFrom(c, run, steps, k, e.like, seq(c.maxShard + 1, _ => k), e.rows);
    } else if e.SaveSearch? {
      var q, at, rows := CutSearchSaves(c, run, steps, k);
      PutListFrom(c, run, steps, k, q, at, rows);
    } else {
      if !e.Search? {
        OtherStepsPutObjects(c, run[k], e);
      }
      OldListsFrom(c, run, steps, k, run[k].cache, run[k + 1].cache);
    }
  }

  lemma {:induction false} RunLists(c: Config, run: seq<State>, steps: seq<Step>, k: nat)
    requires IsRun(c, run, steps) && k < |run|
    ensures ListsFrom(c, run, steps, k, run[k].cache)
  {
    if k > 0 {
      RunLists(c, run, steps, k - 1);
      StepLists(c, run, steps, k - 1);
    }
  }

  /** Saved rows carry no password, so a saved list reads back as the very rows that were read. */
  lemma ListReadsBack(c: Config, run: seq<State>, at: seq<int>, sql: Sql, rows: seq<User>)
    requires RowsRead(c, run, at, sql, rows)
    ensures DecodedPrefix(Encoded(rows)) == rows
  {
    forall i | 0 <= i < |rows|
      ensures rows[i].password == ""
    {
      assert multiset(rows)[rows[i]] > 0;
      assert RowRead(c, run, at, sql, rows[i]);
    }
    DecodeEncodedList(rows);
  }

  lemma CountedTwice(rows: seq<User>, i: nat, j: nat)
    requires i < j < |rows| && rows[i] == rows[j]
    ensures multiset(rows)[rows[i]] >= 2
  {
    var before, after := rows[..j], rows[j..];
    assert rows == before + after && rows[i] == before[i] && rows[j] == after[0];
    assert multiset(rows) == multiset(before) + multiset(after);
    assert multiset(before)[rows[i]] > 0 && multiset(after)[rows[i]] > 0;
  }

  lemma ListedOnce(c: Config, run: seq<State>, at: seq<int>, sql: Sql, rows: seq<User>, i: nat, j: nat)
    requires RowsRead(c, run, at, sql, rows) && i < j < |rows|
    ensures rows[i].id != rows[j].id
  {
    assert multiset(rows)[rows[i]] > 0 && multiset(rows)[rows[j]] > 0;
    assert RowRead(c, run, at, sql, rows[i]) && RowRead(c, run, at, sql, rows[j]);
    if rows[i] == rows[j] {
      CountedTwice(rows, i, j);
    }
  }

  lemma RowsReadOnce(c: Config, run: seq<State>, at: seq<int>, sql: Sql, rows: seq<User>, i: nat)
    requires RowsRead(c, run, at, sql, rows) && i < |rows|
    ensures RowRead(c, run, at, sql, rows[i])
    ensures forall m :: 0 <= m < |rows| && m != i ==> rows[m].id != rows[i].id
  {
    assert multiset(rows)[rows[i]] > 0;
    forall m | 0 <= m < |rows| && m != i
      ensures rows[m].id != rows[i].id
    {
      if m < i {
        ListedOnce(c, run, at, sql, rows, m, i);
      } else {
        ListedOnce(c, run, at, sql, rows, i, m);
      }
    }
  }

  /** Rows may change between the shards of one search: it still lists no id twice, and each row as it stood when
      its shard was read. */
  lemma SearchListsOnce(c: Config, run: seq<State>, steps: seq<Step>, k: nat, task: nat, i: nat) returns (j: nat)
    requires IsRun(c, run, steps) && k < |run| && task in run[k].scans && i < |run[k].scans[task].rows|
    ensures j < k && SelectsFor(steps[j], task) && HasShards(run[j])
    ensures Answers(T(run[j]), SqlOf(run[k].scans[task].like), run[k].scans[task].rows[i])
    ensures forall m :: 0 <= m < |run[k].scans[task].rows| && m != i ==>
                          run[k].scans[task].rows[m].id != run[k].scans[task].rows[i].id
  {
    RunScans(c, run, steps, k);
    var x := run[k].scans[task];
    assert ScanFrom(c, run, steps, k, task, x);
    var f, at :| ScanReads(c, run, steps, k, task, x, f, at);
    RowsReadOnce(c, run, at, SqlOf(x.like), x.rows, i);
    var read: int := at[ShardOf(x.rows[i].id, c.maxShard + 1)];
    j := read;
  }

  /** Step p saved the rows the hit for the asked query answers, read with the same statement at most age before. */
  ghost predicate Answered(c: Config, run: seq<State>, steps: seq<Step>, k: int, asked: Query, age: int,
                           p: int, q: Query, at: seq<int>, rows: seq<User>)
    requires |run| == |steps| + 1 && 0 <= k < |run|
  {
    && SavedAt(c, run, steps, p, q, at, rows) && p < k && SqlOf(q) == SqlOf(asked)
    && rows == CachedRows(run[k].cache, run[k].clock, c.userCache, SearchKey(asked))
    && forall m :: 0 <= m < |at| ==> 0 <= at[m] <= p && run[k].clock - run[at[m]].clock <= age
  }

  /** The hit answers exactly what an actual search with the same statement read at most age time units ago. */
  ghost predicate HitFaithful(c: Config, run: seq<State>, steps: seq<Step>, k: int, asked: Query, age: int)
    requires |run| == |steps| + 1 && 0 <= k < |run|
  {
    exists p, q, at, rows :: Answered(c, run, steps, k, asked, age, p, q, at, rows)
  }

  ghost predicate SearchesAllowed(steps: seq<Step>, masks: set<Mask>) {
    forall i :: 0 <= i < |steps| && (steps[i].Search? || steps[i].StartSearch?) ==> Allowed(masks, steps[i].like)
  }

  /** Every cut search saves within d time units of its start. */
  ghost predicate SavesWithin(run: seq<State>, steps: seq<Step>, d: int)
    requires |run| == |steps| + 1
  {
    forall p, f :: 0 <= p < |steps| && steps[p].SaveSearch? && LastStart(steps, p, steps[p].task, f) ==>
      run[p].clock - run[f].clock <= d
  }

  /** What a search read is at most d older than its save. */
  lemma ReadsAge(c: Config, run: seq<State>, steps: seq<Step>, p: nat, q: Query, at: seq<int>, d: nat)
    requires IsRun(c, run, steps) && p < |steps| && SavesWithin(run, steps, d) && ReadsBefore(steps, p, q, at)
    ensures forall m :: 0 <= m < |at| ==> 0 <= at[m] <= p && run[p].clock - run[at[m]].clock <= d
  {
    if !steps[p].Search? {
      var f :| ReadsOf(steps, p, steps[p].task, f, at) && steps[f].like == q;
      forall m | 0 <= m < |at|
        ensures 0 <= at[m] <= p && run[p].clock - run[at[m]].clock <= d
      {
        RunClock(c, run, steps, f, at[m]);
      }
    }
  }

  lemma SavedAllowed(c: Config, run: seq<State>, steps: seq<Step>, p: int, q: Query, at: seq<int>, rows: seq<User>,
                     masks: set<Mask>)
    requires SavedAt(c, run, steps, p, q, at, rows) && SearchesAllowed(steps, masks)
    ensures Allowed(masks, q)
  {
    if !steps[p].Search? {
      var f :| ReadsOf(steps, p, steps[p].task, f, at) && steps[f].like == q;
      assert Allowed(masks, steps[f].like);
    } else {
      assert Allowed(masks, steps[p].like);
    }
  }

  /** A cache hit answers exactly what an actual search with the same statement read, shard by shard, at most 60 + d
      time units ago, on runs whose searches fill one and the same single field (or none) and save within d. */
  lemma CachedSearchFaithful(c: Config, run: seq<State>, steps: seq<Step>, k: nat, asked: Query, masks: set<Mask>,
                             d: nat)
    requires IsRun(c, run, steps) && k < |run| && SingleField(masks) && Allowed(masks, asked)
    requires SearchesAllowed(steps, masks) && SavesWithin(run, steps, d)
    requires ListHit(run[k].cache, run[k].clock, c.userCache, SearchKey(asked))
    ensures HitFaithful(c, run, steps, k, asked, 60 + d)
  {
    RunLists(c, run, steps, k);
    var key := SearchKey(asked);
    var e := run[k].cache[key];
    assert ListFrom(c, run, steps, k, key, e);
    var p, q, at, rows :| EntrySaved(c, run, steps, k, key, e, p, q, at, rows);
    SavedAllowed(c, run, steps, p, q, at, rows, masks);
    SingleFieldKeys(masks, q, asked);
    ListReadsBack(c, run, at, SqlOf(q), rows);
    ReadsAge(c, run, steps, p, q, at, d);
    assert Answered(c, run, steps, k, asked, 60 + d, p, q, at, rows);
  }

  /** All hits of all runs whose searches fill allowed sets of fields and save within d. */
  ghost predicate HitsFaithful(c: Config, masks: set<Mask>, d: int, age: int) {
    forall run: seq<State>, steps, k, asked ::
      IsRun(c, run, steps) && SearchesAllowed(steps, masks) && SavesWithin(run, steps, d) && 0 <= k < |run| &&
      Allowed(masks, asked) && ListHit(run[k].cache, run[k].clock, c.userCache, SearchKey(asked)) ==>
        HitFaithful(c, run, steps, k, asked, age)
  }

  /** A search of the empty system is answered again for the other query. */
  lemma UnfaithfulHit(c: Config, saved: Query, asked: Query, age: int) returns (run: seq<State>)
    requires c.userCache && SearchKey(RewriteQuery(saved)) == SearchKey(asked) && SqlOf(saved) != SqlOf(asked)
    ensures IsRun(c, run, [Search(saved, [])]) && ListHit(run[1].cache, run[1].clock, true, SearchKey(asked))
    ensures !HitFaithful(c, run, [Search(saved, [])], 1, asked, age)
  {
    EmptyRows(c);
    var s := EmptyState(c);
    assert IsListing([], T(s), SqlOf(saved));
    var s1 := s.(cache := PutList(s.cache, s.clock, true, RewriteQuery(saved), [] + []));
    AppendStep(c, [s], [], Search(saved, []), s1);
    run := [s] + [s1];
    assert [] + [Search(saved, [])] == [Search(saved, [])];
    DecodeEncodedList([]);
  }

  ghost function SelectSteps(n: nat): seq<Step> {
    seq(n, _ => SelectShard(7, []))
  }

  ghost function SlowSteps(c: Config, q: Query, d: nat): seq<Step> {
    [StartSearch(7, q)] + SelectSteps(c.maxShard + 1) + [Tick(d), SaveSearch(7), Tick(60)]
  }

  ghost function Scanned(c: Config, q: Query, n: nat): State {
    EmptyState(c).(scans := map[7 := Scan(q, [], n)])
  }

  lemma EmptyShard(c: Config, q: Query, n: nat)
    requires n <= c.maxShard
    ensures Does(c, Scanned(c, q, n), SelectShard(7, []), Scanned(c, q, n + 1))
  {
    assert IsListing([], EmptyState(c).shards[n], SqlOf(q));
    assert SelectFor(Scanned(c, q, n), 7, []).scans[7] == Scan(q, [], n + 1);
  }

  /** Nothing is found in the empty shards, and no time passes. */
  lemma {:induction false} SelectRun(c: Config, q: Query, n: nat) returns (run: seq<State>)
    requires n <= c.maxShard + 1
    ensures IsRun(c, run, [StartSearch(7, q)] + SelectSteps(n)) && |run| == n + 2 && run[n + 1] == Scanned(c, q, n)
    ensures forall j :: 0 <= j < |run| ==> run[j].clock == 0
  {
    if n == 0 {
      EmptyRows(c);
      AppendStep(c, [EmptyState(c)], [], StartSearch(7, q), Scanned(c, q, 0));
      run := [EmptyState(c)] + [Scanned(c, q, 0)];
      assert [] + [StartSearch(7, q)] == [StartSearch(7, q)] + SelectSteps(0);
    } else {
      run := SelectRun(c, q, n - 1);
      EmptyShard(c, q, n - 1);
      AppendStep(c, run, [StartSearch(7, q)] + SelectSteps(n - 1), SelectShard(7, []), Scanned(c, q, n));
      run := run + [Scanned(c, q, n)];
      assert SelectSteps(n) == SelectSteps(n - 1) + [SelectShard(7, [])];
      assert [StartSearch(7, q)] + SelectSteps(n) == [StartSearch(7, q)] + SelectSteps(n - 1) + [SelectShard(7, [])];
    }
  }

  /** A search that saves d after its selects is answered for a whole life more. */
  lemma SlowRun(c: Config, q: Query, d: nat) returns (run: seq<State>)
    requires c.userCache
    ensures IsRun(c, run, SlowSteps(c, q, d)) && |run| == c.maxShard + 6
    ensures forall j :: 0 <= j < c.maxShard + 3 ==> run[j].clock == 0
    ensures run[c.maxShard + 3].clock == d && run[c.maxShard + 5].clock == d + 60
    ensures run[c.maxShard + 5].cache == PutList(map[], d, true, RewriteQuery(q), [])
  {
    var n := c.maxShard + 1;
    run := SelectRun(c, q, n);
    var steps := [StartSearch(7, q)] + SelectSteps(n);
    var s1 := Scanned(c, q, n).(clock := d);
    var s2 := SaveScan(c, s1, 7);
    var s3 := s2.(clock := d + 60);
    AppendStep(c, run, steps, Tick(d), s1);
    AppendStep(c, run + [s1], steps + [Tick(d)], SaveSearch(7), s2);
    AppendStep(c, run + [s1] + [s2], steps + [Tick(d)] + [SaveSearch(7)], Tick(60), s3);
    run := run + [s1] + [s2] + [s3];
    assert steps + [Tick(d)] + [SaveSearch(7)] + [Tick(60)] == SlowSteps(c, q, d);
  }

  lemma SlowStepAt(c: Config, q: Query, d: nat, i: nat)
    requires i < |SlowSteps(c, q, d)|
    ensures |SlowSteps(c, q, d)| == c.maxShard + 5
    ensures SlowSteps(c, q, d)[i].SaveSearch? ==> i == c.maxShard + 3
    ensures SlowSteps(c, q, d)[i].SelectShard? ==> i < c.maxShard + 2
    ensures SlowSteps(c, q, d)[i].StartSearch? ==> i == 0 && SlowSteps(c, q, d)[i].like == q
    ensures !SlowSteps(c, q, d)[i].Search?
  {
  }

  lemma SlowSavesWithin(c: Config, run: seq<State>, q: Query, d: nat)
    requires |run| == c.maxShard + 6 && run[0].clock == 0 && run[c.maxShard + 3].clock == d
    ensures |SlowSteps(c, q, d)| + 1 == |run| && SavesWithin(run, SlowSteps(c, q, d), d)
  {
    var steps := SlowSteps(c, q, d);
    forall p, f | 0 <= p < |steps| && steps[p].SaveSearch? && LastStart(steps, p, steps[p].task, f)
      ensures run[p].clock - run[f].clock <= d
    {
      SlowStepAt(c, q, d, p);
      SlowStepAt(c, q, d, f);
    }
  }

  /** Its answer is 60 + d old: no younger reads can account for it. */
  lemma SlowHit(c: Config, run: seq<State>, q: Query, asked: Query, d: nat, age: int)
    requires |run| == c.maxShard + 6 && |SlowSteps(c, q, d)| + 1 == |run| && age < 60 + d
    requires forall j :: 0 <= j < c.maxShard + 3 ==> run[j].clock == 0
    requires run[c.maxShard + 5].clock == d + 60
    ensures !HitFaithful(c, run, SlowSteps(c, q, d), c.maxShard + 5, asked, age)
  {
    var steps, k := SlowSteps(c, q, d), c.maxShard + 5;
    forall p, q', at, rows
      ensures !Answered(c, run, steps, k, asked, age, p, q', at, rows)
    {
      if Answered(c, run, steps, k, asked, age, p, q', at, rows) {
        SlowStepAt(c, q, d, p);
        var read: int := at[0];
        SlowStepAt(c, q, d, read);
        assert false;
      }
    }
  }

  /** A query that may be asked again right after it was saved. */
  lemma SomeQuery(masks: set<Mask>, m: Mask) returns (q: Query)
    requires m in masks
    ensures Allowed(masks, q) && SearchKey(RewriteQuery(q)) == SearchKey(q)
  {
    if m == NO_FIELD {
      q := Query("", "", "");
      NoSpaces(q);
    } else {
      q := FrontHeavy(m);
      HeavyAllowed(masks, m);
      HeavyRewrites(m);
    }
  }

  lemma TooOld(c: Config, masks: set<Mask>, d: nat, age: int, m: Mask)
    requires c.userCache && m in masks && age < 60 + d
    ensures !HitsFaithful(c, masks, d, age)
  {
    var q := SomeQuery(masks, m);
    var run := SlowRun(c, q, d);
    var steps, k := SlowSteps(c, q, d), c.maxShard + 5;
    SlowSavesWithin(c, run, q, d);
    SlowHit(c, run, q, q, d, age);
    forall i | 0 <= i < |steps| && (steps[i].Search? || steps[i].StartSearch?)
      ensures Allowed(masks, steps[i].like)
    {
      SlowStepAt(c, q, d, i);
    }
    assert SearchesAllowed(steps, masks);
    DecodeEncodedList([]);
    assert ListHit(run[k].cache, run[k].clock, c.userCache, SearchKey(q));
  }

  lemma OlderHit(c: Config, run: seq<State>, steps: seq<Step>, k: int, asked: Query, age: int, age': int)
    requires |run| == |steps| + 1 && 0 <= k < |run| && HitFaithful(c, run, steps, k, asked, age) && age <= age'
    ensures HitFaithful(c, run, steps, k, asked, age')
  {
    var p, q, at, rows :| Answered(c, run, steps, k, asked, age, p, q, at, rows);
    assert Answered(c, run, steps, k, asked, age', p, q, at, rows);
  }

  lemma SingleFieldFaithful(c: Config, masks: set<Mask>, d: nat, age: int)
    requires SingleField(masks) && age >= 60 + d
    ensures HitsFaithful(c, masks, d, age)
  {
    forall run: seq<State>, steps, k, asked |
      IsRun(c, run, steps) && SearchesAllowed(steps, masks) && SavesWithin(run, steps, d) && 0 <= k < |run| &&
      Allowed(masks, asked) && ListHit(run[k].cache, run[k].clock, c.userCache, SearchKey(asked))
      ensures HitFaithful(c, run, steps, k, asked, age)
    {
      CachedSearchFaithful(c, run, steps, k, asked, masks, d);
      OlderHit(c, run, steps, k, asked, 60 + d, age);
    }
  }

  lemma KeysCollide(c: Config, masks: set<Mask>, d: nat, age: int)
    requires c.userCache && !SingleField(masks)
    ensures !HitsFaithful(c, masks, d, age)
  {
    KeysFaithfulExactly(masks);
    var saved, asked :|
      Allowed(masks, saved) && Allowed(masks, asked) && SearchKey(RewriteQuery(saved)) == SearchKey(asked) &&
      SqlOf(saved) != SqlOf(asked);
    var run := UnfaithfulHit(c, saved, asked, age);
    assert SearchesAllowed([Search(saved, [])], masks) && SavesWithin(run, [Search(saved, [])], d);
  }

  /** With every search saving within d of its start, every hit answers what a search with the asked statement read
      at most age before, exactly when nothing is cached, no query is allowed, or all queries that fill anything fill
      one and the same single field and age covers the life of an entry and d. */
  lemma HitsFaithfulExactly(c: Config, masks: set<Mask>, d: nat, age: int)
    ensures HitsFaithful(c, masks, d, age) <==> !c.userCache || masks == {} || (SingleField(masks) && age >= 60 + d)
  {
    if c.userCache && masks != {} {
      if !SingleField(masks) {
        KeysCollide(c, masks, d, age);
      } else if age < 60 + d {
        var m :| m in masks;
        TooOld(c, masks, d, age, m);
      } else {
        SingleFieldFaithful(c, masks, d, age);
      }
    }
  }

  const BY_EMAIL := Query("", "@", "")
  const BY_NAME := Query("", "", "@")

  /** Ann's email holds the text, her name does not. */
  lemma EmailNotName()
    ensures Selects(SqlOf(BY_EMAIL), ROW_1) && !Selects(SqlOf(BY_NAME), ROW_1)
  {
    assert At("@", Lower(ROW_1.email), 1);
    SubstringMeaning("@", Lower(ROW_1.email));
    SubstringMeaning("@", Lower(ROW_1.name));
    NoSpaces(BY_EMAIL);
    NoSpaces(BY_NAME);
  }

  lemma AnnListed()
    ensures
      var t, rows := map[1 := ROW_1], [ROW_1];
      && IsListing(rows, t, SqlOf(BY_EMAIL))
      && IsListing([], t, SqlOf(BY_NAME)) && !IsListing(rows, t, SqlOf(BY_NAME))
  {
    EmailNotName();
    var t, rows := map[1 := ROW_1], [ROW_1];
    assert !Answers(t, SqlOf(BY_NAME), ROW_1) && multiset(rows)[ROW_1] == 1;
  }

  lemma AnnSearched(c: Config, s: State, s': State)
    requires HasShards(s) && T(s) == map[1 := ROW_1] && s.cache == map[] && c.userCache
    requires s' == s.(cache := PutList(map[], s.clock, true, BY_EMAIL, [ROW_1]))
    ensures Does(c, s, Search(BY_EMAIL, [ROW_1]), s')
  {
    AnnListed();
    NoSpaces(BY_EMAIL);
    assert [] + [ROW_1] == [ROW_1];
  }

  lemma ListAnswers(es: Entries, now: int)
    requires es == PutList(map[], now, true, BY_EMAIL, [ROW_1])
    ensures ListHit(es, now, true, SearchKey(BY_NAME))
    ensures CachedRows(es, now, true, SearchKey(BY_NAME)) == [ROW_1]
  {
    assert SearchKey(BY_EMAIL) == SearchKey(BY_NAME);
    DecodeEncodedList([ROW_1]);
  }

  /** After a sign-up, a search by email is answered again for a search by name whose statement selects no row. */
  lemma OtherRowsAnswered(c: Config) returns (s: State)
    requires c.userCache
    ensures Reachable(c, s) && HasShards(s) && ListHit(s.cache, s.clock, true, SearchKey(BY_NAME))
    ensures CachedRows(s.cache, s.clock, true, SearchKey(BY_NAME)) == [ROW_1]
    ensures IsListing([], T(s), SqlOf(BY_NAME)) && !IsListing([ROW_1], T(s), SqlOf(BY_NAME))
  {
    EmptyRows(c);
    StartIdle(c, EmptyState(c));
    AnnAndBob();
    var s1 := SignedUp(c, EmptyState(c).(consumer := Idle(0)), ANN);
    s := s1.(cache := PutList(map[], s1.clock, true, BY_EMAIL, [ROW_1]));
    AnnSearched(c, s1, s);
    StepReachable(c, s1, Search(BY_EMAIL, [ROW_1]), s);
    ListAnswers(s.cache, s.clock);
    AnnListed();
  }
}
