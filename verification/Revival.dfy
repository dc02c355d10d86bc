/** Exactly when a deleted row can come back. */
module Revival {
  import opened Wrappers
  import opened Users
  import opened Decimal
  import opened Sharding
  import opened CacheModel
  import opened Edits
  import opened Validation
  import opened System
  import opened Invariant
  import opened Deletion
  import opened Consuming
  import opened CatchingUp
  import opened Scenarios

  /** A put still to come goes under the text of an id, where the lookups of get_by_id read. */
  ghost predicate PutsUnderId(x: Task) {
    || x.stage.PutId? || x.stage.PutIdAgain? || (x.stage.PutLogin? && x.caller.BySignIn?)
    || (x.stage != Ready && IsIdText(x.user.login))
  }

  /** The request cannot pass an undeleted i on: not to an event, not to a lookup of the user service. */
  ghost predicate TaskSpent(c: Config, x: Task, i: int) {
    SaysDeleted(x.user, i) || (!x.caller.ByUser? && (!c.userCache || !PutsUnderId(x)))
  }

  ghost predicate TasksSpent(c: Config, tasks: map<nat, Task>, i: int) {
    forall t :: t in tasks ==> TaskSpent(c, tasks[t], i)
  }

  ghost predicate LookupSays(es: Entries, clock: int, id: int, i: int) {
    SaysDeleted(CachedUser(es, clock, true, ToString(id)), i)
  }

  /** No lookup of the user service, for whatever id, finds i undeleted. */
  ghost predicate LookupsSay(c: Config, es: Entries, clock: int, i: int) {
    c.userCache ==> forall id :: LookupSays(es, clock, id, i)
  }

  /** The row, every pending record, every lookup and every request in flight that matters say deleted. */
  ghost predicate Spent(c: Config, s: State, i: int) {
    && HasShards(s) && RowDeleted(T(s), i)
    && RecordsSay(s.log, s.committed, i)
    && TasksSpent(c, s.tasks, i)
    && LookupsSay(c, s.cache, s.clock, i)
  }

  lemma SealedIsSpent(c: Config, s: State, i: int)
    requires Sealed(s, i)
    ensures Spent(c, s, i)
  {
    forall id
      ensures LookupSays(s.cache, s.clock, id, i)
    {
    }
  }

  lemma PutLookups(c: Config, es: Entries, now: int, on: bool, key: string, u: User, i: int)
    requires LookupsSay(c, es, now, i) && SaysDeleted(u, i)
    ensures LookupsSay(c, PutEntry(es, now, on, key, Obj(ToJsonWithPassword(u))), now, i)
  {
    DecodeWithPassword(u);
    if c.userCache {
      forall id
        ensures LookupSays(PutEntry(es, now, on, key, Obj(ToJsonWithPassword(u))), now, id, i)
      {
        assert LookupSays(es, now, id, i);
      }
    }
  }

  lemma PutUserLookups(c: Config, es: Entries, now: int, on: bool, u: User, i: int)
    requires LookupsSay(c, es, now, i) && SaysDeleted(u, i)
    ensures LookupsSay(c, PutUser(es, now, on, u), now, i)
  {
    PutLookups(c, es, now, on, ToString(u.id), u, i);
    PutLookups(c, PutEntry(es, now, on, ToString(u.id), Obj(ToJsonWithPassword(u))), now, on, u.login, u, i);
  }

  lemma PutListLookups(c: Config, es: Entries, now: int, on: bool, q: Query, rows: seq<User>, i: int)
    requires LookupsSay(c, es, now, i) && i > 0
    ensures LookupsSay(c, PutList(es, now, on, q, rows), now, i)
  {
    if c.userCache {
      forall id
        ensures LookupSays(PutList(es, now, on, q, rows), now, id, i)
      {
        assert LookupSays(es, now, id, i);
      }
    }
  }

  /** What get_by_id finds says deleted, unless only the sign-in service has a cache. */
  lemma ReadSpent(c: Config, s: State, on: bool, id: int, i: int)
    requires Shape(c, s) && Spent(c, s, i)
    ensures LookupsSay(c, Read(s, on, id).cache, s.clock, i)
    ensures c.userCache || !on ==> SaysDeleted(Found(s, on, id), i)
  {
    var hit := CachedUser(s.cache, s.clock, on, ToString(id));
    if c.userCache && on {
      assert LookupSays(s.cache, s.clock, id, i);
    }
    if hit.id <= 0 && RowOf(s.shards, id).Some? {
      RowFound(c, s, id);
      PutUserLookups(c, s.cache, s.clock, on, RowOf(s.shards, id).value, i);
    }
  }

  lemma SignInSpent(c: Config, s: State, e: Step, i: int)
    requires Shape(c, s) && Spent(c, s, i) && e.SignIn? && Enabled(c, s, e)
    ensures Spent(c, Next(c, s, e), i)
  {
    if !SignInByCache(c, s, e.login, e.password) && e.answer > 0 && c.authCache && c.userCache {
      ReadSpent(c, s, true, e.answer, i);
      PutUserLookups(c, Read(s, true, e.answer).cache, s.clock, true, Found(s, true, e.answer), i);
    }
  }

  lemma FetchSpent(c: Config, s: State, e: Step, i: int)
    requires Shape(c, s) && Spent(c, s, i) && e.Fetch? && Enabled(c, s, e)
    ensures Spent(c, Next(c, s, e), i)
  {
    ReadSpent(c, s, On(c, e.caller), e.id, i);
    var tasks := Next(c, s, e).tasks;
    forall t | t in tasks
      ensures TaskSpent(c, tasks[t], i)
    {
      assert t != e.task ==> TaskSpent(c, s.tasks[t], i);
    }
  }

  lemma PutSpent(c: Config, s: State, task: nat, i: int)
    requires Spent(c, s, i) && Enabled(c, s, Put(task))
    ensures Spent(c, PutTask(s, task), i)
  {
    var x := s.tasks[task];
    assert TaskSpent(c, x, i);
    if SaysDeleted(x.user, i) {
      PutLookups(c, s.cache, s.clock, true, x.Key(), x.user, i);
    } else if c.userCache {
      var es := PutTask(s, task).cache;
      forall id
        ensures LookupSays(es, s.clock, id, i)
      {
        assert LookupSays(s.cache, s.clock, id, i);
        assert x.Key() != ToString(id);
      }
    }
    var tasks := PutTask(s, task).tasks;
    forall t | t in tasks
      ensures TaskSpent(c, tasks[t], i)
    {
      assert t != task ==> TaskSpent(c, s.tasks[t], i);
    }
  }

  lemma ListSpent(c: Config, s: State, e: Step, i: int)
    requires Spent(c, s, i) && (e.Search? || e.SaveSearch?) && Enabled(c, s, e)
    ensures Spent(c, Next(c, s, e), i)
  {
    if e.SaveSearch? {
      var x := s.scans[e.task];
      PutListLookups(c, s.cache, s.clock, c.userCache, RewriteQuery(x.like), x.rows, i);
    } else {
      var left := CachedRows(s.cache, s.clock, c.userCache, SearchKey(e.like));
      PutListLookups(c, s.cache, s.clock, c.userCache, RewriteQuery(e.like), left + e.rows, i);
    }
  }

  lemma GetSpent(c: Config, s: State, e: Step, i: int)
    requires Shape(c, s) && Spent(c, s, i) && (e.Validate? || e.Get?) && Enabled(c, s, e)
    ensures Spent(c, Next(c, s, e), i)
  {
    match e
    case Validate(token) =>
      if token.Signed? {
        ReadSpent(c, s, c.authCache, token.id, i);
      }
    case Get(id) => ReadSpent(c, s, c.userCache, id, i);
  }

  lemma SignUpSpent(c: Config, s: State, e: Step, i: int)
    requires Spent(c, s, i) && e.SignUp? && Enabled(c, s, e)
    ensures Spent(c, Next(c, s, e), i)
  {
    if Next(c, s, e) != s {
      AppendSays(s.log, s.committed, FromJson(e.body).value, i);
    }
  }

  lemma EditWithSpent(c: Config, s: State, u: User, requester: int, body: Object, sent: bool, i: int)
    requires Spent(c, s, i) && SaysDeleted(u, i)
    ensures Spent(c, EditWith(s, u, requester, body, sent), i)
  {
    var outcome := EditOutcome(u, requester, HasRole(s.roles, requester, "admin"), body);
    if outcome.Ok? && sent {
      EditKeeps(u, requester, HasRole(s.roles, requester, "admin"), body);
      AppendSays(s.log, s.committed, outcome.value, i);
    }
  }

  lemma EditAskedSpent(c: Config, s: State, requester: int, body: Object, sent: bool, i: int)
    requires Shape(c, s) && HasShards(s) && Spent(c, s, i)
    ensures Spent(c, EditAsked(c, s, requester, body, sent), i)
  {
    if Id in body && body[Id].Num? {
      var id := body[Id].n;
      ReadSpent(c, s, c.userCache, id, i);
      EditWithSpent(c, Read(s, c.userCache, id), Found(s, c.userCache, id), requester, body, sent, i);
    }
  }

  lemma EditFetchedSpent(c: Config, s: State, task: nat, requester: int, body: Object, sent: bool, i: int)
    requires Spent(c, s, i) && HasFetched(s, task)
    ensures Spent(c, EditWith(s.(tasks := s.tasks - {task}), s.tasks[task].user, requester, body, sent), i)
  {
    assert TaskSpent(c, s.tasks[task], i);
    EditWithSpent(c, s.(tasks := s.tasks - {task}), s.tasks[task].user, requester, body, sent, i);
  }

  lemma EditSpent(c: Config, s: State, e: Step, i: int)
    requires Shape(c, s) && Spent(c, s, i) && (e.Edit? || e.EditFetched?) && Enabled(c, s, e)
    ensures Spent(c, Next(c, s, e), i)
  {
    if e.Edit? {
      EditAskedSpent(c, s, e.requester, e.changes, e.sent, i);
    } else {
      EditFetchedSpent(c, s, e.task, e.requester, e.changes, e.sent, i);
    }
  }

  lemma RowsOnlySpent(c: Config, s: State, s': State, i: int)
    requires Spent(c, s, i) && RowsOnly(s, s') && RowDeleted(T(s'), i)
    ensures Spent(c, s', i)
  {
  }

  lemma DeleteWithSpent(c: Config, s: State, u: User, requester: int, i: int)
    requires Shape(c, s) && Spent(c, s, i)
    ensures Spent(c, DeleteWith(s, u, requester), i)
  {
    DeleteKeepsDeleted(c, s, u, requester, i);
    RowsOnlySpent(c, s, DeleteWith(s, u, requester), i);
  }

  lemma DeleteSpent(c: Config, s: State, e: Step, i: int)
    requires Shape(c, s) && Spent(c, s, i) && (e.Delete? || e.DeleteFetched?) && Enabled(c, s, e)
    ensures Spent(c, Next(c, s, e), i)
  {
    if e.Delete? {
      ReadSpent(c, s, c.userCache, e.id, i);
      DeleteWithSpent(c, Read(s, c.userCache, e.id), Found(s, c.userCache, e.id), e.requester, i);
    } else {
      DeleteWithSpent(c, s.(tasks := s.tasks - {e.task}), s.tasks[e.task].user, e.requester, i);
    }
  }

  lemma CalmSpent(c: Config, s: State, s': State, i: int)
    requires Spent(c, s, i) && Calm(s, s')
    ensures Spent(c, s', i)
  {
    if c.userCache {
      forall id
        ensures LookupSays(s'.cache, s'.clock, id, i)
      {
        assert LookupSays(s.cache, s.clock, id, i);
      }
    }
    forall t | t in s'.tasks
      ensures TaskSpent(c, s'.tasks[t], i)
    {
      assert TaskSpent(c, s.tasks[t], i);
    }
  }

  lemma ReadStepSpent(c: Config, s: State, e: Step, i: int)
    requires Shape(c, s) && Spent(c, s, i) && Enabled(c, s, e) && IsReadStep(e)
    ensures Spent(c, Next(c, s, e), i)
  {
    if e.SignIn? {
      SignInSpent(c, s, e, i);
    } else if e.Search? {
      ListSpent(c, s, e, i);
    } else if e.SignUp? {
      SignUpSpent(c, s, e, i);
    } else if e.Fetch? {
      FetchSpent(c, s, e, i);
    } else if e.Put? {
      PutSpent(c, s, e.task, i);
    } else {
      GetSpent(c, s, e, i);
    }
  }

  lemma NextSpent(c: Config, s: State, e: Step, s': State, i: int)
    requires Basics(c, s) && Spent(c, s, i) && Does(c, s, e, s')
    ensures Spent(c, s', i)
  {
    if IsReadStep(e) {
      ReadStepSpent(c, s, e, i);
    } else if e.Edit? || e.EditFetched? {
      EditSpent(c, s, e, i);
    } else if e.SaveSearch? {
      ListSpent(c, s, e, i);
    } else if e.Apply? || e.Insert? || e.SetUp? {
      RowStepKeepsDeleted(c, s, e, s', i);
      RowsOnlySpent(c, s, s', i);
    } else if e.Delete? || e.DeleteFetched? {
      DeleteSpent(c, s, e, i);
    } else {
      CalmSteps(c, s, e);
      CalmSpent(c, s, s', i);
    }
  }

  /** Spent is never left again. */
  lemma {:induction false} SpentForever(c: Config, run: seq<State>, steps: seq<Step>, k: nat, i: int)
    requires Moves(c, run, steps) && Reachable(c, run[0]) && Spent(c, run[0], i) && k < |run|
    ensures Inv(c, run[k], false) && Spent(c, run[k], i)
  {
    if k == 0 {
      ReachableInv(c, run[0]);
    } else {
      SpentForever(c, run, steps, k - 1, i);
      assert StepAt(c, run, steps, k - 1);
      NextInv(c, run[k - 1], false, steps[k - 1]);
      NextSpent(c, run[k - 1], steps[k - 1], run[k], i);
    }
  }

  ghost predicate Undeleted(s: State, i: int) {
    HasShards(s) && i in T(s) && !T(s)[i].deleted
  }

  ghost predicate Revives(c: Config, run: seq<State>, steps: seq<Step>, s: State, i: int) {
    Moves(c, run, steps) && run[0] == s && Undeleted(run[|steps|], i)
  }

  /** Some continuation makes row i undeleted. */
  ghost predicate Revivable(c: Config, s: State, i: int) {
    exists run, steps :: Revives(c, run, steps, s, i)
  }

  lemma RevivableBefore(c: Config, s: State, e: Step, s': State, i: int)
    requires Does(c, s, e, s') && Revivable(c, s', i)
    ensures Revivable(c, s, i)
  {
    var run, steps :| Revives(c, run, steps, s', i);
    PrependStep(c, s, e, run, steps);
    assert Revives(c, [s] + run, [e] + steps, s, i);
  }

  lemma RevivableByConsumer(c: Config, s: State, s': State, i: int)
    requires Consumes(c, s, s') && Revivable(c, s', i)
    ensures Revivable(c, s, i)
  {
    var run, steps :| ConsumerRun(c, run, steps, s, s');
    var run', steps' :| Revives(c, run', steps', s', i);
    JoinMoves(c, run, steps, run', steps');
    assert Revives(c, run + run'[1..], steps + steps', s, i);
  }

  lemma UndeletedRevivable(c: Config, s: State, i: int)
    requires Undeleted(s, i)
    ensures Revivable(c, s, i)
  {
    assert Revives(c, [s], [], s, i);
  }

  /** A valid email that no row has. */
  lemma FreshEmail(t: Table) returns (email: string)
    ensures ValidEmail(email) && forall i :: i in t ==> t[i].email != email
  {
    var longest := 0;
    var todo := t.Keys;
    while exists i :: i in todo
      invariant todo <= t.Keys && longest >= 0
      invariant forall i :: i in t && i !in todo ==> |t[i].email| <= longest
      decreases |todo|
    {
      var i :| i in todo;
      longest := if |t[i].email| > longest then |t[i].email| else longest;
      todo := todo - {i};
    }
    email := seq(longest + 1, _ => '@');
    assert email[0] == '@';
  }

  /** An undeleted event with the row's login and an email of its own is accepted. */
  lemma EventRevives(c: Config, s: State, u: User, i: int)
    requires Reachable(c, s) && HasRecord(s) && s.log[s.committed] == Obj(ToJson(u)) && u.id == i && !u.deleted
    requires i in T(s) && T(s)[i].login == u.login && i > 0
    requires forall j :: j in T(s) ==> T(s)[j].email != u.email
    ensures Revivable(c, s, i)
  {
    ReachableInv(c, s);
    DecodePlain(u);
    UpdateRefines(s.shards, Public(u));
    forall j | j in T(s) && j != i
      ensures !SameLoginOrEmail(T(s)[j], u.login, u.email)
    {
    }
    assert !ClashIn(T(s), |s.shards|, Public(u));
    RecordSteps(c, s);
    UndeletedRevivable(c, AfterRecord(s), i);
    RevivableByConsumer(c, s, AfterRecord(s), i);
  }

  /** The owner's edit of the user found, with an email of its own, sends the user as it was found. */
  lemma EditSends(s: State, u: User, i: int, body: Object, email: string)
    requires HasShards(s) && u.id == i > 0 && body[Email := Str(email)] == body && Name !in body && ValidEmail(email)
    ensures EditWith(s, u, i, body, true) == s.(log := s.log + [Obj(ToJson(u.(email := email)))])
  {
    assert Email in body && body[Email] == Str(email);
  }

  /** The owner's edit by id sends the cached user. */
  lemma LookupEdit(c: Config, s: State, id: int, u: User, email: string) returns (e: Step, s': State)
    requires CaughtUp(c, s) && c.userCache && CachedUser(s.cache, s.clock, true, ToString(id)) == u && u.id > 0
    requires ValidEmail(email)
    ensures Does(c, s, e, s') && Reachable(c, s') && s' == s.(log := s.log + [Obj(ToJson(u.(email := email)))])
  {
    var body: Object := map[Id := Num(id), Email := Str(email)];
    EditSends(s, u, u.id, body, email);
    e := Edit(u.id, body, true);
    s' := s.(log := s.log + [Obj(ToJson(u.(email := email)))]);
    assert Does(c, s, e, s');
    StepReachable(c, s, e, s');
  }

  /** An object of i saying undeleted, found by a lookup, brings the row back: an edit and one record. */
  lemma LookupRevives(c: Config, s: State, id: int, i: int)
    requires CaughtUp(c, s) && RowDeleted(T(s), i) && c.userCache && !LookupSays(s.cache, s.clock, id, i)
    ensures Revivable(c, s, i)
  {
    ReachableInv(c, s);
    var u := CachedUser(s.cache, s.clock, true, ToString(id));
    CachedUserOk(T(s), s.cache, s.clock, true, ToString(id), false);
    var email := FreshEmail(T(s));
    var e, s1 := LookupEdit(c, s, id, u, email);
    EventRevives(c, s1, u.(email := email), i);
    RevivableBefore(c, s, e, s1, i);
  }

  /** A request of the user service that holds an undeleted i brings the row back too. */
  lemma FetchedRevives(c: Config, s: State, task: nat, i: int)
    requires CaughtUp(c, s) && RowDeleted(T(s), i) && HasFetched(s, task) && !SaysDeleted(s.tasks[task].user, i)
    ensures Revivable(c, s, i)
  {
    ReachableInv(c, s);
    var u := s.tasks[task].user;
    var email := FreshEmail(T(s));
    var body: Object := map[Email := Str(email)];
    var s0 := s.(tasks := s.tasks - {task});
    EditSends(s0, u, i, body, email);
    var e := EditFetched(task, i, body, true);
    var s1 := s0.(log := s.log + [Obj(ToJson(u.(email := email)))]);
    assert Does(c, s, e, s1);
    StepReachable(c, s, e, s1);
    EventRevives(c, s1, u.(email := email), i);
    RevivableBefore(c, s, e, s1, i);
  }

  function PutsLeft(stage: Stage): nat {
    match stage
    case PutId => 4
    case PutLogin => 3
    case PutIdAgain => 2
    case PutLoginAgain => 1
    case Ready => 0
  }

  /** What is put is found under its key at once. */
  lemma PutFound(c: Config, s: State, task: nat, id: int, i: int)
    requires task in s.tasks && s.tasks[task].Key() == ToString(id) && !SaysDeleted(s.tasks[task].user, i)
    ensures !LookupSays(PutTask(s, task).cache, s.clock, id, i)
  {
    DecodeWithPassword(s.tasks[task].user);
  }

  /** A request that is not spent brings the row back: its puts, then an edit and one record. */
  lemma {:induction false} TaskRevives(c: Config, s: State, task: nat, i: int)
    requires CaughtUp(c, s) && RowDeleted(T(s), i) && task in s.tasks && !TaskSpent(c, s.tasks[task], i)
    ensures Revivable(c, s, i)
    decreases PutsLeft(s.tasks[task].stage)
  {
    var x := s.tasks[task];
    if x.stage == Ready {
      FetchedRevives(c, s, task, i);
    } else {
      var s1 := PutTask(s, task);
      StepReachable(c, s, Put(task), s1);
      if c.userCache && IsIdText(x.Key()) {
        var id :| x.Key() == ToString(id);
        PutFound(c, s, task, id, i);
        LookupRevives(c, s1, id, i);
      } else {
        TaskRevives(c, s1, task, i);
      }
      RevivableBefore(c, s, Put(task), s1, i);
    }
  }

  lemma SpentStays(c: Config, s: State, i: int)
    requires Reachable(c, s) && Spent(c, s, i)
    ensures !Revivable(c, s, i)
  {
    forall run, steps
      ensures !Revives(c, run, steps, s, i)
    {
      if Moves(c, run, steps) && run[0] == s {
        SpentForever(c, run, steps, |steps|, i);
      }
    }
  }

  /** When the consumer has caught up, some continuation brings a deleted row back exactly when it is not spent. */
  lemma RevivalExactly(c: Config, s: State, i: int)
    requires CaughtUp(c, s) && RowDeleted(T(s), i)
    ensures Revivable(c, s, i) <==> !Spent(c, s, i)
  {
    if Spent(c, s, i) {
      SpentStays(c, s, i);
    } else if !TasksSpent(c, s.tasks, i) {
      var t :| t in s.tasks && !TaskSpent(c, s.tasks[t], i);
      TaskRevives(c, s, t, i);
    } else {
      var id :| !LookupSays(s.cache, s.clock, id, i);
      LookupRevives(c, s, id, i);
    }
  }

  /** The consumer started anew at the committed offset. */
  function Restarted(s: State): State {
    s.(consumer := Idle(s.committed))
  }

  lemma RestartSteps(c: Config, s: State)
    requires HasShards(s)
    ensures Consumes(c, s, Restarted(s))
  {
    var s1 := s.(consumer := Down);
    ConsumesNothing(c, s);
    ConsumesStep(c, s, s, Crash, s1);
    ConsumesStep(c, s, s1, Start, Restarted(s));
  }

  lemma {:induction false} DeletedSaid(log: seq<Json>, first: nat, last: nat, i: int, row: User)
    requires first <= last <= |log| && RecordsSay(log, first, i) && row.deleted
    ensures LastSaid(log, first, last, i, row).deleted
    decreases last
  {
    if first < last {
      DeletedSaid(log, first, last - 1, i, row);
      assert RecordSays(log[last - 1], i);
    }
  }

  /** With only deletions pending, catching up changes nothing that matters. */
  lemma CaughtUpSpent(c: Config, s: State, i: int)
    requires Reachable(c, s) && HasShards(s) && s.consumer == Idle(s.committed) && s.committed <= |s.log|
    requires RowDeleted(T(s), i) && RecordsSay(s.log, s.committed, i) && CatchUp(s, |s.log|).Some?
    ensures
      var s' := CatchUp(s, |s.log|).value;
      Consumes(c, s, s') && CaughtUp(c, s') && RowDeleted(T(s'), i) && (Spent(c, s', i) <==> Spent(c, s, i))
  {
    LastEventWins(c, s, |s.log|, i, T(s)[i]);
    ConsumesReachable(c, s, CatchUp(s, |s.log|).value);
    DeletedSaid(s.log, s.committed, |s.log|, i, T(s)[i]);
  }

  lemma PendingRevives(c: Config, s: State, i: int)
    requires Reachable(c, s) && HasShards(s) && RowDeleted(T(s), i) && s.committed <= |s.log|
    requires CatchUp(Restarted(s), |s.log|).Some? && !RecordsSay(s.log, s.committed, i)
    ensures Revivable(c, s, i)
  {
    var p :| s.committed <= p < |s.log| && !RecordSays(s.log[p], i);
    CatchUpPrefix(Restarted(s), p + 1, |s.log|);
    var s' := PendingEventRevives(c, s, p, i);
    UndeletedRevivable(c, s', i);
    RevivableByConsumer(c, s, s', i);
  }

  lemma QuietLogRevives(c: Config, s: State, i: int)
    requires Reachable(c, s) && HasShards(s) && s.consumer == Idle(s.committed) && s.committed <= |s.log|
    requires RowDeleted(T(s), i) && RecordsSay(s.log, s.committed, i) && CatchUp(s, |s.log|).Some? && !Spent(c, s, i)
    ensures Revivable(c, s, i)
  {
    var s' := CatchUp(s, |s.log|).value;
    CaughtUpSpent(c, s, i);
    RevivalExactly(c, s', i);
    RevivableByConsumer(c, s, s', i);
  }

  /** The same for every reachable state whose pending records are all accepted, wherever the consumer stands. */
  lemma PendingRevivalExactly(c: Config, s: State, i: int)
    requires Reachable(c, s) && HasShards(s) && RowDeleted(T(s), i) && s.committed <= |s.log|
    requires CatchUp(Restarted(s), |s.log|).Some?
    ensures Revivable(c, s, i) <==> !Spent(c, s, i)
  {
    if Spent(c, s, i) {
      SpentStays(c, s, i);
    } else if !RecordsSay(s.log, s.committed, i) {
      PendingRevives(c, s, i);
    } else {
      RestartSteps(c, s);
      ConsumesReachable(c, s, Restarted(s));
      QuietLogRevives(c, Restarted(s), i);
      RevivableByConsumer(c, s, Restarted(s), i);
    }
  }

  /** A deletion that found its user undeleted leaves the object behind: with a cache it is not spent. */
  lemma DeletionLeavesObject(c: Config, s: State, requester: int, i: int)
    requires Shape(c, s) && HasShards(s) && c.userCache && i > 0
    requires Found(s, true, i).id == i && !Found(s, true, i).deleted
    ensures !Spent(c, Next(c, s, Delete(requester, i)), i)
  {
    var u, s1 := Found(s, true, i), Read(s, true, i);
    if CachedUser(s.cache, s.clock, true, ToString(i)).id <= 0 {
      PutUserReads(s.cache, s.clock, u, ToString(i));
    }
    assert !LookupSays(s1.cache, s1.clock, i, i);
    DeleteKeepsCache(s1, u, requester);
  }

  lemma DeleteKeepsCache(s: State, u: User, requester: int)
    requires HasShards(s)
    ensures DeleteWith(s, u, requester).cache == s.cache && DeleteWith(s, u, requester).clock == s.clock
  {
  }

  const RENAME_BOB := "abc"

  function BobRow(i: int): User {
    Public(BOB).(id := i)
  }

  /** The administrator, with the role, and Bob. */
  lemma AdminAndBob(c: Config, i: int) returns (s: State)
    requires i == 2 + c.maxShard
    ensures CaughtUp(c, s) && s.cache == map[] && s.tasks == map[] && HasRole(s.roles, 1, "admin")
    ensures T(s) == map[1 := FIRST, i := BobRow(i)]
  {
    var s0 := BobBesideAdmin(c, i);
    s := s0.(roles := WithRole(s0.roles, 1, "admin"));
    StepReachable(c, s0, Grant(1, "admin"), s);
  }

  lemma BobFlagged(sh: seq<Table>, i: int) returns (sh': seq<Table>)
    requires Placed(sh) && Logical(sh) == map[1 := FIRST, i := BobRow(i)] && i > 1
    ensures UpdateRow(sh, BobRow(i).(deleted := true)) == Some(sh') && |sh'| == |sh|
    ensures Logical(sh') == map[1 := FIRST, i := BobRow(i).(deleted := true)]
  {
    AnnAndBob();
    var u := BobRow(i).(deleted := true);
    UpdateRefines(sh, u);
    assert !SameLoginOrEmail(FIRST, u.login, u.email);
    sh' := UpdateRow(sh, u).value;
    assert map[1 := FIRST, i := BobRow(i)][i := u] == map[1 := FIRST, i := u];
  }

  lemma BobRead(s: State, i: int)
    requires HasShards(s) && Placed(s.shards) && T(s) == map[1 := FIRST, i := BobRow(i)] && i > 1 && s.cache == map[]
    ensures Found(s, true, i) == BobRow(i)
    ensures Read(s, true, i) == s.(cache := PutUser(map[], s.clock, true, BobRow(i)))
  {
    RowRefines(s.shards, i);
  }

  /** Bob's own deletion: the request reads him into the cache first. */
  lemma BobDeleted(c: Config, s: State, i: int) returns (s': State)
    requires CaughtUp(c, s) && s.cache == map[] && T(s) == map[1 := FIRST, i := BobRow(i)] && i > 1 && c.userCache
    ensures Does(c, s, Delete(i, i), s') && CaughtUp(c, s')
    ensures T(s') == map[1 := FIRST, i := BobRow(i).(deleted := true)]
    ensures s' == s.(shards := s'.shards, cache := PutUser(map[], s.clock, true, BobRow(i)))
  {
    ReachableInv(c, s);
    BobRead(s, i);
    var sh := BobFlagged(s.shards, i);
    s' := s.(shards := sh, cache := PutUser(map[], s.clock, true, BobRow(i)));
    assert Does(c, s, Delete(i, i), s');
    StepReachable(c, s, Delete(i, i), s');
  }

  /** The administrator's edit within the life of that entry sends the undeleted user. */
  lemma BobEdited(c: Config, s: State, i: int) returns (s': State)
    requires CaughtUp(c, s) && HasRole(s.roles, 1, "admin") && c.userCache && i > 1
    requires s.cache == PutUser(map[], s.clock, true, BobRow(i))
    ensures
      var e := Edit(1, map[Id := Num(i), Name := Str(RENAME_BOB)], true);
      Does(c, s, e, s') && Reachable(c, s')
    ensures s' == s.(log := s.log + [Obj(ToJson(BobRow(i).(name := RENAME_BOB)))])
  {
    var body: Object := map[Id := Num(i), Name := Str(RENAME_BOB)];
    PutUserReads(map[], s.clock, BobRow(i), ToString(i));
    s' := s.(log := s.log + [Obj(ToJson(BobRow(i).(name := RENAME_BOB)))]);
    assert EditOutcome(BobRow(i), 1, true, body) == Ok(BobRow(i).(name := RENAME_BOB));
    assert Does(c, s, Edit(1, body, true), s');
    StepReachable(c, s, Edit(1, body, true), s');
  }

  lemma BobBack(c: Config, s: State, i: int)
    requires Reachable(c, s) && HasRecord(s) && s.log[s.committed] == Obj(ToJson(BobRow(i).(name := RENAME_BOB)))
    requires T(s) == map[1 := FIRST, i := BobRow(i).(deleted := true)] && i > 1
    ensures Consumes(c, s, AfterRecord(s)) && Undeleted(AfterRecord(s), i)
  {
    ReachableInv(c, s);
    AnnAndBob();
    var u := BobRow(i).(name := RENAME_BOB);
    DecodePlain(u);
    UpdateRefines(s.shards, u);
    assert !SameLoginOrEmail(FIRST, u.login, u.email);
    assert !ClashIn(T(s), |s.shards|, u);
    RecordSteps(c, s);
  }

  /** With a cache in the user service, the plainest way back: with nothing pending, the owner deletes the row, an
      administrator edits it right after, and the consumer takes that one record. */
  lemma DeletedThenEdited(c: Config) returns (i: int, s: State, s1: State, s2: State, s3: State)
    requires c.userCache
    ensures CaughtUp(c, s) && Undeleted(s, i) && s.tasks == map[] && i != 1 && HasRole(s.roles, 1, "admin")
    ensures Does(c, s, Delete(i, i), s1) && HasShards(s1) && RowDeleted(T(s1), i)
    ensures Does(c, s1, Edit(1, map[Id := Num(i), Name := Str(RENAME_BOB)], true), s2)
    ensures Consumes(c, s2, s3) && Undeleted(s3, i)
  {
    i := 2 + c.maxShard;
    s := AdminAndBob(c, i);
    s1 := BobDeleted(c, s, i);
    s2 := BobEdited(c, s1, i);
    BobBack(c, s2, i);
    s3 := AfterRecord(s2);
  }
}
