/** When a deletion lasts, and when it does not. */
module Deletion {
  import opened Wrappers
  import opened Users
  import opened Decimal
  import opened Sharding
  import opened CacheModel
  import opened Edits
  import opened System
  import opened Invariant
  import opened Times

  predicate SaysDeleted(u: User, i: int) {
    u.id == i ==> u.deleted
  }

  ghost predicate RowDeleted(t: Table, i: int) {
    i > 0 && i in t && t[i].deleted
  }

  /** Live objects say so too; when old entries are tolerated, those put up to since may differ. */
  ghost predicate CacheSays(es: Entries, clock: int, i: int, tolerant: bool, since: int) {
    forall key :: key in es && Live(es[key], clock) && FromJson(es[key].value).Some? ==>
      SaysDeleted(FromJson(es[key].value).value, i) || (tolerant && es[key].putAt <= since)
  }

  predicate RecordSays(m: Json, i: int) {
    FromJson(m).Some? ==> SaysDeleted(FromJson(m).value, i)
  }

  ghost predicate RecordsSay(log: seq<Json>, first: int, i: int) {
    forall p :: 0 <= first <= p < |log| ==> RecordSays(log[p], i)
  }

  /** A tolerated old value may be in flight, but past its puts. */
  ghost predicate TasksSay(tasks: map<nat, Task>, i: int, tolerant: bool) {
    forall t :: t in tasks ==> SaysDeleted(tasks[t].user, i) || (tolerant && tasks[t].stage == Ready)
  }

  ghost predicate Settling(s: State, i: int, tolerant: bool, since: int) {
    && HasShards(s) && RowDeleted(T(s), i)
    && CacheSays(s.cache, s.clock, i, tolerant, since)
    && RecordsSay(s.log, s.committed, i)
    && TasksSay(s.tasks, i, tolerant)
  }

  /** The row, every live cached object, every pending event and every request in flight for i say deleted. */
  ghost predicate Sealed(s: State, i: int) {
    Settling(s, i, false, 0)
  }

  lemma PutSays(es: Entries, now: int, on: bool, key: string, u: User, i: int, tolerant: bool, since: int)
    requires CacheSays(es, now, i, tolerant, since) && SaysDeleted(u, i)
    ensures CacheSays(PutEntry(es, now, on, key, Obj(ToJsonWithPassword(u))), now, i, tolerant, since)
  {
    DecodeWithPassword(u);
  }

  lemma PutUserSays(es: Entries, now: int, on: bool, u: User, i: int, tolerant: bool, since: int)
    requires CacheSays(es, now, i, tolerant, since) && SaysDeleted(u, i)
    ensures CacheSays(PutUser(es, now, on, u), now, i, tolerant, since)
  {
    PutSays(es, now, on, ToString(u.id), u, i, tolerant, since);
    PutSays(PutEntry(es, now, on, ToString(u.id), Obj(ToJsonWithPassword(u))), now, on, u.login, u, i, tolerant, since);
  }

  /** A read answers a deleted i, or a tolerated old value straight from the cache. */
  lemma ReadSays(c: Config, s: State, on: bool, id: int, i: int, tolerant: bool, since: int)
    requires Shape(c, s) && Settling(s, i, tolerant, since)
    ensures CacheSays(Read(s, on, id).cache, s.clock, i, tolerant, since)
    ensures Found(s, on, id).id > 0 ==>
              || SaysDeleted(Found(s, on, id), i)
              || (tolerant && on && CachedUser(s.cache, s.clock, on, ToString(id)).id > 0)
  {
    if CachedUser(s.cache, s.clock, on, ToString(id)).id <= 0 && RowOf(s.shards, id).Some? {
      RowFound(c, s, id);
      PutUserSays(s.cache, s.clock, on, RowOf(s.shards, id).value, i, tolerant, since);
    }
  }

  lemma AppendSays(log: seq<Json>, first: nat, u: User, i: int)
    requires RecordsSay(log, first, i) && SaysDeleted(u, i)
    ensures RecordsSay(log + [Obj(ToJson(u))], first, i)
  {
    DecodePlain(u);
  }

  ghost predicate IsIdText(login: string) {
    exists id :: login == ToString(id)
  }

  /** A sign-in cannot renew an old value of i: the service has no cache, or the login of i is no id's text. */
  ghost predicate NotRenewed(c: Config, t: Table, i: int) {
    !c.authCache || (i in t && !IsIdText(t[i].login))
  }

  /** A sign-in answers an undeleted row, so it re-puts another user than the deleted i. */
  lemma SignInSpares(c: Config, s: State, answer: int, i: int)
    requires Inv(c, s, false) && RowDeleted(T(s), i) && NotRenewed(c, T(s), i) && c.authCache
    requires answer in T(s) && !T(s)[answer].deleted
    ensures CachedUser(s.cache, s.clock, true, ToString(answer)).id > 0 ==>
              CachedUser(s.cache, s.clock, true, ToString(answer)).id != i
  {
    CachedUserOk(T(s), s.cache, s.clock, true, ToString(answer), false);
    if ToString(answer) == ToString(i) {
      ToStringInjective(answer, i);
    }
  }

  lemma SignInSettles(c: Config, s: State, e: Step, i: int, tolerant: bool, since: int)
    requires Inv(c, s, false) && Settling(s, i, tolerant, since) && e.SignIn? && Enabled(c, s, e)
    requires tolerant ==> NotRenewed(c, T(s), i)
    ensures Settling(Next(c, s, e), i, tolerant, since)
  {
    if !SignInByCache(c, s, e.login, e.password) && e.answer > 0 && c.authCache {
      if tolerant {
        SignInSpares(c, s, e.answer, i);
      }
      ReadSays(c, s, true, e.answer, i, tolerant, since);
      ReadInv(c, s, false, true, e.answer);
      RowRefines(s.shards, e.answer);
      PutUserSays(Read(s, true, e.answer).cache, s.clock, true, Found(s, true, e.answer), i, tolerant, since);
    }
  }

  lemma SearchSettles(c: Config, s: State, e: Step, i: int, tolerant: bool, since: int)
    requires Inv(c, s, false) && Settling(s, i, tolerant, since) && e.Search? && Enabled(c, s, e)
    ensures Settling(Next(c, s, e), i, tolerant, since)
  {
  }

  lemma SaveSearchSettles(c: Config, s: State, e: Step, i: int, tolerant: bool, since: int)
    requires Settling(s, i, tolerant, since) && e.SaveSearch? && Enabled(c, s, e)
    ensures Settling(Next(c, s, e), i, tolerant, since)
  {
  }

  lemma SignUpSettles(c: Config, s: State, e: Step, i: int, tolerant: bool, since: int)
    requires Settling(s, i, tolerant, since) && e.SignUp? && Enabled(c, s, e)
    ensures Settling(Next(c, s, e), i, tolerant, since)
  {
    if Next(c, s, e) != s {
      AppendSays(s.log, s.committed, FromJson(e.body).value, i);
    }
  }

  lemma FetchSays(c: Config, s: State, e: Step, i: int, tolerant: bool, since: int)
    requires Inv(c, s, false) && Settling(s, i, tolerant, since) && e.Fetch? && Enabled(c, s, e)
    requires tolerant ==> NotRenewed(c, T(s), i)
    ensures
      var x := Next(c, s, e).tasks[e.task];
      SaysDeleted(x.user, i) || (tolerant && x.stage == Ready)
  {
    ReadSays(c, s, On(c, e.caller), e.id, i, tolerant, since);
    if tolerant && e.caller.BySignIn? {
      SignInSpares(c, s, e.id, i);
    }
  }

  lemma FetchSettles(c: Config, s: State, e: Step, i: int, tolerant: bool, since: int)
    requires Inv(c, s, false) && Settling(s, i, tolerant, since) && e.Fetch? && Enabled(c, s, e)
    requires tolerant ==> NotRenewed(c, T(s), i)
    ensures Settling(Next(c, s, e), i, tolerant, since)
  {
    FetchSays(c, s, e, i, tolerant, since);
  }

  lemma PutSettles(s: State, task: nat, i: int, tolerant: bool, since: int)
    requires Settling(s, i, tolerant, since) && task in s.tasks && s.tasks[task].stage != Ready
    ensures Settling(PutTask(s, task), i, tolerant, since)
  {
    var x := s.tasks[task];
    PutSays(s.cache, s.clock, true, x.Key(), x.user, i, tolerant, since);
  }

  /** The events a step adds say deleted for i. */
  ghost predicate AddsNoRevival(s: State, s': State, i: int) {
    RecordsSay(s'.log, |s.log|, i)
  }

  lemma EditWithSettles(c: Config, s: State, u: User, requester: int, body: Object, sent: bool,
                        i: int, tolerant: bool, since: int)
    requires Settling(s, i, tolerant, since) && s.committed <= |s.log|
    requires u.id > 0 ==> SaysDeleted(u, i) || (tolerant && AddsNoRevival(s, EditWith(s, u, requester, body, sent), i))
    ensures Settling(EditWith(s, u, requester, body, sent), i, tolerant, since)
  {
    var outcome := EditOutcome(u, requester, HasRole(s.roles, requester, "admin"), body);
    if outcome.Ok? && sent {
      EditKeeps(u, requester, HasRole(s.roles, requester, "admin"), body);
      if SaysDeleted(u, i) {
        AppendSays(s.log, s.committed, outcome.value, i);
      }
    }
  }

  lemma EditAskedSettles(c: Config, s: State, requester: int, body: Object, sent: bool,
                         i: int, tolerant: bool, since: int)
    requires Shape(c, s) && Settling(s, i, tolerant, since) && HasShards(s) && s.committed <= |s.log|
    requires tolerant ==> AddsNoRevival(s, EditAsked(c, s, requester, body, sent), i)
    ensures Settling(EditAsked(c, s, requester, body, sent), i, tolerant, since)
  {
    if Id in body && body[Id].Num? {
      var id := body[Id].n;
      ReadSays(c, s, c.userCache, id, i, tolerant, since);
      var s1, u := Read(s, c.userCache, id), Found(s, c.userCache, id);
      EditWithSettles(c, s1, u, requester, body, sent, i, tolerant, since);
    }
  }

  lemma EditFetchedSettles(c: Config, s: State, task: nat, requester: int, body: Object, sent: bool,
                           i: int, tolerant: bool, since: int)
    requires Settling(s, i, tolerant, since) && task in s.tasks && s.committed <= |s.log|
    requires
      var s1 := s.(tasks := s.tasks - {task});
      tolerant ==> AddsNoRevival(s, EditWith(s1, s.tasks[task].user, requester, body, sent), i)
    ensures
      var s1 := s.(tasks := s.tasks - {task});
      Settling(EditWith(s1, s.tasks[task].user, requester, body, sent), i, tolerant, since)
  {
    var s1 := s.(tasks := s.tasks - {task});
    EditWithSettles(c, s1, s.tasks[task].user, requester, body, sent, i, tolerant, since);
  }

  lemma EditSettles(c: Config, s: State, e: Step, i: int, tolerant: bool, since: int)
    requires Basics(c, s) && Settling(s, i, tolerant, since) && (e.Edit? || e.EditFetched?) && Enabled(c, s, e)
    requires tolerant ==> AddsNoRevival(s, Next(c, s, e), i)
    ensures Settling(Next(c, s, e), i, tolerant, since)
  {
    if e.Edit? {
      EditAskedSettles(c, s, e.requester, e.changes, e.sent, i, tolerant, since);
    } else {
      EditFetchedSettles(c, s, e.task, e.requester, e.changes, e.sent, i, tolerant, since);
    }
  }

  /** Rows may be written; the cache, the log and the requests in flight are as before. */
  ghost predicate RowsOnly(s: State, s': State) {
    HasShards(s') && s' == s.(shards := s'.shards, consumer := s'.consumer, nextId := s'.nextId)
  }

  lemma DeleteKeepsDeleted(c: Config, s: State, u: User, requester: int, i: int)
    requires Shape(c, s) && RowDeleted(T(s), i)
    ensures RowsOnly(s, DeleteWith(s, u, requester)) && RowDeleted(T(DeleteWith(s, u, requester)), i)
  {
    if u.id > 0 {
      UpdateRefines(s.shards, u.(deleted := true));
    }
  }

  lemma ApplyKeepsDeleted(c: Config, s: State, i: int)
    requires Basics(c, s) && Possible(c, s, Apply) && RowDeleted(T(s), i) && RecordSays(s.log[s.committed], i)
    ensures RowsOnly(s, ApplyPolled(s)) && RowDeleted(T(ApplyPolled(s)), i)
  {
    var m := s.log[s.committed];
    if FromJson(m).Some? && FromJson(m).value.id > 0 {
      UpdateRefines(s.shards, FromJson(m).value);
    }
  }

  lemma InsertKeepsDeleted(c: Config, s: State, i: int)
    requires Basics(c, s) && Possible(c, s, Insert) && RowDeleted(T(s), i)
    ensures RowsOnly(s, InsertNumbered(s)) && RowDeleted(T(InsertNumbered(s)), i)
  {
    InsertRefines(s.shards, FromJson(s.log[s.consumer.pos]).value.(id := s.consumer.id));
  }

  lemma SetUpKeepsDeleted(c: Config, s: State, i: int)
    requires Basics(c, s) && Possible(c, s, SetUp) && RowDeleted(T(s), i)
    ensures RowsOnly(s, SetUpAdmin(s)) && RowDeleted(T(SetUpAdmin(s)), i)
  {
    InsertRefines(s.shards, ADMIN.(id := s.nextId));
  }

  /** Applying, inserting and setting up leave a deleted row deleted when the record in line says so. */
  lemma RowStepKeepsDeleted(c: Config, s: State, e: Step, s': State, i: int)
    requires Basics(c, s) && Does(c, s, e, s') && (e.Apply? || e.Insert? || e.SetUp?)
    requires RowDeleted(T(s), i) && RecordsSay(s.log, s.committed, i)
    ensures RowsOnly(s, s') && RowDeleted(T(s'), i)
  {
    if e.Apply? {
      assert RecordSays(s.log[s.committed], i);
      ApplyKeepsDeleted(c, s, i);
    } else if e.Insert? {
      InsertKeepsDeleted(c, s, i);
    } else {
      SetUpKeepsDeleted(c, s, i);
    }
  }

  lemma RowsOnlySettles(s: State, s': State, i: int, tolerant: bool, since: int)
    requires Settling(s, i, tolerant, since) && RowsOnly(s, s') && RowDeleted(T(s'), i)
    ensures Settling(s', i, tolerant, since)
  {
  }

  lemma DeleteWithSettles(c: Config, s: State, u: User, requester: int, i: int, tolerant: bool, since: int)
    requires Shape(c, s) && Settling(s, i, tolerant, since)
    ensures Settling(DeleteWith(s, u, requester), i, tolerant, since)
  {
    DeleteKeepsDeleted(c, s, u, requester, i);
    RowsOnlySettles(s, DeleteWith(s, u, requester), i, tolerant, since);
  }

  lemma DeleteSettles(c: Config, s: State, e: Step, i: int, tolerant: bool, since: int)
    requires Shape(c, s) && Settling(s, i, tolerant, since) && e.Delete? && Enabled(c, s, e)
    ensures Settling(Next(c, s, e), i, tolerant, since)
  {
    ReadSays(c, s, c.userCache, e.id, i, tolerant, since);
    DeleteWithSettles(c, Read(s, c.userCache, e.id), Found(s, c.userCache, e.id), e.requester, i, tolerant, since);
  }

  lemma DeleteFetchedSettles(c: Config, s: State, e: Step, i: int, tolerant: bool, since: int)
    requires Shape(c, s) && Settling(s, i, tolerant, since) && e.DeleteFetched? && Enabled(c, s, e)
    ensures Settling(Next(c, s, e), i, tolerant, since)
  {
    DeleteWithSettles(c, s.(tasks := s.tasks - {e.task}), s.tasks[e.task].user, e.requester, i, tolerant, since);
  }

  lemma GetSettles(c: Config, s: State, e: Step, i: int, tolerant: bool, since: int)
    requires Shape(c, s) && Settling(s, i, tolerant, since) && Enabled(c, s, e) && (e.Validate? || e.Get?)
    ensures Settling(Next(c, s, e), i, tolerant, since)
  {
    match e
    case Validate(token) =>
      if token.Signed? {
        ReadSays(c, s, c.authCache, token.id, i, tolerant, since);
      }
    case Get(id) => ReadSays(c, s, c.userCache, id, i, tolerant, since);
  }

  /** Nothing is put, appended or written; requests may end, records may be committed, time may pass. */
  ghost predicate Calm(s: State, s': State) {
    && s'.shards == s.shards && s'.cache == s.cache && s'.log == s.log && HasShards(s')
    && s.committed <= s'.committed && s.clock <= s'.clock
    && forall t :: t in s'.tasks ==> t in s.tasks && s'.tasks[t] == s.tasks[t]
  }

  lemma CalmSettles(s: State, s': State, i: int, tolerant: bool, since: int)
    requires Settling(s, i, tolerant, since) && Calm(s, s')
    ensures Settling(s', i, tolerant, since)
  {
    assert forall e :: Live(e, s'.clock) ==> Live(e, s.clock);
  }

  predicate IsCalm(e: Step) {
    || e.Finish? || e.Start? || e.Poll? || e.TakeId? || e.Commit? || e.Crash?
    || e.Grant? || e.Revoke? || e.LoseId? || e.Tick? || e.StartSearch? || e.SelectShard?
  }

  lemma CalmSteps(c: Config, s: State, e: Step)
    requires QueueOk(s.log, s.committed, s.consumer) && Enabled(c, s, e) && IsCalm(e)
    ensures Calm(s, Next(c, s, e))
  {
  }

  lemma CalmStepSettles(c: Config, s: State, e: Step, i: int, tolerant: bool, since: int)
    requires Inv(c, s, false) && Settling(s, i, tolerant, since) && Enabled(c, s, e) && IsCalm(e)
    ensures Settling(Next(c, s, e), i, tolerant, since)
  {
    CalmSteps(c, s, e);
    CalmSettles(s, Next(c, s, e), i, tolerant, since);
  }

  lemma ReadStepSettles(c: Config, s: State, e: Step, i: int, tolerant: bool, since: int)
    requires Inv(c, s, false) && Settling(s, i, tolerant, since) && Enabled(c, s, e) && IsReadStep(e)
    requires tolerant ==> NotRenewed(c, T(s), i)
    ensures Settling(Next(c, s, e), i, tolerant, since)
  {
    if e.SignIn? {
      SignInSettles(c, s, e, i, tolerant, since);
    } else if e.Search? {
      SearchSettles(c, s, e, i, tolerant, since);
    } else if e.SignUp? {
      SignUpSettles(c, s, e, i, tolerant, since);
    } else if e.Fetch? {
      FetchSettles(c, s, e, i, tolerant, since);
    } else if e.Put? {
      PutSettles(s, e.task, i, tolerant, since);
    } else {
      GetSettles(c, s, e, i, tolerant, since);
    }
  }

  lemma NextSettles(c: Config, s: State, e: Step, i: int, tolerant: bool, since: int)
    requires Inv(c, s, false) && Settling(s, i, tolerant, since) && Enabled(c, s, e)
    requires tolerant ==> NotRenewed(c, T(s), i) && AddsNoRevival(s, Next(c, s, e), i)
    ensures Settling(Next(c, s, e), i, tolerant, since)
  {
    if IsReadStep(e) {
      ReadStepSettles(c, s, e, i, tolerant, since);
    } else if e.Edit? || e.EditFetched? {
      EditSettles(c, s, e, i, tolerant, since);
    } else if e.Delete? {
      DeleteSettles(c, s, e, i, tolerant, since);
    } else if e.DeleteFetched? {
      DeleteFetchedSettles(c, s, e, i, tolerant, since);
    } else if e.Apply? || e.Insert? || e.SetUp? {
      RowStepKeepsDeleted(c, s, e, Next(c, s, e), i);
      RowsOnlySettles(s, Next(c, s, e), i, tolerant, since);
    } else if e.SaveSearch? {
      SaveSearchSettles(c, s, e, i, tolerant, since);
    } else {
      CalmStepSettles(c, s, e, i, tolerant, since);
    }
  }

  lemma SealedStep(c: Config, run: seq<State>, steps: seq<Step>, k: nat, i: int)
    requires IsRun(c, run, steps) && k < |steps| && Sealed(run[k], i)
    ensures Sealed(run[k + 1], i)
  {
    RunNext(c, run, steps, k);
    NextSettles(c, run[k], steps[k], i, false, 0);
  }

  /** Once sealed, a deletion lasts whatever happens. */
  lemma {:induction false} SealedForever(c: Config, run: seq<State>, steps: seq<Step>, j: nat, k: nat, i: int)
    requires IsRun(c, run, steps) && j <= k < |run| && Sealed(run[j], i)
    ensures Sealed(run[k], i) && T(run[k])[i].deleted
  {
    if j < k {
      SealedForever(c, run, steps, j, k - 1, i);
      SealedStep(c, run, steps, k - 1, i);
    }
  }

  lemma RecordsSplit(early: seq<Json>, mid: seq<Json>, late: seq<Json>, i: int)
    requires early <= mid <= late && RecordsSay(late, |early|, i)
    ensures RecordsSay(mid, |early|, i) && RecordsSay(late, |mid|, i)
  {
    forall p | |early| <= p < |mid|
      ensures RecordSays(mid[p], i)
    {
      assert RecordSays(late[p], i);
    }
  }

  lemma LogsOnTheWay(c: Config, run: seq<State>, steps: seq<Step>, j: nat, k: nat)
    requires IsRun(c, run, steps) && j < k < |run|
    ensures run[j].log <= run[k - 1].log <= run[k].log
  {
    RunLogGrows(c, run, steps, j, k - 1);
    RunLogGrows(c, run, steps, k - 1, k);
  }

  lemma SettlesOneMore(c: Config, s: State, e: Step, s': State, log0: seq<Json>, i: int, since: int)
    requires Inv(c, s, false) && Does(c, s, e, s') && NotRenewed(c, T(s), i)
    requires Settling(s, i, true, since) && log0 <= s.log <= s'.log && RecordsSay(s'.log, |log0|, i)
    ensures Settling(s', i, true, since)
  {
    RecordsSplit(log0, s.log, s'.log, i);
    NextSettles(c, s, e, i, true, since);
  }

  lemma RunNotRenewed(c: Config, run: seq<State>, steps: seq<Step>, j: nat, k: nat, i: int)
    requires IsRun(c, run, steps) && j <= k < |run| && HasShards(run[j]) && NotRenewed(c, T(run[j]), i)
    ensures HasShards(run[k]) && NotRenewed(c, T(run[k]), i)
  {
    RunGrows(c, run, steps, j, k, false);
  }

  lemma StepFacts(c: Config, run: seq<State>, steps: seq<Step>, j: nat, k: nat, i: int)
    requires IsRun(c, run, steps) && j < k < |run| && HasShards(run[j]) && NotRenewed(c, T(run[j]), i)
    ensures Inv(c, run[k - 1], false) && Does(c, run[k - 1], steps[k - 1], run[k]) && NotRenewed(c, T(run[k - 1]), i)
  {
    RunNext(c, run, steps, k - 1);
    RunNotRenewed(c, run, steps, j, k - 1, i);
  }

  lemma StepSettles(c: Config, run: seq<State>, steps: seq<Step>, j: nat, k: nat, i: int, since: int)
    requires IsRun(c, run, steps) && j < k < |run| && HasShards(run[j]) && NotRenewed(c, T(run[j]), i)
    requires run[j].log <= run[k - 1].log <= run[k].log && RecordsSay(run[k].log, |run[j].log|, i)
    requires Settling(run[k - 1], i, true, since)
    ensures Settling(run[k], i, true, since)
  {
    StepFacts(c, run, steps, j, k, i);
    SettlesOneMore(c, run[k - 1], steps[k - 1], run[k], run[j].log, i, since);
  }

  lemma {:induction false} RunSettles(c: Config, run: seq<State>, steps: seq<Step>, j: nat, k: nat, i: int, since: int)
    requires IsRun(c, run, steps) && j <= k < |run| && HasShards(run[j]) && NotRenewed(c, T(run[j]), i)
    requires Settling(run[j], i, true, since) && RecordsSay(run[k].log, |run[j].log|, i)
    ensures Settling(run[k], i, true, since)
    decreases k
  {
    if j < k {
      LogsOnTheWay(c, run, steps, j, k);
      RecordsSplit(run[j].log, run[k - 1].log, run[k].log, i);
      RunSettles(c, run, steps, j, k - 1, i, since);
      StepSettles(c, run, steps, j, k, i, since);
    }
  }

  /** A deletion made with no undeleted event or request pending for i is sealed once the life of an entry has passed
      without an edit of i, unless a cached sign-in can renew an old value; from then on it lasts. */
  lemma DeletionSettles(c: Config, run: seq<State>, steps: seq<Step>, j: nat, k: nat, last: nat, i: int)
    requires IsRun(c, run, steps) && j <= k <= last < |run|
    requires HasShards(run[j]) && RowDeleted(T(run[j]), i) && NotRenewed(c, T(run[j]), i)
    requires RecordsSay(run[j].log, run[j].committed, i) && TasksSay(run[j].tasks, i, false)
    requires RecordsSay(run[k].log, |run[j].log|, i) && TasksSay(run[k].tasks, i, false)
    requires run[k].clock - run[j].clock > LIFETIME
    ensures Sealed(run[k], i)
    ensures Sealed(run[last], i) && T(run[last])[i].deleted
  {
    RunTimes(c, run, steps, j);
    RunSettles(c, run, steps, j, k, i, run[j].clock);
    SealedForever(c, run, steps, k, last, i);
  }

  /** One record undoes a deletion exactly when it is an update of the row that says undeleted and no
      constraint of the shard refuses it. */
  lemma RevivedExactly(c: Config, s: State, i: int)
    requires Inv(c, s, false) && Enabled(c, s, Apply) && RowDeleted(T(s), i)
    ensures
      var u := FromJson(s.log[s.committed]).value;
      && FromJson(s.log[s.committed]).Some? && HasShards(ApplyPolled(s)) && i in T(ApplyPolled(s))
      && (!T(ApplyPolled(s))[i].deleted <==> u.id == i && !u.deleted && !ClashIn(T(s), |s.shards|, u))
  {
    assert ObjectOk(T(s), s.log[s.committed].fields, false);
    RecordRevives(c, s, FromJson(s.log[s.committed]).value, i);
  }

  lemma RecordRevives(c: Config, s: State, u: User, i: int)
    requires Basics(c, s) && Possible(c, s, Apply) && RowDeleted(T(s), i) && FromJson(s.log[s.committed]) == Some(u)
    ensures HasShards(ApplyPolled(s)) && i in T(ApplyPolled(s))
    ensures !T(ApplyPolled(s))[i].deleted <==> u.id == i && !u.deleted && !ClashIn(T(s), |s.shards|, u)
  {
    if u.id > 0 {
      UpdateRefines(s.shards, u);
    }
  }

  /** The owner's deletion of the row as it is. */
  lemma OwnDelete(c: Config, s: State, i: int)
    requires Inv(c, s, false) && i in T(s) && Found(s, c.userCache, i) == T(s)[i]
    requires !ClashIn(T(s), |s.shards|, T(s)[i])
    ensures
      var s' := Next(c, s, Delete(i, i));
      && Inv(c, s', false) && T(s') == T(s)[i := T(s)[i].(deleted := true)] && |s'.shards| == |s.shards|
      && s'.log == s.log && s'.committed == s.committed && s'.consumer == s.consumer
  {
    var u := T(s)[i].(deleted := true);
    ReadInv(c, s, false, c.userCache, i);
    UpdateRefines(s.shards, u);
    NextInv(c, s, false, Delete(i, i));
  }

  /** A stopped consumer with an undeleted, acceptable event of the deleted row i first in line. */
  ghost predicate RevivalDue(c: Config, s: State, i: int) {
    && Inv(c, s, false) && s.consumer.Down? && s.committed < |s.log| && RowDeleted(T(s), i)
    && FromJson(s.log[s.committed]).Some?
    && var u := FromJson(s.log[s.committed]).value;
       u.id == i && !u.deleted && !ClashIn(T(s), |s.shards|, u)
  }

  lemma RevivalFacts(c: Config, s: State, s1: State, s2: State, i: int)
    requires RevivalDue(c, s, i)
    requires s1 == s.(consumer := Idle(s.committed)) && s2 == s.(consumer := Polled(s.committed))
    ensures Enabled(c, s, Start) && s1 == Next(c, s, Start)
    ensures Enabled(c, s1, Poll) && s2 == Next(c, s1, Poll)
    ensures Enabled(c, s2, Apply)
    ensures HasShards(ApplyPolled(s2)) && i in T(ApplyPolled(s2)) && !T(ApplyPolled(s2))[i].deleted
  {
    NextInv(c, s, false, Start);
    NextInv(c, s1, false, Poll);
    RevivedExactly(c, s2, i);
  }

  lemma ThreeSteps(c: Config, s: State, s1: State, s2: State, s3: State)
    requires Enabled(c, s, Start) && s1 == Next(c, s, Start)
    requires Enabled(c, s1, Poll) && s2 == Next(c, s1, Poll)
    requires Enabled(c, s2, Apply) && s3 == Next(c, s2, Apply)
    ensures Moves(c, [s, s1, s2, s3], [Start, Poll, Apply])
  {
    var run, steps := [s, s1, s2, s3], [Start, Poll, Apply];
    forall k | 0 <= k < 3
      ensures StepAt(c, run, steps, k)
    {
      assert k == 0 || k == 1 || k == 2;
    }
  }

  /** Start, poll, apply. */
  lemma Revival(c: Config, s: State, i: int) returns (run: seq<State>)
    requires RevivalDue(c, s, i)
    ensures Moves(c, run, [Start, Poll, Apply]) && run[0] == s
    ensures HasShards(run[3]) && i in T(run[3]) && !T(run[3])[i].deleted
  {
    var s1, s2 := s.(consumer := Idle(s.committed)), s.(consumer := Polled(s.committed));
    RevivalFacts(c, s, s1, s2, i);
    ThreeSteps(c, s, s1, s2, ApplyPolled(s2));
    run := [s, s1, s2, ApplyPolled(s2)];
  }

  lemma NoClashAfterWrite(t: Table, n: nat, u: User, v: User)
    requires n > 0 && !ClashIn(t, n, u) && v.id == u.id
    ensures !ClashIn(t[u.id := v], n, u)
  {
    forall id | id in t && id != u.id && ShardOf(id, n) == ShardOf(u.id, n)
      ensures !SameLoginOrEmail(t[id], u.login, u.email)
    {
    }
  }

  /** An edit of i has just been applied but not committed, and nothing stands against deleting the row. */
  ghost predicate JustEdited(c: Config, s: State, i: int) {
    && Inv(c, s, false) && s.consumer.Applied? && i > 0 && i in T(s)
    && FromJson(s.log[s.committed]) == Some(T(s)[i]) && !T(s)[i].deleted
    && Found(s, c.userCache, i) == T(s)[i] && !ClashIn(T(s), |s.shards|, T(s)[i])
  }

  lemma DeleteFacts(c: Config, s: State, s1: State, i: int)
    requires JustEdited(c, s, i) && s1 == s.(consumer := Down)
    ensures Enabled(c, s, Crash) && s1 == Next(c, s, Crash) && Enabled(c, s1, Delete(i, i))
    ensures RevivalDue(c, Next(c, s1, Delete(i, i)), i)
  {
    NextInv(c, s, false, Crash);
    OwnDelete(c, s1, i);
    NoClashAfterWrite(T(s), |s.shards|, T(s)[i], T(s)[i].(deleted := true));
  }

  /** A crash between save and commit, then the owner's deletion. */
  lemma CrashThenDelete(c: Config, s: State, i: int) returns (run: seq<State>)
    requires JustEdited(c, s, i)
    ensures Moves(c, run, [Crash, Delete(i, i)]) && run[0] == s && RevivalDue(c, run[2], i)
  {
    var s1 := s.(consumer := Down);
    DeleteFacts(c, s, s1, i);
    var s2 := Next(c, s1, Delete(i, i));
    TwoSteps(c, s, Crash, s1, Delete(i, i), s2);
    run := [s, s1, s2];
  }

  ghost predicate DeletedAt(s: State, i: int, deleted: bool) {
    HasShards(s) && i in T(s) && T(s)[i].deleted == deleted
  }

  /** After a crash between save and commit the redelivered edit undoes a later deletion: effectively-once needs
      runs without direct deletes, and a deletion with a pending event does not last. */
  lemma RedeliveryUndoesDelete(c: Config, s: State, i: int) returns (run: seq<State>)
    requires JustEdited(c, s, i)
    ensures Moves(c, run, [Crash, Delete(i, i), Start, Poll, Apply]) && run[0] == s
    ensures DeletedAt(run[2], i, true) && DeletedAt(run[5], i, false)
  {
    var before := CrashThenDelete(c, s, i);
    var after := Revival(c, before[2], i);
    JoinMoves(c, before, [Crash, Delete(i, i)], after, [Start, Poll, Apply]);
    run := before + after[1..];
    assert [Crash, Delete(i, i)] + [Start, Poll, Apply] == [Crash, Delete(i, i), Start, Poll, Apply];
    assert run[2] == before[2] && run[5] == after[3];
  }
}
