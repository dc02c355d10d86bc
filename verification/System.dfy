/** The store, the cache, the log and the clock as one transition system. */
module System {
  import opened Wrappers
  import opened Users
  import opened Decimal
  import opened Sharding
  import opened CacheModel
  import opened Repository
  import opened Validation
  import opened Tokens
  import opened Edits

  datatype Config = Config(maxShard: nat, userCache: bool, authCache: bool)

  /** Who calls get_by_id: a request of the user service, a validation, or a sign-in that found its row. */
  datatype Caller = ByUser | ByValidate | BySignIn

  /** Whether the caller's service has the cache. */
  predicate On(c: Config, caller: Caller) {
    if caller.ByUser? then c.userCache else c.authCache
  }

  /** A request that has its user from get_by_id: still to be put under the id, under the login, or returned.
      A sign-in puts it under both keys again. */
  datatype Stage = PutId | PutLogin | PutIdAgain | PutLoginAgain | Ready

  datatype Task = Task(user: User, stage: Stage, caller: Caller) {
    /** The key of the next put. */
    function Key(): string {
      if stage.PutId? || stage.PutIdAgain? then ToString(user.id) else user.login
    }

    function AfterPut(): Task {
      match stage
      case PutId => this.(stage := PutLogin)
      case PutLogin => this.(stage := if caller.BySignIn? then PutIdAgain else Ready)
      case PutIdAgain => this.(stage := PutLoginAgain)
      case _ => this.(stage := Ready)
    }
  }

  /** A search that missed the cache: the rows so far, and the next shard to select from. */
  datatype Scan = Scan(like: Query, rows: seq<User>, next: nat)

  /** Where the consumer is with the record at pos. */
  datatype Consumer =
    | Down
    | Idle(pos: nat)
    | Polled(pos: nat)
    | Absent(pos: nat)
    | Numbered(pos: nat, id: int)
    | Applied(pos: nat)

  datatype State = State(
    shards: seq<Table>,
    roles: seq<RoleTable>,
    nextId: int,
    cache: Entries,
    log: seq<Json>,
    committed: nat,
    consumer: Consumer,
    tasks: map<nat, Task>,
    scans: map<nat, Scan>,
    clock: int)

  datatype Step =
    | SignUp(body: Json, sent: bool)
    | SignIn(login: string, password: string, answer: int)
    | Validate(token: Token)
    | Get(id: int)
    | Search(like: Query, rows: seq<User>)
    | Edit(requester: int, changes: Object, sent: bool)
    | Delete(requester: int, id: int)
      // a request cut at its accesses to shared state
    | Fetch(task: nat, caller: Caller, id: int)
    | Put(task: nat)
    | EditFetched(task: nat, requester: int, changes: Object, sent: bool)
    | DeleteFetched(task: nat, requester: int)
    | Finish(task: nat)
      // a search cut at every select and at the save
    | StartSearch(task: nat, like: Query)
    | SelectShard(task: nat, rows: seq<User>)
    | SaveSearch(task: nat)
      // the consumer
    | Start
    | Poll
    | Apply
    | TakeId
    | Insert
    | Commit
    | Crash
      // set-up, roles, time
    | SetUp
    | Grant(id: int, role: string)
    | Revoke(id: int, role: string)
    | LoseId
    | Tick(d: nat)

  /** Every state has at least one shard. */
  ghost predicate HasShards(s: State) {
    |s.shards| > 0 && |s.roles| > 0
  }

  ghost function T(s: State): Table
    requires HasShards(s)
  {
    Logical(s.shards)
  }

  ghost predicate Init(c: Config, s: State) {
    && |s.shards| == c.maxShard + 1 && |s.roles| == c.maxShard + 1
    && (forall k :: 0 <= k < |s.shards| ==> s.shards[k] == map[])
    && (forall k :: 0 <= k < |s.roles| ==> s.roles[k] == {})
    && s.nextId == 1 && s.cache == map[] && s.log == [] && s.committed == 0
    && s.consumer == Down && s.tasks == map[] && s.scans == map[]
  }

  /** A sign-up body as the interface describes it: without a positive id. */
  ghost predicate SchemaBody(body: Json) {
    FromJson(body).Some? ==> FromJson(body).value.id <= 0
  }

  ghost predicate SignInByCache(c: Config, s: State, login: string, password: string) {
    var cached := CachedUser(s.cache, s.clock, c.authCache, login);
    cached.id > 0 && cached.password == password
  }

  /** The user a user-service request for an id gets. */
  ghost function Found(s: State, on: bool, id: int): User
    requires HasShards(s)
  {
    FoundUser(s.shards, s.cache, s.clock, on, id)
  }

  /** A request of the user service that has its user and is past its puts. */
  ghost predicate HasFetched(s: State, task: nat) {
    task in s.tasks && s.tasks[task].stage == Ready && s.tasks[task].caller.ByUser?
  }

  /** The answer of get_by_id is taken; a sign-in asks for an undeleted row, which its credentials have matched. */
  ghost predicate MayFetch(c: Config, s: State, caller: Caller, id: int)
    requires HasShards(s)
  {
    && Found(s, On(c, caller), id).id > 0
    && (caller.BySignIn? ==> c.authCache && id in T(s) && !T(s)[id].deleted)
  }

  /** What the code admits: sign-up bodies of every shape. */
  ghost predicate Possible(c: Config, s: State, e: Step) {
    && HasShards(s)
    && match e
       case SignIn(login, password, answer) =>
         if SignInByCache(c, s, login, password)
         then answer == CachedUser(s.cache, s.clock, c.authCache, login).id
         else IsAuthAnswer(T(s), login, password, answer)
       case Search(like, rows) =>
         ListHit(s.cache, s.clock, c.userCache, SearchKey(like)) || IsListing(rows, T(s), SqlOf(like))
       case Fetch(task, caller, id) => task !in s.tasks && MayFetch(c, s, caller, id)
       case Put(task) => task in s.tasks && s.tasks[task].stage != Ready
       case EditFetched(task, _, _, _) => HasFetched(s, task)
       case DeleteFetched(task, _) => HasFetched(s, task)
       case Finish(task) => task in s.tasks
       case StartSearch(task, like) =>
         task !in s.scans && !ListHit(s.cache, s.clock, c.userCache, SearchKey(like))
       case SelectShard(task, rows) =>
         && task in s.scans && s.scans[task].next < |s.shards|
         && IsListing(rows, s.shards[s.scans[task].next], SqlOf(s.scans[task].like))
       case SaveSearch(task) => task in s.scans && s.scans[task].next == |s.shards|
       case Start => s.consumer.Down?
       case Poll => s.consumer.Idle? && s.consumer.pos < |s.log|
       case Apply => s.consumer.Polled? && s.consumer.pos < |s.log|
       case TakeId => s.consumer.Absent?
       case Insert => s.consumer.Numbered? && s.consumer.pos < |s.log| && FromJson(s.log[s.consumer.pos]).Some?
       case Commit => s.consumer.Applied?
       case SetUp => !s.consumer.Absent? && !s.consumer.Numbered?
       case _ => true
  }

  /** The steps of the runs: sign-up bodies are as the interface describes them. */
  ghost predicate Enabled(c: Config, s: State, e: Step) {
    Possible(c, s, e) && (e.SignUp? ==> SchemaBody(e.body))
  }

  ghost function Read(s: State, on: bool, id: int): State
    requires HasShards(s)
  {
    s.(cache := FoundCache(s.shards, s.cache, s.clock, on, id))
  }

  ghost function EditWith(s: State, u: User, requester: int, body: Object, sent: bool): State
    requires HasShards(s)
  {
    match EditOutcome(u, requester, HasRole(s.roles, requester, "admin"), body)
    case Ok(edited) => if sent then s.(log := s.log + [Obj(ToJson(edited))]) else s
    case Err(_) => s
  }

  ghost predicate MayDelete(s: State, u: User, requester: int)
    requires HasShards(s)
  {
    u.id > 0 && (requester == u.id || HasRole(s.roles, requester, "admin"))
  }

  ghost function DeleteWith(s: State, u: User, requester: int): State
    requires HasShards(s)
  {
    if !MayDelete(s, u, requester) then s
    else
      match UpdateRow(s.shards, u.(deleted := true))
      case Some(written) => s.(shards := written)
      case None => s
  }

  ghost function PutTask(s: State, task: nat): State
    requires task in s.tasks
  {
    var x := s.tasks[task];
    s.(cache := PutEntry(s.cache, s.clock, true, x.Key(), Obj(ToJsonWithPassword(x.user))),
       tasks := s.tasks[task := x.AfterPut()])
  }

  /** After a miss the row is put; after a hit only a sign-in puts. */
  ghost function FetchTask(c: Config, s: State, task: nat, caller: Caller, id: int): State
    requires HasShards(s)
  {
    var cached := CachedUser(s.cache, s.clock, On(c, caller), ToString(id)).id > 0;
    var stage :=
      if !On(c, caller) then Ready
      else if !cached then PutId
      else if caller.BySignIn? then PutIdAgain else Ready;
    s.(tasks := s.tasks[task := Task(Found(s, On(c, caller), id), stage, caller)])
  }

  ghost function SelectFor(s: State, task: nat, rows: seq<User>): State
    requires task in s.scans
  {
    var x := s.scans[task];
    s.(scans := s.scans[task := x.(rows := x.rows + rows, next := x.next + 1)])
  }

  ghost function SaveScan(c: Config, s: State, task: nat): State
    requires task in s.scans
  {
    var x := s.scans[task];
    s.(cache := PutList(s.cache, s.clock, c.userCache, RewriteQuery(x.like), x.rows), scans := s.scans - {task})
  }

  /** Decode and save: an update is written here, a create is only looked up. An exception ends the consumer. */
  ghost function ApplyPolled(s: State): State
    requires HasShards(s) && s.consumer.Polled? && s.consumer.pos < |s.log|
  {
    var pos := s.consumer.pos;
    match FromJson(s.log[pos])
    case None => s.(consumer := Down)
    case Some(u) =>
      if u.id > 0 then
        match UpdateRow(s.shards, u)
        case Some(written) => s.(shards := written, consumer := Applied(pos))
        case None => s.(consumer := Down)
      else if ExistsIn(T(s), u.login, u.email) then s.(consumer := Applied(pos))
      else s.(consumer := Absent(pos))
  }

  ghost function InsertNumbered(s: State): State
    requires HasShards(s) && s.consumer.Numbered? && s.consumer.pos < |s.log| && FromJson(s.log[s.consumer.pos]).Some?
  {
    match InsertRow(s.shards, FromJson(s.log[s.consumer.pos]).value.(id := s.consumer.id))
    case Some(written) => s.(shards := written, consumer := Applied(s.consumer.pos))
    case None => s.(consumer := Down)
  }

  ghost function SetUpAdmin(s: State): State
    requires HasShards(s)
  {
    if ExistsIn(T(s), ADMIN.login, ADMIN.email) then s
    else
      match InsertRow(s.shards, ADMIN.(id := s.nextId))
      case Some(written) => s.(shards := written, nextId := s.nextId + 1)
      case None => s.(nextId := s.nextId + 1)
  }

  ghost function SignUpSent(s: State, body: Json, sent: bool): State {
    if FromJson(body).Some? && WellFormed(FromJson(body).value) && |FromJson(body).value.password| >= 3 && sent
    then s.(log := s.log + [Obj(ToJson(FromJson(body).value))]) else s
  }

  ghost function SignedIn(c: Config, s: State, login: string, password: string, answer: int): State
    requires HasShards(s)
  {
    if SignInByCache(c, s, login, password) then s
    else s.(cache := AuthCache(s.shards, s.cache, s.clock, c.authCache, answer))
  }

  ghost function SearchDone(c: Config, s: State, like: Query, rows: seq<User>): State {
    if ListHit(s.cache, s.clock, c.userCache, SearchKey(like)) then s
    else
      var left := CachedRows(s.cache, s.clock, c.userCache, SearchKey(like));
      s.(cache := PutList(s.cache, s.clock, c.userCache, RewriteQuery(like), left + rows))
  }

  ghost function EditAsked(c: Config, s: State, requester: int, body: Object, sent: bool): State
    requires HasShards(s)
  {
    if Id !in body || !body[Id].Num? then s
    else EditWith(Read(s, c.userCache, body[Id].n), Found(s, c.userCache, body[Id].n), requester, body, sent)
  }

  ghost function SearchStarted(c: Config, s: State, task: nat, like: Query): State {
    s.(scans := s.scans[task := Scan(like, CachedRows(s.cache, s.clock, c.userCache, SearchKey(like)), 0)])
  }

  ghost function Next(c: Config, s: State, e: Step): State
    requires Possible(c, s, e)
  {
    match e
    case SignUp(body, sent) => SignUpSent(s, body, sent)
    case SignIn(login, password, answer) => SignedIn(c, s, login, password, answer)
    case Validate(token) => if token.Signed? then Read(s, c.authCache, token.id) else s
    case Get(id) => if id < 1 then s else Read(s, c.userCache, id)
    case Search(like, rows) => SearchDone(c, s, like, rows)
    case Edit(requester, body, sent) => EditAsked(c, s, requester, body, sent)
    case Delete(requester, id) =>
      if id < 0 then s else DeleteWith(Read(s, c.userCache, id), Found(s, c.userCache, id), requester)
    case Fetch(task, caller, id) => FetchTask(c, s, task, caller, id)
    case Put(task) => PutTask(s, task)
    case EditFetched(task, requester, body, sent) =>
      EditWith(s.(tasks := s.tasks - {task}), s.tasks[task].user, requester, body, sent)
    case DeleteFetched(task, requester) => DeleteWith(s.(tasks := s.tasks - {task}), s.tasks[task].user, requester)
    case Finish(task) => s.(tasks := s.tasks - {task})
    case StartSearch(task, like) => SearchStarted(c, s, task, like)
    case SelectShard(task, rows) => SelectFor(s, task, rows)
    case SaveSearch(task) => SaveScan(c, s, task)
    case Start => s.(consumer := Idle(s.committed))
    case Poll => s.(consumer := Polled(s.consumer.pos))
    case Apply => ApplyPolled(s)
    case TakeId => s.(consumer := Numbered(s.consumer.pos, s.nextId), nextId := s.nextId + 1)
    case Insert => InsertNumbered(s)
    case Commit => s.(consumer := Idle(s.consumer.pos + 1), committed := s.consumer.pos + 1)
    case Crash => s.(consumer := Down)
    case SetUp => SetUpAdmin(s)
    case Grant(id, role) => s.(roles := WithRole(s.roles, id, role))
    case Revoke(id, role) => s.(roles := WithoutRole(s.roles, id, role))
    case LoseId => s.(nextId := s.nextId + 1)
    case Tick(d) => s.(clock := s.clock + d)
  }

  /** One step leads from s to s'. */
  ghost predicate Does(c: Config, s: State, e: Step, s': State) {
    Enabled(c, s, e) && s' == Next(c, s, e)
  }

  /** What validate answers for a token. */
  ghost function Verdict(c: Config, s: State, token: Token): Result<User>
    requires HasShards(s)
  {
    if !token.Signed? then Err(AccessDenied)
    else
      var found := Found(s, c.authCache, token.id);
      if found.id <= 0 || found.deleted then Err(AccessDenied) else Ok(found)
  }

  /** One step of the code as it is; for a sign-up body as the interface describes it, a step of the runs. */
  ghost predicate OpenDoes(c: Config, s: State, e: Step, s': State) {
    Possible(c, s, e) && s' == Next(c, s, e)
  }

  ghost predicate StepAt(c: Config, run: seq<State>, steps: seq<Step>, i: int)
    requires |run| == |steps| + 1 && 0 <= i < |steps|
  {
    Enabled(c, run[i], steps[i]) && run[i + 1] == Next(c, run[i], steps[i])
  }

  /** A run segment: each state leads to the next by its step. */
  ghost predicate Moves(c: Config, run: seq<State>, steps: seq<Step>) {
    |run| == |steps| + 1 && forall i :: 0 <= i < |steps| ==> StepAt(c, run, steps, i)
  }

  ghost predicate IsRun(c: Config, run: seq<State>, steps: seq<Step>) {
    Moves(c, run, steps) && Init(c, run[0])
  }

  ghost predicate OpenStepAt(c: Config, run: seq<State>, steps: seq<Step>, i: int)
    requires |run| == |steps| + 1 && 0 <= i < |steps|
  {
    OpenDoes(c, run[i], steps[i], run[i + 1])
  }

  /** A run segment of the code as it is: sign-up bodies of every shape are admitted. */
  ghost predicate OpenMoves(c: Config, run: seq<State>, steps: seq<Step>) {
    |run| == |steps| + 1 && forall i :: 0 <= i < |steps| ==> OpenStepAt(c, run, steps, i)
  }

  ghost predicate IsOpenRun(c: Config, run: seq<State>, steps: seq<Step>) {
    OpenMoves(c, run, steps) && Init(c, run[0])
  }

  lemma MovesAreOpen(c: Config, run: seq<State>, steps: seq<Step>)
    requires Moves(c, run, steps)
    ensures OpenMoves(c, run, steps)
  {
    forall i | 0 <= i < |steps|
      ensures OpenStepAt(c, run, steps, i)
    {
      assert StepAt(c, run, steps, i);
    }
  }

  lemma PrependStep(c: Config, s: State, e: Step, run: seq<State>, steps: seq<Step>)
    requires Moves(c, run, steps) && Enabled(c, s, e) && Next(c, s, e) == run[0]
    ensures Moves(c, [s] + run, [e] + steps)
  {
    var run', steps' := [s] + run, [e] + steps;
    forall i | 0 <= i < |steps'|
      ensures StepAt(c, run', steps', i)
    {
      if i > 0 {
        assert StepAt(c, run, steps, i - 1);
        assert run'[i] == run[i - 1] && steps'[i] == steps[i - 1] && run'[i + 1] == run[i];
      }
    }
  }

  lemma AppendStep(c: Config, run: seq<State>, steps: seq<Step>, e: Step, s: State)
    requires Moves(c, run, steps) && Enabled(c, run[|steps|], e) && s == Next(c, run[|steps|], e)
    ensures Moves(c, run + [s], steps + [e])
  {
    var run', steps' := run + [s], steps + [e];
    forall i | 0 <= i < |steps'|
      ensures StepAt(c, run', steps', i)
    {
      if i < |steps| {
        assert StepAt(c, run, steps, i);
        assert run'[i] == run[i] && run'[i + 1] == run[i + 1];
      }
    }
  }

  /** Two segments that meet make one. */
  lemma JoinMoves(c: Config, run: seq<State>, steps: seq<Step>, run': seq<State>, steps': seq<Step>)
    requires Moves(c, run, steps) && Moves(c, run', steps') && run[|steps|] == run'[0]
    ensures Moves(c, run + run'[1..], steps + steps')
  {
    var all, es := run + run'[1..], steps + steps';
    forall i | 0 <= i < |es|
      ensures StepAt(c, all, es, i)
    {
      if i < |steps| {
        assert StepAt(c, run, steps, i);
        assert all[i] == run[i] && all[i + 1] == run[i + 1];
      } else {
        assert StepAt(c, run', steps', i - |steps|);
        assert all[i] == run'[i - |steps|] && all[i + 1] == run'[i + 1 - |steps|];
      }
    }
  }

  lemma TwoSteps(c: Config, s: State, e: Step, s1: State, e1: Step, s2: State)
    requires Enabled(c, s, e) && s1 == Next(c, s, e) && Enabled(c, s1, e1) && s2 == Next(c, s1, e1)
    ensures Moves(c, [s, s1, s2], [e, e1])
  {
    forall i | 0 <= i < 2
      ensures StepAt(c, [s, s1, s2], [e, e1], i)
    {
      assert i == 0 || i == 1;
    }
  }

  ghost predicate RunTo(c: Config, run: seq<State>, steps: seq<Step>, s: State) {
    IsRun(c, run, steps) && run[|steps|] == s
  }

  /** Some run from an initial state ends in s. */
  ghost predicate Reachable(c: Config, s: State) {
    exists run, steps :: RunTo(c, run, steps, s)
  }

  lemma InitReachable(c: Config, s: State)
    requires Init(c, s)
    ensures Reachable(c, s)
  {
    assert RunTo(c, [s], [], s);
  }

  lemma StepReachable(c: Config, s: State, e: Step, s': State)
    requires Reachable(c, s) && Does(c, s, e, s')
    ensures Reachable(c, s')
  {
    var run, steps :| RunTo(c, run, steps, s);
    AppendStep(c, run, steps, e, s');
    assert RunTo(c, run + [s'], steps + [e], s');
  }

  /** All theorems about runs hold of what a segment reaches from a reachable state. */
  lemma MovesReachable(c: Config, run: seq<State>, steps: seq<Step>)
    requires Moves(c, run, steps) && Reachable(c, run[0])
    ensures Reachable(c, run[|steps|])
  {
    var run0, steps0 :| RunTo(c, run0, steps0, run[0]);
    JoinMoves(c, run0, steps0, run, steps);
    assert RunTo(c, run0 + run[1..], steps0 + steps, run[|steps|]);
  }
}
