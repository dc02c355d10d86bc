/** Runs from the empty system that reach the situations the negative results start from. */
module Scenarios {
  import opened Wrappers
  import opened Users
  import opened Decimal
  import opened Sharding
  import opened CacheModel
  import opened Edits
  import opened Validation
  import opened System
  import opened Invariant
  import opened Consuming
  import opened Deletion
  import opened CrashTolerance

  const FIRST := ADMIN.(id := 1)
  const RENAMED := FIRST.(name := "abc")
  const RENAME: Object := map[Id := Num(1), Name := Str("abc")]

  ghost function EmptyState(c: Config): State {
    State(seq(c.maxShard + 1, _ => map[]), seq(c.maxShard + 1, _ => {}), 1, map[], [], 0, Down, map[], map[], 0)
  }

  /** The shards hold exactly the rows of t. */
  ghost predicate RowsAre(c: Config, sh: seq<Table>, t: Table) {
    |sh| == c.maxShard + 1 && Placed(sh) && Logical(sh) == t
  }

  lemma EmptyRows(c: Config)
    ensures Init(c, EmptyState(c)) && Reachable(c, EmptyState(c)) && RowsAre(c, EmptyState(c).shards, map[])
  {
    InitReachable(c, EmptyState(c));
    InitInv(c, EmptyState(c), false);
    assert Logical(EmptyState(c).shards) == map[];
  }

  /** Set-up on the empty system makes the administrator row 1. */
  lemma SetUpFirst(c: Config) returns (s: State)
    ensures Does(c, EmptyState(c), SetUp, s) && RowsAre(c, s.shards, map[1 := FIRST])
    ensures s == EmptyState(c).(shards := s.shards, nextId := 2)
  {
    EmptyRows(c);
    s := SetUpAdmin(EmptyState(c));
    InsertRefines(EmptyState(c).shards, FIRST);
    assert map[][1 := Inserted(FIRST)] == map[1 := FIRST];
  }

  /** The owner's renaming of row 1 in a state that answers it for id 1. */
  lemma RenameFirst(c: Config, s: State)
    requires HasShards(s) && s.log == [] && Found(s, c.userCache, 1) == FIRST
    ensures Does(c, s, Edit(1, RENAME, true), Read(s, c.userCache, 1).(log := [Obj(ToJson(RENAMED))]))
  {
    assert EditOutcome(FIRST, 1, HasRole(s.roles, 1, "admin"), RENAME) == Ok(RENAMED);
  }

  lemma RenameSaved(c: Config, s: State) returns (sh: seq<Table>)
    requires RowsAre(c, s.shards, map[1 := FIRST])
    ensures RowsAre(c, sh, map[1 := Public(RENAMED)]) && UpdateRow(s.shards, Public(RENAMED)) == Some(sh)
  {
    var u := Public(RENAMED);
    UpdateRefines(s.shards, u);
    assert !ClashIn(map[1 := FIRST], |s.shards|, u);
    sh := UpdateRow(s.shards, u).value;
    assert map[1 := FIRST][1 := u] == map[1 := u];
  }

  /** Start, poll and apply the renaming. */
  lemma ApplyRename(c: Config, s: State) returns (sh: seq<Table>)
    requires RowsAre(c, s.shards, map[1 := FIRST]) && |s.roles| > 0
    requires s.consumer == Down && s.committed == 0 && s.log == [Obj(ToJson(RENAMED))]
    ensures RowsAre(c, sh, map[1 := Public(RENAMED)])
    ensures Does(c, s, Start, s.(consumer := Idle(0)))
    ensures Does(c, s.(consumer := Idle(0)), Poll, s.(consumer := Polled(0)))
    ensures Does(c, s.(consumer := Polled(0)), Apply, s.(shards := sh, consumer := Applied(0)))
  {
    DecodePlain(RENAMED);
    sh := RenameSaved(c, s);
  }

  lemma RowReads(c: Config, s: State, on: bool)
    requires RowsAre(c, s.shards, map[1 := FIRST]) && HasShards(s) && s.cache == map[] && s.clock == 0
    ensures Found(s, on, 1) == FIRST
    ensures Read(s, on, 1) == s.(cache := PutUser(map[], 0, on, FIRST))
  {
    RowRefines(s.shards, 1);
  }

  /** Once the entries of the renaming request are dead, row 1 is answered as it is. */
  lemma RowAnswered(c: Config, s: State)
    requires RowsAre(c, s.shards, map[1 := Public(RENAMED)]) && HasShards(s)
    requires s.cache == PutUser(map[], 0, c.userCache, FIRST) && s.clock > LIFETIME
    ensures Found(s, c.userCache, 1) == Public(RENAMED)
  {
    RowRefines(s.shards, 1);
  }

  lemma RenameAsked(c: Config) returns (s: State)
    ensures Reachable(c, s) && RowsAre(c, s.shards, map[1 := FIRST]) && HasShards(s)
    ensures s.cache == PutUser(map[], 0, c.userCache, FIRST) && s.clock == 0
    ensures s.consumer == Down && s.committed == 0 && s.log == [Obj(ToJson(RENAMED))]
  {
    EmptyRows(c);
    var s1 := SetUpFirst(c);
    StepReachable(c, EmptyState(c), SetUp, s1);
    RowReads(c, s1, c.userCache);
    RenameFirst(c, s1);
    s := Read(s1, c.userCache, 1).(log := [Obj(ToJson(RENAMED))]);
    StepReachable(c, s1, Edit(1, RENAME, true), s);
  }

  lemma RenameReachable(c: Config, s: State) returns (sh: seq<Table>)
    requires Reachable(c, s) && RowsAre(c, s.shards, map[1 := FIRST]) && HasShards(s)
    requires s.consumer == Down && s.committed == 0 && s.log == [Obj(ToJson(RENAMED))]
    ensures RowsAre(c, sh, map[1 := Public(RENAMED)])
    ensures Reachable(c, s.(shards := sh, consumer := Applied(0)))
  {
    sh := ApplyRename(c, s);
    StepReachable(c, s, Start, s.(consumer := Idle(0)));
    StepReachable(c, s.(consumer := Idle(0)), Poll, s.(consumer := Polled(0)));
    StepReachable(c, s.(consumer := Polled(0)), Apply, s.(shards := sh, consumer := Applied(0)));
  }

  /** In every configuration, an edit applied but not committed: from here a redelivery undoes a deletion. */
  lemma JustEditedReachable(c: Config) returns (s: State)
    ensures Reachable(c, s) && JustEdited(c, s, 1)
  {
    var s1 := RenameAsked(c);
    var sh := RenameReachable(c, s1);
    var s2 := s1.(shards := sh, consumer := Applied(0));
    s := s2.(clock := LIFETIME + 1);
    StepReachable(c, s2, Tick(LIFETIME + 1), s);
    ReachableInv(c, s);
    RowAnswered(c, s);
    DecodePlain(RENAMED);
  }

  /** The consumer saves and commits the next record. */
  lemma RecordReachable(c: Config, s: State)
    requires Reachable(c, s) && HasRecord(s)
    ensures Reachable(c, AfterRecord(s))
  {
    RecordSteps(c, s);
    ConsumesReachable(c, s, AfterRecord(s));
  }

  /** Everything in the log is consumed. */
  ghost predicate CaughtUp(c: Config, s: State) {
    Reachable(c, s) && HasShards(s) && s.consumer == Idle(s.committed) && s.committed == |s.log|
  }

  lemma StartIdle(c: Config, s: State)
    requires Reachable(c, s) && HasShards(s) && s.consumer == Down && s.committed == |s.log|
    ensures CaughtUp(c, s.(consumer := Idle(s.committed)))
  {
    StepReachable(c, s, Start, s.(consumer := Idle(s.committed)));
  }

  /** A sign-up is accepted, sent and consumed. */
  lemma SignedUp(c: Config, s: State, u: User) returns (s': State)
    requires CaughtUp(c, s) && u.id == 0 && !u.deleted && WellFormed(u) && |u.password| >= 3
    requires forall i :: i in T(s) ==> T(s)[i].login != u.login && T(s)[i].email != u.email
    ensures CaughtUp(c, s') && T(s') == T(s)[s.nextId := Public(u).(id := s.nextId)]
    ensures s' == s.(shards := s'.shards, nextId := s.nextId + 1, log := s'.log,
                     committed := s'.committed, consumer := s'.consumer)
  {
    var e := SignUp(Obj(ToJsonWithPassword(u)), true);
    var s1 := s.(log := s.log + [Obj(ToJson(u))]);
    DecodeWithPassword(u);
    StepReachable(c, s, e, s1);
    ReachableInv(c, s1);
    DecodePlain(u);
    var row := Public(u).(id := s.nextId);
    InsertRefines(s.shards, row);
    assert !ExistsIn(T(s), u.login, u.email) && !ClashIn(T(s), |s.shards|, row);
    RecordReachable(c, s1);
    s' := AfterRecord(s1);
  }

  /** The owner's request for a new email is accepted and sent. */
  lemma EmailAsked(c: Config, s: State, i: int, email: string) returns (s': State)
    requires CaughtUp(c, s) && s.cache == map[] && i > 0 && i in T(s) && T(s)[i].id == i && ValidEmail(email)
    ensures Reachable(c, s') && HasRecord(s')
    ensures s' == s.(cache := s'.cache, log := s.log + [Obj(ToJson(T(s)[i].(email := email)))])
  {
    ReachableInv(c, s);
    RowRefines(s.shards, i);
    var u := T(s)[i];
    var body: Object := map[Id := Num(i), Email := Str(email)];
    assert EditOutcome(u, i, HasRole(s.roles, i, "admin"), body) == Ok(u.(email := email));
    s' := Read(s, c.userCache, i).(log := s.log + [Obj(ToJson(u.(email := email)))]);
    StepReachable(c, s, Edit(i, body, true), s');
  }

  const ANN := User(0, "ann", "Ann", "a@x", "abc", false)
  const BOB := User(0, "bob", "Bob", "b@x", "abc", false)
  const ROW_1 := Public(ANN).(id := 1)
  const ROW_2 := Public(BOB).(id := 2)

  lemma AnnAndBob()
    ensures WellFormed(ANN) && WellFormed(BOB) && ANN.login != BOB.login && ANN.email != BOB.email
    ensures ADMIN.login != BOB.login && ADMIN.email != BOB.email
  {
    assert ANN.email[1] == '@' && BOB.email[1] == '@' && ANN.email[0] != BOB.email[0];
    assert ANN.login[0] != BOB.login[0] && ADMIN.login[0] != BOB.login[0] && |ADMIN.email| != |BOB.email|;
  }

  /** Users 1 and 2 are in different shards whenever there are two shards. */
  lemma TwoShards(n: nat)
    requires n > 1
    ensures ShardOf(1, n) != ShardOf(2, n)
  {
    assert n == 2 ==> Remainder(2, n) == Remainder(0, n);
  }

  /** Two sign-ups and one email edit, all accepted, end with equal emails in every system with two shards. */
  lemma EmailsCollide(c: Config) returns (s: State)
    requires c.maxShard > 0
    ensures Reachable(c, s) && HasShards(s) && 1 in T(s) && 2 in T(s) && T(s)[1].email == T(s)[2].email
  {
    AnnAndBob();
    EmptyRows(c);
    StartIdle(c, EmptyState(c));
    var s1 := SignedUp(c, EmptyState(c).(consumer := Idle(0)), ANN);
    var s2 := SignedUp(c, s1, BOB);
    var s3 := EmailAsked(c, s2, 2, ANN.email);
    var u := ROW_2.(email := ANN.email);
    DecodePlain(u);
    ReachableInv(c, s3);
    UpdateRefines(s3.shards, u);
    TwoShards(|s3.shards|);
    assert !ClashIn(T(s3), |s3.shards|, u);
    RecordReachable(c, s3);
    s := AfterRecord(s3);
  }

  lemma {:induction false} IdsLost(c: Config, s: State, n: nat)
    requires CaughtUp(c, s)
    ensures CaughtUp(c, s.(nextId := s.nextId + n))
  {
    if n == 0 {
      assert s.(nextId := s.nextId + 0) == s;
    } else {
      IdsLost(c, s, n - 1);
      StepReachable(c, s.(nextId := s.nextId + n - 1), LoseId, s.(nextId := s.nextId + n));
    }
  }

  /** The administrator and Bob, in one shard. */
  lemma BobBesideAdmin(c: Config, i: int) returns (s: State)
    requires i == 2 + c.maxShard
    ensures CaughtUp(c, s) && s.cache == map[] && s.tasks == map[]
    ensures T(s) == map[1 := FIRST, i := Public(BOB).(id := i)]
  {
    EmptyRows(c);
    var s1 := SetUpFirst(c);
    StepReachable(c, EmptyState(c), SetUp, s1);
    StartIdle(c, s1);
    IdsLost(c, s1.(consumer := Idle(0)), c.maxShard);
    AnnAndBob();
    s := SignedUp(c, s1.(consumer := Idle(0), nextId := i), BOB);
    assert map[1 := FIRST][i := Public(BOB).(id := i)] == map[1 := FIRST, i := Public(BOB).(id := i)];
  }

  /** In every configuration, set-up, a sign-up into the same shard and an email edit, all accepted, leave the
      consumer stuck for ever on the refused update. */
  lemma StuckReachable(c: Config) returns (s: State)
    ensures Reachable(c, s) && Stuck(s)
  {
    var i := 2 + c.maxShard;
    var s1 := BobBesideAdmin(c, i);
    AdminSound();
    s := EmailAsked(c, s1, i, FIRST.email);
    ReachableInv(c, s);
    var u := Public(BOB).(id := i, email := FIRST.email);
    DecodePlain(u);
    assert ShardOf(i, c.maxShard + 1) == ShardOf(1, c.maxShard + 1);
    assert SameLoginOrEmail(T(s)[1], u.login, u.email);
  }

  const DIGITS := ANN.(login := "123")

  lemma ReadUnderLogin(c: Config, s: State, id: int) returns (s': State)
    requires Reachable(c, s) && c.userCache && s.cache == map[] && HasShards(s)
    requires 1 in T(s) && T(s)[1].login == ToString(id)
    ensures Reachable(c, s') && HasShards(s') && Found(s', true, id) == T(s)[1]
  {
    ReachableInv(c, s);
    RowRefines(s.shards, 1);
    s' := Read(s, true, 1);
    StepReachable(c, s, Get(1), s');
    PutUserReads(s.cache, s.clock, T(s)[1], ToString(id));
  }

  lemma DigitsSigned(c: Config) returns (s: State)
    ensures CaughtUp(c, s) && s.cache == map[] && 1 in T(s) && T(s)[1].login == "123" && T(s)[1].id == 1
  {
    EmptyRows(c);
    StartIdle(c, EmptyState(c));
    AnnAndBob();
    s := SignedUp(c, EmptyState(c).(consumer := Idle(0)), DIGITS);
  }

  lemma TextOf123()
    ensures ToString(123) == "123"
  {
    assert Digits(1) == "1";
    assert Digits(12) == "12";
  }

  /** A user registered as "123" is read and then answered for id 123. */
  lemma OtherAnswered(c: Config) returns (s: State)
    requires c.userCache
    ensures Reachable(c, s) && HasShards(s) && Found(s, true, 123).id == 1
  {
    var s1 := DigitsSigned(c);
    TextOf123();
    s := ReadUnderLogin(c, s1, 123);
  }
}
