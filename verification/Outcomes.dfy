/** What a request and the consumer behind it make of the rows, in terms of the request's body. */
module Outcomes {
  import opened Wrappers
  import opened Users
  import opened Sharding
  import opened Edits
  import opened System
  import opened Invariant
  import opened Consuming
  import opened Scenarios
  import opened Emails

  /** The body of a sign-up as the interface describes it. */
  ghost predicate SignUpBody(o: Object) {
    && Id !in o && (Deleted in o ==> o[Deleted].Bool?)
    && Login in o && o[Login].Str? && Name in o && o[Name].Str?
    && Email in o && o[Email].Str? && Password in o && o[Password].Str?
  }

  ghost function NewRow(o: Object, id: int): User
    requires SignUpBody(o)
  {
    User(id, o[Login].s, o[Name].s, o[Email].s, "", false)
  }

  /** What a sign-up decodes to, and what its event says. */
  lemma SignUpEvent(o: Object)
    requires SignUpBody(o)
    ensures
      var deleted := Deleted in o && o[Deleted].b;
      && FromObject(o) == Some(User(0, o[Login].s, o[Name].s, o[Email].s, o[Password].s, deleted))
      && FromObject(ToJson(FromObject(o).value)) == Some(User(0, o[Login].s, o[Name].s, o[Email].s, "", deleted))
  {
    FieldsDecoded(o);
    DecodePlain(FromObject(o).value);
  }

  /** The next record is the event of a sign-up with this body. */
  ghost predicate SignUpNext(s: State, o: Object) {
    HasRecord(s) && FromObject(o).Some? && s.log[s.committed] == Obj(ToJson(FromObject(o).value))
  }

  /** Saving a new user writes at most one row, and none that was there. */
  lemma CreateKeepsRows(sh: seq<Table>, next: int, u: User)
    requires Placed(sh) && next > 0 && u.id <= 0
    ensures
      var (written, _) := SaveRows(sh, next, u);
      written.Some? ==>
        |written.value| > 0 &&
        (Logical(written.value) == Logical(sh) ||
         (next !in Logical(sh) && Logical(written.value) == Logical(sh)[next := u.(id := next, deleted := false)]))
  {
    InsertRefines(sh, u.(id := next));
  }

  /** Consuming a sign-up without an id changes no row that was there: it adds one, or none. */
  lemma SignUpKeepsRows(s: State, o: Object)
    requires SignUpNext(s, o) && Id !in o && Placed(s.shards) && s.nextId > 0
    ensures HasShards(AfterRecord(s))
    ensures forall i :: i in T(s) ==> i in T(AfterRecord(s)) && T(AfterRecord(s))[i] == T(s)[i]
    ensures T(AfterRecord(s)).Keys <= T(s).Keys + {s.nextId}
  {
    FieldsDecoded(o);
    DecodePlain(FromObject(o).value);
    CreateKeepsRows(s.shards, s.nextId, FromObject(ToJson(FromObject(o).value)).value);
  }

  /** In a reachable state it adds the user of the body, undeleted and without a password, when login and email are
      new. */
  lemma SignUpAdds(c: Config, s: State, o: Object)
    requires Reachable(c, s) && SignUpNext(s, o) && SignUpBody(o)
    requires forall i :: i in T(s) ==> T(s)[i].login != o[Login].s && T(s)[i].email != o[Email].s
    ensures Consumes(c, s, AfterRecord(s)) && CommittedOne(s, AfterRecord(s))
    ensures HasShards(AfterRecord(s)) && T(AfterRecord(s)) == T(s)[s.nextId := NewRow(o, s.nextId)]
  {
    ReachableInv(c, s);
    SignUpEvent(o);
    var u := FromObject(ToJson(FromObject(o).value)).value.(id := s.nextId);
    InsertRefines(s.shards, u);
    assert !ExistsIn(T(s), u.login, u.email) && !ClashIn(T(s), |s.shards|, u);
    RecordSteps(c, s);
  }

  ghost predicate CommittedOne(s: State, s': State) {
    s'.committed == s.committed + 1 && s'.consumer == Idle(s'.committed) && s'.log == s.log && s'.cache == s.cache
  }

  /** From the request to the row: an accepted sign-up with a new login and email becomes the row it describes. */
  lemma SignUpEndToEnd(c: Config, s: State, o: Object) returns (s1: State, s2: State)
    requires CaughtUp(c, s) && SignUpBody(o)
    requires |o[Name].s| >= 3 && |o[Login].s| >= 3 && |o[Password].s| >= 3
    requires '@' in o[Email].s && ' ' !in o[Email].s && '\t' !in o[Email].s
    requires forall i :: i in T(s) ==> T(s)[i].login != o[Login].s && T(s)[i].email != o[Email].s
    ensures Does(c, s, SignUp(Obj(o), true), s1) && Consumes(c, s1, s2) && CaughtUp(c, s2)
    ensures T(s2) == T(s)[s.nextId := NewRow(o, s.nextId)]
  {
    SignUpEvent(o);
    s1 := s.(log := s.log + [Obj(ToJson(FromObject(o).value))]);
    StepReachable(c, s, SignUp(Obj(o), true), s1);
    assert HasRecord(s1) && T(s1) == T(s);
    SignUpAdds(c, s1, o);
    s2 := AfterRecord(s1);
    ConsumesReachable(c, s1, s2);
  }

  /** The row with what the body asks for; the event carries no password. */
  ghost function EditedRow(row: User, o: Object): User
    requires TextOrAbsent(o, Name) && TextOrAbsent(o, Email)
  {
    row.(name := if Name in o then o[Name].s else row.name, email := if Email in o then o[Email].s else row.email,
    password := "")
  }

  /** A well-formed request to edit row i, by its owner or an admin, that finds the row as it is. */
  ghost predicate EditsRow(c: Config, s: State, requester: int, o: Object, i: int) {
    && HasShards(s) && Id in o && o[Id] == Num(i) && i in T(s) && Found(s, c.userCache, i) == T(s)[i]
    && (requester == i || HasRole(s.roles, requester, "admin"))
    && TextOrAbsent(o, Name) && (Name in o ==> |o[Name].s| >= 3)
    && TextOrAbsent(o, Email) && (Email in o ==> '@' in o[Email].s && ' ' !in o[Email].s && '\t' !in o[Email].s)
  }

  /** No other row of the shard has the email asked for. */
  ghost predicate EmailFree(s: State, o: Object, i: int)
    requires HasShards(s)
  {
    Email in o && o[Email].Str? ==>
      forall j :: j in T(s) && j != i && ShardOf(j, |s.shards|) == ShardOf(i, |s.shards|) ==>
        T(s)[j].email != o[Email].s
  }

  lemma EditDecides(row: User, requester: int, admin: bool, o: Object)
    requires row.id > 0 && (row.id == requester || admin) && TextOrAbsent(o, Name) && TextOrAbsent(o, Email)
    requires Name in o ==> |o[Name].s| >= 3
    requires Email in o ==> '@' in o[Email].s && ' ' !in o[Email].s && '\t' !in o[Email].s
    ensures
      var outcome := EditOutcome(row, requester, admin, o);
      outcome.Ok? && FromObject(ToJson(outcome.value)) == Some(EditedRow(row, o))
  {
    EditAcceptedExactly(row, requester, admin, o);
    EditKeeps(row, requester, admin, o);
    DecodePlain(EditOutcome(row, requester, admin, o).value);
  }

  /** The edit step on a user it was decided for. */
  lemma EditStep(c: Config, s: State, requester: int, o: Object, i: int, edited: User)
    requires HasShards(s) && Id in o && o[Id] == Num(i)
    requires EditOutcome(Found(s, c.userCache, i), requester, HasRole(s.roles, requester, "admin"), o) == Ok(edited)
    ensures
      var s1 := Read(s, c.userCache, i).(log := s.log + [Obj(ToJson(edited))]);
      Does(c, s, Edit(requester, o, true), s1)
  {
  }

  lemma EditAsks(c: Config, s: State, requester: int, o: Object, i: int) returns (s1: State)
    requires Reachable(c, s) && EditsRow(c, s, requester, o, i)
    ensures Does(c, s, Edit(requester, o, true), s1)
    ensures s1 == s.(cache := s1.cache, log := s1.log) && |s1.log| == |s.log| + 1 && s.log <= s1.log
    ensures FromJson(s1.log[|s.log|]) == Some(EditedRow(T(s)[i], o))
  {
    ReachableInv(c, s);
    var row, admin := T(s)[i], HasRole(s.roles, requester, "admin");
    EditDecides(row, requester, admin, o);
    var edited := EditOutcome(row, requester, admin, o).value;
    s1 := Read(s, c.userCache, i).(log := s.log + [Obj(ToJson(edited))]);
    EditStep(c, s, requester, o, i, edited);
  }

  /** A row's own login, and an email free in its shard, clash with nothing. */
  lemma NoClash(c: Config, s: State, u: User)
    requires Reachable(c, s) && HasShards(s) && u.id in T(s) && u.login == T(s)[u.id].login
    requires u.email == T(s)[u.id].email ||
             forall j :: j in T(s) && j != u.id && ShardOf(j, |s.shards|) == ShardOf(u.id, |s.shards|) ==>
               T(s)[j].email != u.email
    ensures UpdateRow(s.shards, u).Some? && |UpdateRow(s.shards, u).value| > 0
    ensures Logical(UpdateRow(s.shards, u).value) == T(s)[u.id := u]
  {
    ReachableInv(c, s);
    var run, steps :| RunTo(c, run, steps, s);
    RunShardEmails(c, run, steps, |steps|);
    UpdateRefines(s.shards, u);
    assert !ClashIn(T(s), |s.shards|, u);
  }

  /** The next record is an accepted update. */
  lemma UpdateNext(c: Config, s: State, u: User) returns (s': State)
    requires HasRecord(s) && FromJson(s.log[s.committed]) == Some(u) && u.id > 0 && UpdateRow(s.shards, u).Some?
    ensures Consumes(c, s, s') && CommittedOne(s, s') && s'.shards == UpdateRow(s.shards, u).value
    ensures s'.roles == s.roles
  {
    RecordSteps(c, s);
    s' := AfterRecord(s);
  }

  /** From the request to the row: an accepted edit gives the row exactly what it asks for. */
  lemma EditEndToEnd(c: Config, s: State, requester: int, o: Object, i: int) returns (s1: State, s2: State)
    requires CaughtUp(c, s) && EditsRow(c, s, requester, o, i) && EmailFree(s, o, i)
    ensures Does(c, s, Edit(requester, o, true), s1) && Consumes(c, s1, s2) && CaughtUp(c, s2)
    ensures T(s2) == T(s)[i := EditedRow(T(s)[i], o)]
  {
    s1 := EditAsks(c, s, requester, o, i);
    StepReachable(c, s, Edit(requester, o, true), s1);
    ReachableInv(c, s);
    NoClash(c, s1, EditedRow(T(s)[i], o));
    s2 := UpdateNext(c, s1, EditedRow(T(s)[i], o));
    ConsumesReachable(c, s1, s2);
  }

  /** A permitted deletion that finds the row as it is flags the row and is never refused. */
  lemma DeleteEndToEnd(c: Config, s: State, requester: int, i: int) returns (s1: State)
    requires Reachable(c, s) && HasShards(s) && i in T(s) && Found(s, c.userCache, i) == T(s)[i]
    requires requester == i || HasRole(s.roles, requester, "admin")
    ensures Does(c, s, Delete(requester, i), s1) && HasShards(s1)
    ensures T(s1) == T(s)[i := T(s)[i].(deleted := true)]
  {
    ReachableInv(c, s);
    NoClash(c, s, T(s)[i].(deleted := true));
    s1 := Next(c, s, Delete(requester, i));
  }
}
