/** Effectively-once: crashes and redeliveries leave the table of an exactly-once consumer. */
module CrashTolerance {
  import opened Users
  import opened Sharding
  import opened System
  import opened Frames
  import opened Invariant
  import opened Replays

  /** The end of the replayed part of the log: done says the record after the committed ones is applied too. */
  ghost function UpTo(s: State, done: bool): nat {
    s.committed + if done then 1 else 0
  }

  ghost predicate HasLogin(t: Table, login: string) {
    exists i :: i in t && t[i].login == login
  }

  /** A create between its existence check and its insert. */
  predicate Inserting(s: State) {
    s.consumer.Absent? || s.consumer.Numbered?
  }

  /** What the existence check found; later deletions do not count. */
  ghost predicate CheckedAbsent(s: State, t: Table) {
    Inserting(s) && s.consumer.pos < |s.log| && FromJson(s.log[s.consumer.pos]).Some? ==>
      var u := FromJson(s.log[s.consumer.pos]).value;
      !ExistsIn(t, u.login, u.email)
  }

  /** The table is the replay of a trail with the committed records from first on, and one more when done, then
      overwritten by the deletions since the check of a create under way. */
  ghost predicate Progress(s: State, start: Replayed, first: nat, trail: Trail, w: Writes, done: bool) {
    && HasShards(s)
    && first <= s.committed && UpTo(s, done) <= |s.log| && Follows(trail, s.log, first, UpTo(s, done))
    && var r := Replay(start, trail);
       && T(s) == Overwrite(r.table, w) && Within(w, r.table) && r.next <= s.nextId
       && (done ==> Dirty(trail) || w.Wrote? || HasEffect(T(s), s.log[s.committed]))
       && (s.consumer.Applied? ==> done)
       && (if Inserting(s) then (done ==> Dirty(trail)) && CheckedAbsent(s, r.table) else w == NoWrites)
       && (s.consumer.Numbered? ==> r.next <= s.consumer.id < s.nextId)
  }

  /** The administrator was set up at most once, and then is there. */
  ghost predicate SetUpOnce(s: State, trail: Trail) {
    SetUps(trail) <= 1 && HasShards(s) && (SetUps(trail) == 1 ==> HasLogin(T(s), ADMIN.login))
  }

  predicate WritesRowsDirectly(e: Step) {
    e.Delete? || e.DeleteFetched?
  }

  /** What the consumer makes of a record, in terms of the log's meaning. */
  ghost predicate AppliedTo(s: State, s': State, next: int) {
    && HasShards(s) && HasShards(s') && s.consumer.Polled? && s.consumer.pos == s.committed < |s.log|
    && s' == s.(shards := s'.shards, consumer := s'.consumer)
    && FromJson(s.log[s.committed]).Some?
    && (s'.consumer.Down? || s'.consumer.Applied? || s'.consumer.Absent?)
    && (s'.consumer.Applied? ==> Replayed(T(s'), next) == ApplyMessage(Replayed(T(s), next), s.log[s.committed], 0))
    && (!s'.consumer.Applied? ==> T(s') == T(s))
    && (s'.consumer.Absent? ==>
          var u := FromJson(s.log[s.committed]).value;
          s'.consumer.pos == s.committed && u.id <= 0 && !ExistsIn(T(s), u.login, u.email))
  }

  lemma ApplyMeaning(c: Config, s: State, next: int)
    requires Basics(c, s) && LogOk(T(s), s.log, false) && Enabled(c, s, Apply)
    ensures AppliedTo(s, ApplyPolled(s), next)
  {
    assert ObjectOk(T(s), s.log[s.committed].fields, false);
    var u := FromJson(s.log[s.committed]).value;
    if u.id > 0 {
      UpdateRefines(s.shards, u);
    }
  }

  lemma ApplyOnce(s: State, s': State, start: Replayed, first: nat, trail: Trail) returns (trail': Trail, done': bool)
    requires Progress(s, start, first, trail, NoWrites, false)
    requires AppliedTo(s, s', Replay(start, trail).next)
    ensures Progress(s', start, first, trail', NoWrites, done')
    ensures SetUps(trail') == SetUps(trail) && Deletions(trail') == Deletions(trail)
  {
    trail', done' := trail, false;
    if s'.consumer.Applied? {
      trail', done' := Record(trail, s.log[s.committed], 0), true;
      ApplyHasEffect(Replay(start, trail), s.log[s.committed], 0);
    }
  }

  /** A redelivered record that still has its effect: applying it again changes nothing. */
  lemma ApplyAgain(s: State, s': State, start: Replayed, first: nat, trail: Trail)
    requires Progress(s, start, first, trail, NoWrites, true) && AppliedTo(s, s', Replay(start, trail).next)
    requires HasEffect(T(s), s.log[s.committed])
    ensures T(s') == T(s) && !s'.consumer.Absent?
    ensures Progress(s', start, first, trail, NoWrites, true)
  {
    EffectIsFinal(Replayed(T(s), Replay(start, trail).next), s.log[s.committed], 0);
  }

  /** A redelivered record whose effect a deletion may have undone is one more event. */
  lemma ApplyRepeats(s: State, s': State, start: Replayed, first: nat, trail: Trail) returns (trail': Trail)
    requires Progress(s, start, first, trail, NoWrites, true) && AppliedTo(s, s', Replay(start, trail).next)
    requires !HasEffect(T(s), s.log[s.committed])
    ensures Progress(s', start, first, trail', NoWrites, true)
    ensures SetUps(trail') == SetUps(trail) && Deletions(trail') == Deletions(trail)
  {
    trail' := trail;
    if s'.consumer.Applied? {
      trail' := Again(trail, s.log[s.committed], 0);
      ApplyHasEffect(Replay(start, trail), s.log[s.committed], 0);
    }
  }

  /** What an insert makes of the rows. */
  ghost predicate InsertedTo(s: State, s': State) {
    && HasShards(s) && s.consumer.Numbered? && s.consumer.pos == s.committed < |s.log| && s.consumer.id !in T(s)
    && FromJson(s.log[s.committed]).Some?
    && HasShards(s') && s' == s.(shards := s'.shards, consumer := s'.consumer)
    && var u := FromJson(s.log[s.committed]).value;
       && u.id <= 0 && (s'.consumer.Down? || s'.consumer.Applied?)
       && T(s') == if s'.consumer.Down? then T(s) else T(s)[s.consumer.id := Inserted(u.(id := s.consumer.id))]
  }

  lemma InsertMeaning(c: Config, s: State)
    requires Basics(c, s) && PendingOk(T(s), s.log, s.consumer, false) && Enabled(c, s, Insert)
    ensures InsertedTo(s, InsertNumbered(s))
  {
    InsertRefines(s.shards, FromJson(s.log[s.committed]).value.(id := s.consumer.id));
  }

  /** The record takes its place in the trail where its check stood, before the deletions since. */
  function Entered(trail: Trail, m: Json, gap: nat, done: bool): Trail {
    if done then Again(trail, m, gap) else Record(trail, m, gap)
  }

  lemma EnteredMeaning(s: State, start: Replayed, first: nat, trail: Trail, w: Writes, done: bool, gap: nat)
    requires Progress(s, start, first, trail, w, done)
    requires s.consumer.Numbered? && s.consumer.pos == s.committed < |s.log|
    requires FromJson(s.log[s.committed]).Some? && FromJson(s.log[s.committed]).value.id <= 0
    requires gap == s.consumer.id - Replay(start, trail).next && s.consumer.id !in T(s)
    ensures
      var u := FromJson(s.log[s.committed]).value.(id := s.consumer.id);
      var t := Replay(start, trail).table;
      var trail' := Entered(trail, s.log[s.committed], gap, done);
      && Replay(start, trail') == Replayed(t[s.consumer.id := Inserted(u)], s.consumer.id + 1)
      && Follows(trail', s.log, first, s.committed + 1)
      && Within(w, t[s.consumer.id := Inserted(u)])
      && Overwrite(t[s.consumer.id := Inserted(u)], w) == T(s)[s.consumer.id := Inserted(u)]
  {
    var u := FromJson(s.log[s.committed]).value.(id := s.consumer.id);
    var t := Replay(start, trail).table;
    OverwriteKeys(t, w);
    OverwriteInsert(t, w, s.consumer.id, Inserted(u));
  }

  lemma RowHasEffect(t: Table, m: Json, id: int, row: User)
    requires FromJson(m).Some? && FromJson(m).value.id <= 0 && row.login == FromJson(m).value.login
    ensures HasEffect(t[id := row], m)
  {
    assert SameLoginOrEmail(t[id := row][id], FromJson(m).value.login, FromJson(m).value.email);
  }

  lemma InsertEnters(s: State, s': State, start: Replayed, first: nat, trail: Trail, w: Writes, done: bool)
    returns (trail': Trail)
    requires Progress(s, start, first, trail, w, done) && InsertedTo(s, s') && s'.consumer.Applied?
    ensures Progress(s', start, first, trail', NoWrites, true)
    ensures SetUps(trail') == SetUps(trail)
    ensures Deletions(trail') > 0 ==> Deletions(trail) > 0 || w.Wrote?
  {
    var m := s.log[s.committed];
    var gap: nat := s.consumer.id - Replay(start, trail).next;
    EnteredMeaning(s, start, first, trail, w, done, gap);
    trail' := Flush(s.log, start, first, s.committed + 1, Entered(trail, m, gap, done), w);
    RowHasEffect(T(s), m, s.consumer.id, Inserted(FromJson(m).value.(id := s.consumer.id)));
  }

  lemma InsertFails(s: State, s': State, start: Replayed, first: nat, trail: Trail, w: Writes, done: bool)
    returns (trail': Trail)
    requires Progress(s, start, first, trail, w, done) && InsertedTo(s, s') && s'.consumer.Down?
    ensures Progress(s', start, first, trail', NoWrites, done)
    ensures SetUps(trail') == SetUps(trail)
    ensures Deletions(trail') > 0 ==> Deletions(trail) > 0 || w.Wrote?
  {
    trail' := Flush(s.log, start, first, UpTo(s, done), trail, w);
  }

  lemma InsertProgress(c: Config, s: State, start: Replayed, first: nat, trail: Trail, w: Writes, done: bool)
    returns (trail': Trail, done': bool)
    requires Inv(c, s, false) && Enabled(c, s, Insert) && Progress(s, start, first, trail, w, done)
    ensures Progress(InsertNumbered(s), start, first, trail', NoWrites, done')
    ensures SetUps(trail') == SetUps(trail)
    ensures Deletions(trail') > 0 ==> Deletions(trail) > 0 || w.Wrote?
  {
    InsertMeaning(c, s);
    if InsertNumbered(s).consumer.Applied? {
      trail' := InsertEnters(s, InsertNumbered(s), start, first, trail, w, done);
      done' := true;
    } else {
      trail' := InsertFails(s, InsertNumbered(s), start, first, trail, w, done);
      done' := done;
    }
  }

  /** The deletions since the check, at the end of the trail. */
  lemma Flush(log: seq<Json>, start: Replayed, first: nat, last: nat, trail: Trail, w: Writes) returns (trail': Trail)
    requires Follows(trail, log, first, last) && Within(w, Replay(start, trail).table)
    ensures Follows(trail', log, first, last)
    ensures Replay(start, trail') == Replayed(Overwrite(Replay(start, trail).table, w), Replay(start, trail).next)
    ensures SetUps(trail') == SetUps(trail) && (Dirty(trail) || w.Wrote? ==> Dirty(trail'))
    ensures Deletions(trail') > 0 ==> Deletions(trail) > 0 || w.Wrote?
  {
    trail' := Appended(trail, w);
    AppendedMeaning(start, trail, w);
    AppendedFollows(trail, w, Replay(start, trail).table, log, first, last);
  }

  lemma CommitProgress(c: Config, s: State, start: Replayed, first: nat, trail: Trail, w: Writes)
    requires Basics(c, s) && Enabled(c, s, Commit) && Progress(s, start, first, trail, w, true)
    ensures Progress(Next(c, s, Commit), start, first, trail, w, false)
  {
    assert UpTo(Next(c, s, Commit), false) == UpTo(s, true);
  }

  lemma TakeIdProgress(c: Config, s: State, start: Replayed, first: nat, trail: Trail, w: Writes, done: bool)
    requires Basics(c, s) && Enabled(c, s, TakeId) && Progress(s, start, first, trail, w, done)
    ensures Progress(Next(c, s, TakeId), start, first, trail, w, done)
  {
  }

  /** A deletion writes one row as deleted, or none. */
  ghost predicate DeletedTo(s: State, s': State, v: User) {
    && HasShards(s) && HasShards(s') && s'.log == s.log && s'.committed == s.committed
    && s'.consumer == s.consumer && s'.nextId == s.nextId
    && (T(s') == T(s) || (v.deleted && v.id in T(s) && T(s') == T(s)[v.id := v]))
  }

  lemma DeleteWithMeaning(c: Config, s: State, u: User, requester: int)
    requires Shape(c, s)
    ensures DeletedTo(s, DeleteWith(s, u, requester), u.(deleted := true))
  {
    if u.id > 0 {
      UpdateRefines(s.shards, u.(deleted := true));
    }
  }

  lemma DeleteMeaning(c: Config, s: State, e: Step) returns (v: User)
    requires Shape(c, s) && Enabled(c, s, e) && WritesRowsDirectly(e)
    ensures DeletedTo(s, Next(c, s, e), v)
  {
    if e.Delete? {
      v := Found(s, c.userCache, e.id).(deleted := true);
      DeleteWithMeaning(c, Read(s, c.userCache, e.id), Found(s, c.userCache, e.id), e.requester);
    } else {
      v := s.tasks[e.task].user.(deleted := true);
      DeleteWithMeaning(c, s.(tasks := s.tasks - {e.task}), s.tasks[e.task].user, e.requester);
    }
  }

  lemma DeleteWaits(s: State, s': State, v: User, start: Replayed, first: nat, trail: Trail, w: Writes, done: bool)
    requires Progress(s, start, first, trail, w, done) && DeletedTo(s, s', v) && Inserting(s) && T(s') != T(s)
    ensures Progress(s', start, first, trail, Wrote(w, v), done)
  {
    OverwriteOneMore(Replay(start, trail).table, w, v);
  }

  lemma DeleteEnters(s: State, s': State, v: User, start: Replayed, first: nat, trail: Trail, done: bool)
    requires Progress(s, start, first, trail, NoWrites, done) && DeletedTo(s, s', v) && !Inserting(s) && T(s') != T(s)
    ensures Progress(s', start, first, DeletedRow(trail, v), NoWrites, done)
  {
  }

  lemma DeleteProgress(s: State, s': State, v: User, start: Replayed, first: nat, trail: Trail, w: Writes, done: bool)
    returns (trail': Trail, w': Writes)
    requires Progress(s, start, first, trail, w, done) && DeletedTo(s, s', v)
    ensures Progress(s', start, first, trail', w', done) && SetUps(trail') == SetUps(trail)
  {
    trail', w' := trail, w;
    if T(s') != T(s) {
      if Inserting(s) {
        w' := Wrote(w, v);
        DeleteWaits(s, s', v, start, first, trail, w, done);
      } else {
        trail' := DeletedRow(trail, v);
        DeleteEnters(s, s', v, start, first, trail, done);
      }
    }
  }

  /** What a set-up makes of the rows, in terms of the trail's meaning. */
  ghost predicate SetUpTo(s: State, s': State, next: int) {
    && HasShards(s) && HasShards(s') && s' == s.(shards := s'.shards, nextId := s'.nextId)
    && (s' == s ||
        (next <= s.nextId ==>
           && AddUser(Replayed(T(s), next), ADMIN, s.nextId - next) == Replayed(T(s'), s'.nextId)
           && T(s') == T(s)[s.nextId := Inserted(ADMIN.(id := s.nextId))]
           && s.nextId !in T(s) && !HasLogin(T(s), ADMIN.login)))
  }

  lemma SetUpMeaning(c: Config, s: State, next: int)
    requires Basics(c, s) && Enabled(c, s, SetUp)
    ensures SetUpTo(s, SetUpAdmin(s), next)
  {
    if !ExistsIn(T(s), ADMIN.login, ADMIN.email) {
      var u := ADMIN.(id := s.nextId);
      InsertRefines(s.shards, u);
      forall i | i in T(s)
        ensures T(s)[i].login != ADMIN.login && T(s)[i].email != ADMIN.email
      {
        assert !SameLoginOrEmail(T(s)[i], ADMIN.login, ADMIN.email);
      }
      assert !ClashIn(T(s), |s.shards|, u);
    }
  }

  /** Adding one row under a new id takes no effect back. */
  lemma EffectStays(t: Table, u: User, m: Json)
    requires HasEffect(t, m) && u.id !in t
    requires FromJson(m).Some? && FromJson(m).value.id > 0 ==> FromJson(m).value.id in t
    ensures HasEffect(t[u.id := u], m)
  {
    if FromJson(m).Some? && FromJson(m).value.id <= 0 {
      var v := FromJson(m).value;
      var i :| i in t && SameLoginOrEmail(t[i], v.login, v.email);
      assert SameLoginOrEmail(t[u.id := u][i], v.login, v.email);
    }
  }

  lemma SetUpEffect(c: Config, s: State)
    requires Inv(c, s, false) && s.committed < |s.log| && HasEffect(T(s), s.log[s.committed]) && s.nextId !in T(s)
    ensures HasEffect(T(s)[s.nextId := Inserted(ADMIN.(id := s.nextId))], s.log[s.committed])
  {
    assert ObjectOk(T(s), s.log[s.committed].fields, false);
    EffectStays(T(s), Inserted(ADMIN.(id := s.nextId)), s.log[s.committed]);
  }

  lemma SetUpAdds(s: State, s': State, start: Replayed, first: nat, trail: Trail, done: bool) returns (trail': Trail)
    requires Progress(s, start, first, trail, NoWrites, done) && SetUpOnce(s, trail)
    requires SetUpTo(s, s', Replay(start, trail).next) && s' != s && !Inserting(s)
    requires done && !Dirty(trail) ==>
               HasEffect(T(s)[s.nextId := Inserted(ADMIN.(id := s.nextId))], s.log[s.committed])
    ensures Progress(s', start, first, trail', NoWrites, done)
    ensures SetUps(trail') == 1 && HasLogin(T(s'), ADMIN.login) && Deletions(trail') == Deletions(trail)
  {
    trail' := SetUpRow(trail, s.nextId - Replay(start, trail).next);
    assert T(s')[s.nextId].login == ADMIN.login;
  }

  lemma SetUpToProgress(c: Config, s: State, s': State, start: Replayed, first: nat, trail: Trail, done: bool)
    returns (trail': Trail)
    requires Inv(c, s, false) && !Inserting(s) && Progress(s, start, first, trail, NoWrites, done)
    requires SetUpOnce(s, trail)
    requires SetUpTo(s, s', Replay(start, trail).next)
    ensures Progress(s', start, first, trail', NoWrites, done)
    ensures SetUpOnce(s', trail') && Deletions(trail') == Deletions(trail)
  {
    if s' == s {
      trail' := trail;
    } else {
      if done && !Dirty(trail) {
        SetUpEffect(c, s);
      }
      trail' := SetUpAdds(s, s', start, first, trail, done);
    }
  }

  lemma SetUpProgress(c: Config, s: State, s': State, start: Replayed, first: nat, trail: Trail, done: bool)
    returns (trail': Trail)
    requires Inv(c, s, false) && Does(c, s, SetUp, s') && Progress(s, start, first, trail, NoWrites, done)
    requires SetUpOnce(s, trail)
    ensures Progress(s', start, first, trail', NoWrites, done)
    ensures SetUpOnce(s', trail') && Deletions(trail') == Deletions(trail)
  {
    SetUpMeaning(c, s, Replay(start, trail).next);
    assert SetUpTo(s, s', Replay(start, trail).next);
    trail' := SetUpToProgress(c, s, s', start, first, trail, done);
  }

  /** Every other step leaves rows and committed records alone. */
  ghost predicate Quiet(s: State, s': State) {
    && s'.shards == s.shards && HasShards(s') && s'.committed == s.committed && s.log <= s'.log && s'.nextId >= s.nextId
    && (s'.consumer == s.consumer || s'.consumer.Down? || s'.consumer.Idle? || s'.consumer.Polled?)
  }

  lemma StepIsQuiet(c: Config, s: State, e: Step)
    requires Enabled(c, s, e) && !WritesRowsDirectly(e)
    requires !e.Apply? && !e.Insert? && !e.Commit? && !e.TakeId? && !e.SetUp?
    ensures Quiet(s, Next(c, s, e))
  {
    StoreFrame(c, s, e);
    FlightFrame(c, s, e);
  }

  lemma QuietProgress(s: State, s': State, start: Replayed, first: nat, trail: Trail, w: Writes, done: bool)
    returns (trail': Trail, w': Writes)
    requires Progress(s, start, first, trail, w, done) && Quiet(s, s')
    requires Inserting(s) ==> s.consumer.pos < |s.log|
    ensures Progress(s', start, first, trail', w', done) && SetUps(trail') == SetUps(trail)
    ensures Deletions(trail') > 0 || w'.Wrote? ==> Deletions(trail) > 0 || w.Wrote?
  {
    trail', w' := trail, w;
    FollowsLonger(trail, s.log, s'.log, first, UpTo(s, done));
    if Inserting(s) && !Inserting(s') {
      trail' := Flush(s'.log, start, first, UpTo(s, done), trail, w);
      w' := NoWrites;
    }
  }

  lemma QuietStepProgress(c: Config, s: State, e: Step, start: Replayed, first: nat, trail: Trail, w: Writes,
                          done: bool)
    returns (trail': Trail, w': Writes)
    requires Inv(c, s, false) && Enabled(c, s, e) && !WritesRowsDirectly(e)
    requires !e.Apply? && !e.Insert? && !e.Commit? && !e.TakeId? && !e.SetUp?
    requires Progress(s, start, first, trail, w, done)
    ensures Progress(Next(c, s, e), start, first, trail', w', done) && SetUps(trail') == SetUps(trail)
    ensures Deletions(trail') > 0 || w'.Wrote? ==> Deletions(trail) > 0 || w.Wrote?
  {
    StepIsQuiet(c, s, e);
    trail', w' := QuietProgress(s, Next(c, s, e), start, first, trail, w, done);
  }

  lemma ApplyProgress(c: Config, s: State, start: Replayed, first: nat, trail: Trail, done: bool)
    returns (trail': Trail, done': bool)
    requires Inv(c, s, false) && Enabled(c, s, Apply) && Progress(s, start, first, trail, NoWrites, done)
    ensures Progress(ApplyPolled(s), start, first, trail', NoWrites, done')
    ensures SetUps(trail') == SetUps(trail) && Deletions(trail') == Deletions(trail)
  {
    ApplyMeaning(c, s, Replay(start, trail).next);
    if !done {
      trail', done' := ApplyOnce(s, ApplyPolled(s), start, first, trail);
    } else if HasEffect(T(s), s.log[s.committed]) {
      ApplyAgain(s, ApplyPolled(s), start, first, trail);
      trail', done' := trail, true;
    } else {
      trail' := ApplyRepeats(s, ApplyPolled(s), start, first, trail);
      done' := true;
    }
  }

  lemma SaveProgress(c: Config, s: State, e: Step, s': State, start: Replayed, first: nat, trail: Trail, w: Writes,
                     done: bool)
    returns (trail': Trail, w': Writes, done': bool)
    requires Inv(c, s, false) && Does(c, s, e, s') && Progress(s, start, first, trail, w, done)
    requires e.Apply? || e.Insert?
    ensures Progress(s', start, first, trail', w', done') && SetUps(trail') == SetUps(trail)
    ensures Deletions(trail') > 0 || w'.Wrote? ==> Deletions(trail) > 0 || w.Wrote?
  {
    if e.Apply? {
      trail', done' := ApplyProgress(c, s, start, first, trail, done);
      w' := w;
    } else {
      trail', done' := InsertProgress(c, s, start, first, trail, w, done);
      w' := NoWrites;
    }
  }

  lemma ConsumerProgress(c: Config, s: State, e: Step, s': State, start: Replayed, first: nat, trail: Trail, w: Writes,
                         done: bool)
    returns (trail': Trail, w': Writes, done': bool)
    requires Inv(c, s, false) && Does(c, s, e, s') && Progress(s, start, first, trail, w, done)
    requires e.Apply? || e.Insert? || e.Commit? || e.TakeId?
    ensures Progress(s', start, first, trail', w', done') && SetUps(trail') == SetUps(trail)
    ensures Deletions(trail') > 0 || w'.Wrote? ==> Deletions(trail) > 0 || w.Wrote?
  {
    if e.Commit? {
      CommitProgress(c, s, start, first, trail, w);
      trail', w', done' := trail, w, false;
    } else if e.TakeId? {
      TakeIdProgress(c, s, start, first, trail, w, done);
      trail', w', done' := trail, w, done;
    } else {
      trail', w', done' := SaveProgress(c, s, e, s', start, first, trail, w, done);
    }
  }

  lemma StepProgress(c: Config, s: State, e: Step, s': State, start: Replayed, first: nat, trail: Trail, w: Writes,
                     done: bool)
    returns (trail': Trail, w': Writes, done': bool)
    requires Inv(c, s, false) && Does(c, s, e, s') && !e.SetUp? && Progress(s, start, first, trail, w, done)
    ensures Progress(s', start, first, trail', w', done') && SetUps(trail') == SetUps(trail)
    ensures Deletions(trail') > 0 || w'.Wrote? ==> Deletions(trail) > 0 || w.Wrote? || WritesRowsDirectly(e)
  {
    if e.Apply? || e.Insert? || e.Commit? || e.TakeId? {
      trail', w', done' := ConsumerProgress(c, s, e, s', start, first, trail, w, done);
    } else if WritesRowsDirectly(e) {
      var v := DeleteMeaning(c, s, e);
      trail', w' := DeleteProgress(s, s', v, start, first, trail, w, done);
      done' := done;
    } else {
      trail', w' := QuietStepProgress(c, s, e, start, first, trail, w, done);
      done' := done;
    }
  }

  lemma LoginStays(t: Table, t': Table, login: string)
    requires HasLogin(t, login) && Grows(t, t', false)
    ensures HasLogin(t', login)
  {
    var i :| i in t && t[i].login == login;
    assert t'[i].login == login;
  }

  lemma AnyStepProgress(c: Config, s: State, e: Step, s': State, start: Replayed, first: nat, trail: Trail, w: Writes,
                        done: bool)
    returns (trail': Trail, w': Writes, done': bool)
    requires Inv(c, s, false) && Does(c, s, e, s') && Progress(s, start, first, trail, w, done) && SetUpOnce(s, trail)
    ensures Progress(s', start, first, trail', w', done') && SetUpOnce(s', trail')
    ensures SetUps(trail') != SetUps(trail) ==> e.SetUp?
    ensures Deletions(trail') > 0 || w'.Wrote? ==> Deletions(trail) > 0 || w.Wrote? || WritesRowsDirectly(e)
  {
    NextInv(c, s, false, e);
    if e.SetUp? {
      trail' := SetUpProgress(c, s, s', start, first, trail, done);
      w', done' := w, done;
    } else {
      trail', w', done' := StepProgress(c, s, e, s', start, first, trail, w, done);
    }
    if SetUps(trail) == 1 {
      LoginStays(T(s), T(s'), ADMIN.login);
    }
  }

  /** Nothing can be applied beyond the committed records: the log is drained, or a commit just happened. */
  ghost predicate Clean(run: seq<State>, steps: seq<Step>, j: nat)
    requires |run| == |steps| + 1 && j < |run|
  {
    run[j].committed == |run[j].log| || (j > 0 && steps[j - 1].Commit?)
  }

  lemma CleanProgress(c: Config, run: seq<State>, steps: seq<Step>, j: nat)
    requires IsRun(c, run, steps) && j < |run| && Clean(run, steps, j)
    ensures HasShards(run[j])
    ensures Progress(run[j], Replayed(T(run[j]), run[j].nextId), run[j].committed, Begin, NoWrites, false)
  {
    RunInv(c, run, steps, j, false);
    if j > 0 && steps[j - 1].Commit? {
      assert StepAt(c, run, steps, j - 1);
    }
  }

  lemma {:induction false} RunProgress(c: Config, run: seq<State>, steps: seq<Step>, j: nat, k: nat, start: Replayed)
    returns (trail: Trail, w: Writes, done: bool)
    requires IsRun(c, run, steps) && j <= k < |run| && Clean(run, steps, j)
    requires HasShards(run[j]) && start == Replayed(T(run[j]), run[j].nextId)
    ensures Progress(run[k], start, run[j].committed, trail, w, done) && SetUpOnce(run[k], trail)
    ensures SetUps(trail) > 0 ==> exists i :: j <= i < k && steps[i].SetUp?
    ensures Deletions(trail) > 0 || w.Wrote? ==> exists i :: j <= i < k && WritesRowsDirectly(steps[i])
  {
    if j == k {
      CleanProgress(c, run, steps, j);
      trail, w, done := Begin, NoWrites, false;
    } else {
      var trail0, w0, done0 := RunProgress(c, run, steps, j, k - 1, start);
      RunNext(c, run, steps, k - 1);
      trail, w, done :=
        AnyStepProgress(c, run[k - 1], steps[k - 1], run[k], start, run[j].committed, trail0, w0, done0);
    }
  }

  /** The table of s is what the trail makes of that of s0: the records committed since, and one more when done. */
  ghost predicate ReplayedSince(s0: State, s: State, trail: Trail, done: bool) {
    && HasShards(s0) && HasShards(s)
    && s0.committed <= s.committed && UpTo(s, done) <= |s.log|
    && Follows(trail, s.log, s0.committed, UpTo(s, done))
    && T(s) == Replay(Replayed(T(s0), s0.nextId), trail).table
  }

  /** After any crashes at any points, in every run, the table is the replay of the records committed since a clean
      state, once each and in order, plus at most the one applied but not yet committed, with some ids skipped.
      Set-ups in between add the administrator at most once. Deletions write their rows in between, and only right
      after one of them is the record in line applied once more. */
  lemma EffectivelyOnce(c: Config, run: seq<State>, steps: seq<Step>, j: nat, k: nat)
    returns (trail: Trail, done: bool)
    requires IsRun(c, run, steps) && j <= k < |run| && Clean(run, steps, j)
    ensures ReplayedSince(run[j], run[k], trail, done)
    ensures SetUps(trail) <= 1
    ensures SetUps(trail) == 1 ==> exists i :: j <= i < k && steps[i].SetUp?
    ensures Repeats(trail) <= Deletions(trail)
    ensures Deletions(trail) > 0 ==> exists i :: j <= i < k && WritesRowsDirectly(steps[i])
  {
    CleanProgress(c, run, steps, j);
    var w;
    trail, w, done := RunProgress(c, run, steps, j, k, Replayed(T(run[j]), run[j].nextId));
    trail := Flush(run[k].log, Replayed(T(run[j]), run[j].nextId), run[j].committed, UpTo(run[k], done), trail, w);
    RepeatsNeedDeletions(trail, run[k].log, run[j].committed, UpTo(run[k], done));
  }

  /** The next record is an update its shard refuses, and it is not applied. */
  ghost predicate Stuck(s: State) {
    && HasShards(s) && s.committed < |s.log| && FromJson(s.log[s.committed]).Some?
    && (s.consumer.Down? || ((s.consumer.Idle? || s.consumer.Polled?) && s.consumer.pos == s.committed))
    && var u := FromJson(s.log[s.committed]).value;
       u.id > 0 && u.id in T(s) && ClashIn(T(s), |s.shards|, u)
  }

  lemma QuietStaysStuck(s: State, s': State)
    requires Stuck(s) && Quiet(s, s') && (s'.consumer.Down? || s'.consumer.pos == s.committed)
    ensures Stuck(s') && s'.committed == s.committed
  {
    assert s'.log[s.committed] == s.log[s.committed];
  }

  lemma SetUpStaysStuck(c: Config, s: State)
    requires Basics(c, s) && Stuck(s) && Enabled(c, s, SetUp)
    ensures Stuck(SetUpAdmin(s)) && SetUpAdmin(s).committed == s.committed
  {
    var u, n := FromJson(s.log[s.committed]).value, |s.shards|;
    var i :| i in T(s) && i != u.id && ShardOf(i, n) == ShardOf(u.id, n) && SameLoginOrEmail(T(s)[i], u.login, u.email);
    SetUpMeaning(c, s, s.nextId);
    InsertRefines(s.shards, ADMIN.(id := s.nextId));
    assert SameLoginOrEmail(T(SetUpAdmin(s))[i], u.login, u.email);
  }

  lemma ApplyStaysStuck(c: Config, s: State)
    requires Shape(c, s) && Stuck(s) && Enabled(c, s, Apply)
    ensures Stuck(ApplyPolled(s)) && ApplyPolled(s).committed == s.committed
  {
    UpdateRefines(s.shards, FromJson(s.log[s.committed]).value);
    assert ApplyPolled(s) == s.(consumer := Down);
  }

  lemma QuietStepStaysStuck(c: Config, s: State, e: Step, s': State)
    requires Inv(c, s, false) && Stuck(s) && Does(c, s, e, s') && !WritesRowsDirectly(e) && !e.Apply? && !e.SetUp?
    ensures Stuck(s') && s'.committed == s.committed
  {
    StepIsQuiet(c, s, e);
    NextInv(c, s, false, e);
    QuietStaysStuck(s, s');
  }

  lemma NextStaysStuck(c: Config, s: State, e: Step, s': State)
    requires Inv(c, s, false) && Stuck(s) && Does(c, s, e, s') && !WritesRowsDirectly(e)
    ensures Stuck(s') && s'.committed == s.committed
  {
    if e.Apply? {
      ApplyStaysStuck(c, s);
    } else if e.SetUp? {
      SetUpStaysStuck(c, s);
    } else {
      QuietStepStaysStuck(c, s, e, s');
    }
  }

  /** A refused update blocks the log: without a deletion nothing after it is ever consumed. */
  lemma {:induction false} RefusedUpdateBlocks(c: Config, run: seq<State>, steps: seq<Step>, j: nat, k: nat)
    requires IsRun(c, run, steps) && j <= k < |run| && Stuck(run[j])
    requires forall i :: j <= i < k ==> !WritesRowsDirectly(steps[i])
    ensures Stuck(run[k]) && run[k].committed == run[j].committed
    decreases k
  {
    if j < k {
      RefusedUpdateBlocks(c, run, steps, j, k - 1);
      RunNext(c, run, steps, k - 1);
      NextStaysStuck(c, run[k - 1], steps[k - 1], run[k]);
    }
  }

  /** Applying a polled record ends the consumer exactly when it is such an update. */
  lemma ApplyFailsExactly(c: Config, s: State)
    requires Inv(c, s, false) && Enabled(c, s, Apply)
    ensures ApplyPolled(s).consumer.Down? <==> Stuck(s)
  {
    assert ObjectOk(T(s), s.log[s.committed].fields, false);
    if FromJson(s.log[s.committed]).value.id > 0 {
      UpdateRefines(s.shards, FromJson(s.log[s.committed]).value);
    }
  }
}
