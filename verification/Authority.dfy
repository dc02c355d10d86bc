/** Who asked for the changes that reach a row. */
module Authority {
  import opened Wrappers
  import opened Users
  import opened Sharding
  import opened Edits
  import opened Validation
  import opened System
  import opened Frames
  import opened Invariant

  /** The requester owns row i or holds the admin role now. */
  ghost predicate MayChange(s: State, requester: int, i: int)
    requires HasShards(s)
  {
    requester == i || HasRole(s.roles, requester, "admin")
  }

  ghost predicate AsksEdit(s: State, e: Step, i: int) {
    HasShards(s) && (e.Edit? || e.EditFetched?) && MayChange(s, e.requester, i)
  }

  ghost predicate AsksDelete(s: State, e: Step, i: int) {
    HasShards(s) && (e.Delete? || e.DeleteFetched?) && MayChange(s, e.requester, i)
  }

  /** A step appends at most one event; an update event names a row its requester may change. */
  ghost predicate AppendsRightly(s: State, e: Step, s': State) {
    s'.log == s.log ||
    (|s'.log| == |s.log| + 1 && s.log <= s'.log &&
     (FromJson(s'.log[|s.log|]).Some? && FromJson(s'.log[|s.log|]).value.id > 0 ==>
        AsksEdit(s, e, FromJson(s'.log[|s.log|]).value.id)))
  }

  lemma EditAppendsRightly(c: Config, s: State, e: Step)
    requires Possible(c, s, e) && (e.Edit? || e.EditFetched?)
    ensures AppendsRightly(s, e, Next(c, s, e))
  {
    var admin := HasRole(s.roles, e.requester, "admin");
    var found := if e.EditFetched? then s.tasks[e.task].user
                 else if Id in e.changes && e.changes[Id].Num? then Found(s, c.userCache, e.changes[Id].n) else EMPTY;
    if EditOutcome(found, e.requester, admin, e.changes).Ok? {
      EditKeeps(found, e.requester, admin, e.changes);
      DecodePlain(EditOutcome(found, e.requester, admin, e.changes).value);
    }
  }

  /** A sign-up that is accepted and sent although its body carries a positive id. */
  predicate Forges(e: Step) {
    && e.SignUp? && e.sent && FromJson(e.body).Some?
    && var u := FromJson(e.body).value;
       u.id > 0 && WellFormed(u) && |u.password| >= 3
  }

  lemma SignUpAppendsRightly(c: Config, s: State, e: Step)
    requires Possible(c, s, e) && e.SignUp? && !Forges(e)
    ensures AppendsRightly(s, e, Next(c, s, e))
  {
    if Next(c, s, e) != s {
      DecodePlain(FromJson(e.body).value);
    }
  }

  lemma NextAppendsRightly(c: Config, s: State, e: Step)
    requires Possible(c, s, e) && !Forges(e)
    ensures AppendsRightly(s, e, Next(c, s, e))
  {
    if e.Edit? || e.EditFetched? {
      EditAppendsRightly(c, s, e);
    } else if e.SignUp? {
      SignUpAppendsRightly(c, s, e);
    } else {
      StoreFrame(c, s, e);
    }
  }

  /** Step j puts event p in the log. */
  ghost predicate AppendsAt(run: seq<State>, j: int, p: int)
    requires 0 <= j < |run| - 1
  {
    |run[j].log| == p && |run[j + 1].log| == p + 1 && run[j].log <= run[j + 1].log
  }

  /** The step that put event p in the log was an edit by someone who might change row i then. */
  ghost predicate AskedBefore(run: seq<State>, steps: seq<Step>, k: int, p: int, i: int)
    requires |run| == |steps| + 1
  {
    exists j :: 0 <= j < k <= |steps| && AppendsAt(run, j, p) && AsksEdit(run[j], steps[j], i)
  }

  /** The step that put event p in the log was a forging sign-up. */
  ghost predicate ForgedBefore(run: seq<State>, steps: seq<Step>, k: int, p: int)
    requires |run| == |steps| + 1
  {
    exists j :: 0 <= j < k <= |steps| && AppendsAt(run, j, p) && Forges(steps[j])
  }

  ghost predicate IsUpdate(m: Json) {
    FromJson(m).Some? && FromJson(m).value.id > 0
  }

  lemma ForgeAppends(c: Config, s: State, e: Step)
    requires Possible(c, s, e) && Forges(e)
    ensures Next(c, s, e) == s.(log := s.log + [Obj(ToJson(FromJson(e.body).value))])
    ensures IsUpdate(Obj(ToJson(FromJson(e.body).value)))
  {
    DecodePlain(FromJson(e.body).value);
  }

  /** In every run of the code as it is, the step that appended an update event was an edit by the owner of the row it
      names or by an admin, or a forging sign-up. */
  lemma {:induction false} OpenEvents(c: Config, run: seq<State>, steps: seq<Step>, k: nat, p: nat)
    requires IsOpenRun(c, run, steps) && k < |run| && p < |run[k].log| && IsUpdate(run[k].log[p])
    ensures AskedBefore(run, steps, k, p, FromJson(run[k].log[p]).value.id) || ForgedBefore(run, steps, k, p)
    decreases k
  {
    if k > 0 {
      assert OpenStepAt(c, run, steps, k - 1);
      if Forges(steps[k - 1]) {
        ForgeAppends(c, run[k - 1], steps[k - 1]);
      } else {
        NextAppendsRightly(c, run[k - 1], steps[k - 1]);
      }
      if p < |run[k - 1].log| {
        assert run[k].log[p] == run[k - 1].log[p];
        OpenEvents(c, run, steps, k - 1, p);
      } else {
        assert AppendsAt(run, k - 1, p);
      }
    }
  }

  /** Every update event ever in the log was asked for by the owner of the row it will write or by an admin of that
      moment; the row is the one named in the event, not the one named in the request. */
  lemma EventsAuthorised(c: Config, run: seq<State>, steps: seq<Step>, k: nat, p: nat)
    requires IsRun(c, run, steps) && k < |run| && p < |run[k].log|
    requires FromJson(run[k].log[p]).Some? && FromJson(run[k].log[p]).value.id > 0
    ensures AskedBefore(run, steps, k, p, FromJson(run[k].log[p]).value.id)
  {
    MovesAreOpen(c, run, steps);
    RunForgesNot(c, run, steps);
    OpenEvents(c, run, steps, k, p);
  }

  lemma RunForgesNot(c: Config, run: seq<State>, steps: seq<Step>)
    requires IsRun(c, run, steps)
    ensures forall i :: 0 <= i < |steps| ==> !Forges(steps[i])
  {
    forall i | 0 <= i < |steps|
      ensures !Forges(steps[i])
    {
      assert StepAt(c, run, steps, i);
    }
  }

  lemma DeleteWithChanges(c: Config, s: State, u: User, requester: int, i: int)
    requires Shape(c, s)
    ensures
      var s' := DeleteWith(s, u, requester);
      && s' == s.(shards := s'.shards) && Shape(c, s') && T(s').Keys == T(s).Keys
      && (i in T(s) && T(s')[i] != T(s)[i] ==> u.id == i && MayChange(s, requester, i) && T(s')[i].deleted)
  {
    if u.id > 0 {
      UpdateRefines(s.shards, u.(deleted := true));
    }
  }

  lemma DeleteChanges(c: Config, s: State, e: Step, i: int)
    requires Basics(c, s) && Possible(c, s, e) && (e.Delete? || e.DeleteFetched?)
    ensures
      var s' := Next(c, s, e);
      && Basics(c, s') && T(s').Keys == T(s).Keys
      && (i in T(s) && T(s')[i] != T(s)[i] ==> AsksDelete(s, e, i) && T(s')[i].deleted)
  {
    match e
    case Delete(requester, id) =>
      DeleteWithChanges(c, Read(s, c.userCache, id), Found(s, c.userCache, id), requester, i);
    case DeleteFetched(task, requester) =>
      DeleteWithChanges(c, s.(tasks := s.tasks - {task}), s.tasks[task].user, requester, i);
  }

  lemma UpdateChanges(c: Config, s: State, u: User, i: int)
    requires Basics(c, s) && Possible(c, s, Apply) && FromJson(s.log[s.committed]) == Some(u) && u.id > 0
    ensures Basics(c, ApplyPolled(s)) && T(ApplyPolled(s)).Keys == T(s).Keys
    ensures i in T(s) && i != u.id ==> T(ApplyPolled(s))[i] == T(s)[i]
  {
    UpdateRefines(s.shards, u);
  }

  lemma ApplyChanges(c: Config, s: State, i: int)
    requires Basics(c, s) && Possible(c, s, Apply)
    ensures Basics(c, ApplyPolled(s)) && T(ApplyPolled(s)).Keys == T(s).Keys
    ensures i in T(s) && T(ApplyPolled(s))[i] != T(s)[i] ==>
              IsUpdate(s.log[s.committed]) && FromJson(s.log[s.committed]).value.id == i
  {
    if IsUpdate(s.log[s.committed]) {
      UpdateChanges(c, s, FromJson(s.log[s.committed]).value, i);
    }
  }

  lemma InsertChanges(c: Config, s: State, i: int)
    requires Basics(c, s) && Possible(c, s, Insert)
    ensures Basics(c, InsertNumbered(s))
    ensures i in T(s) ==> i in T(InsertNumbered(s)) && T(InsertNumbered(s))[i] == T(s)[i]
  {
    InsertRefines(s.shards, FromJson(s.log[s.consumer.pos]).value.(id := s.consumer.id));
  }

  lemma SetUpChanges(c: Config, s: State, i: int)
    requires Basics(c, s) && Possible(c, s, SetUp)
    ensures Basics(c, SetUpAdmin(s))
    ensures i in T(s) ==> i in T(SetUpAdmin(s)) && T(SetUpAdmin(s))[i] == T(s)[i]
  {
    InsertRefines(s.shards, ADMIN.(id := s.nextId));
  }

  lemma OthersKeepBasics(c: Config, s: State, e: Step)
    requires Basics(c, s) && Possible(c, s, e) && !WritesRows(e)
    ensures Basics(c, Next(c, s, e)) && Next(c, s, e).shards == s.shards
  {
    StoreFrame(c, s, e);
    FlightFrame(c, s, e);
    if e.Grant? || e.Revoke? {
      RestFrame(c, s, e, Next(c, s, e));
    }
  }

  /** A row only changes by a deletion someone might ask for, or by the update event applied. */
  ghost predicate ChangesBy(s: State, e: Step, s': State, i: int)
    requires HasShards(s) && i in T(s)
  {
    && HasShards(s') && i in T(s')
    && (T(s')[i] != T(s)[i] ==>
          || (AsksDelete(s, e, i) && T(s')[i].deleted)
          || (e.Apply? && s.committed < |s.log| &&
              IsUpdate(s.log[s.committed]) && FromJson(s.log[s.committed]).value.id == i))
  }

  lemma NextChanges(c: Config, s: State, e: Step, i: int)
    requires Basics(c, s) && Possible(c, s, e)
    ensures Basics(c, Next(c, s, e)) && (i in T(s) ==> ChangesBy(s, e, Next(c, s, e), i))
  {
    if e.Delete? || e.DeleteFetched? {
      DeleteChanges(c, s, e, i);
    } else if e.Apply? {
      ApplyChanges(c, s, i);
    } else if e.Insert? {
      InsertChanges(c, s, i);
    } else if e.SetUp? {
      SetUpChanges(c, s, i);
    } else {
      OthersKeepBasics(c, s, e);
    }
  }

  lemma {:induction false} OpenRunBasics(c: Config, run: seq<State>, steps: seq<Step>, k: nat)
    requires IsOpenRun(c, run, steps) && k < |run|
    ensures Basics(c, run[k])
  {
    if k == 0 {
      InitInv(c, run[0], false);
    } else {
      OpenRunBasics(c, run, steps, k - 1);
      assert OpenStepAt(c, run, steps, k - 1);
      NextChanges(c, run[k - 1], steps[k - 1], 0);
    }
  }

  /** Whenever a row changes, in any run of the code as it is, the step deletes it at the request of its owner or an
      admin, or applies an update event for it that its owner or an admin of that earlier moment asked for, or that
      a sign-up forged. */
  lemma OpenRowChanges(c: Config, run: seq<State>, steps: seq<Step>, k: nat, i: int)
    requires IsOpenRun(c, run, steps) && k < |steps| && HasShards(run[k]) && i in T(run[k])
    ensures HasShards(run[k + 1]) && i in T(run[k + 1])
    ensures || T(run[k + 1])[i] == T(run[k])[i]
            || (AsksDelete(run[k], steps[k], i) && T(run[k + 1])[i].deleted)
            || (steps[k].Apply? && AskedBefore(run, steps, k, run[k].committed, i))
            || (steps[k].Apply? && ForgedBefore(run, steps, k, run[k].committed))
  {
    OpenRunBasics(c, run, steps, k);
    assert OpenStepAt(c, run, steps, k);
    NextChanges(c, run[k], steps[k], i);
    if T(run[k + 1])[i] != T(run[k])[i] && steps[k].Apply? {
      OpenEvents(c, run, steps, k, run[k].committed);
    }
  }

  /** With sign-up bodies as the interface describes them, only the first three ways are left. */
  lemma RowChangesAuthorised(c: Config, run: seq<State>, steps: seq<Step>, k: nat, i: int)
    requires IsRun(c, run, steps) && k < |steps| && HasShards(run[k]) && i in T(run[k])
    ensures HasShards(run[k + 1]) && i in T(run[k + 1])
    ensures || T(run[k + 1])[i] == T(run[k])[i]
            || (AsksDelete(run[k], steps[k], i) && T(run[k + 1])[i].deleted)
            || (steps[k].Apply? && AskedBefore(run, steps, k, run[k].committed, i))
  {
    MovesAreOpen(c, run, steps);
    RunForgesNot(c, run, steps);
    OpenRowChanges(c, run, steps, k, i);
  }

  /** Only a grant and a revocation change the one role table. */
  lemma RoleStep(c: Config, s: State, e: Step)
    requires Enabled(c, s, e) && RolesPlaced(s.roles)
    ensures RolesPlaced(Next(c, s, e).roles)
    ensures RolePairs(Next(c, s, e).roles) ==
            if e.Grant? then RolePairs(s.roles) + {(e.id, e.role)}
            else if e.Revoke? then RolePairs(s.roles) - {(e.id, e.role)}
            else RolePairs(s.roles)
  {
    if e.Grant? || e.Revoke? {
      RolesRefine(s.roles, e.id, e.role);
    } else {
      FlightFrame(c, s, e);
    }
  }

  /** In every run a check on the shard of the user is one on the one role table. */
  lemma {:induction false} RunRoles(c: Config, run: seq<State>, steps: seq<Step>, k: nat)
    requires IsRun(c, run, steps) && k < |run|
    ensures RolesPlaced(run[k].roles)
    ensures forall id, role :: HasRole(run[k].roles, id, role) <==> (id, role) in RolePairs(run[k].roles)
  {
    if k > 0 {
      RunRoles(c, run, steps, k - 1);
      assert StepAt(c, run, steps, k - 1);
      RoleStep(c, run[k - 1], steps[k - 1]);
    }
    forall id, role
      ensures HasRole(run[k].roles, id, role) <==> (id, role) in RolePairs(run[k].roles)
    {
      PairIsPlaced(run[k].roles, (id, role));
    }
  }
}
