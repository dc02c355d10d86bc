/** What the rows are once the consumer has worked off the log. */
module CatchingUp {
  import opened Users
  import opened Sharding
  import opened System
  import opened Invariant
  import opened Consuming

  /** The row of i after a message: what it says when it is for i. */
  function Says(m: Json, i: int, row: User): User {
    if FromJson(m).Some? && FromJson(m).value.id == i then FromJson(m).value else row
  }

  /** What the last record for i from first up to last says, or the row there was. */
  function LastSaid(log: seq<Json>, first: nat, last: nat, i: int, row: User): User
    requires first <= last <= |log|
  {
    if first == last then row else Says(log[last - 1], i, LastSaid(log, first, last - 1, i, row))
  }

  /** One record saved: only the row it names is replaced, by what it says. */
  lemma RecordSaved(c: Config, s: State, i: int)
    requires Inv(c, s, false) && HasRecord(s) && i in T(s)
    requires SaveMessage(s.shards, s.nextId, s.log[s.committed]).0.Some?
    ensures
      var s' := AfterRecord(s);
      HasShards(s') && i in T(s') && T(s')[i] == Says(s.log[s.committed], i, T(s)[i])
  {
    assert ObjectOk(T(s), s.log[s.committed].fields, false);
    var u := FromJson(s.log[s.committed]).value;
    if u.id > 0 {
      UpdateRefines(s.shards, u);
    } else {
      InsertRefines(s.shards, u.(id := s.nextId));
    }
  }

  ghost predicate HasRow(s: State, i: int, row: User) {
    HasShards(s) && i in T(s) && T(s)[i] == row
  }

  lemma LastRecord(c: Config, s: State, i: int, row: User)
    requires Reachable(c, s) && HasRecord(s) && HasRow(s, i, row)
    requires SaveMessage(s.shards, s.nextId, s.log[s.committed]).0.Some?
    ensures HasRow(AfterRecord(s), i, Says(s.log[s.committed], i, row))
  {
    ReachableInv(c, s);
    RecordSaved(c, s, i);
  }

  /** Once the consumer has caught up, a row is what the last pending record for it says: a deletion is undone by
      the consumer exactly when that record says undeleted. */
  lemma {:induction false} LastEventWins(c: Config, s: State, last: nat, i: int, row: User)
    requires Reachable(c, s) && HasRow(s, i, row) && s.consumer == Idle(s.committed) && s.committed <= last <= |s.log|
    requires CatchUp(s, last).Some?
    ensures Consumes(c, s, CatchUp(s, last).value)
    ensures HasRow(CatchUp(s, last).value, i, LastSaid(s.log, s.committed, last, i, row))
    decreases last
  {
    CatchUpSteps(c, s, last);
    if s.committed < last {
      LastEventWins(c, s, last - 1, i, row);
      ConsumesReachable(c, s, CatchUp(s, last - 1).value);
      LastRecord(c, CatchUp(s, last - 1).value, i, LastSaid(s.log, s.committed, last - 1, i, row));
    }
  }

  /** A deletion with an undeleted event pending does not last: from any state of the consumer, unless a record on
      the way is refused, its steps alone bring the row back. */
  lemma PendingEventRevives(c: Config, s: State, p: nat, i: int) returns (s': State)
    requires Reachable(c, s) && HasShards(s) && s.committed <= p < |s.log| && i in T(s)
    requires FromJson(s.log[p]).Some? && FromJson(s.log[p]).value.id == i && !FromJson(s.log[p]).value.deleted
    requires CatchUp(s.(consumer := Idle(s.committed)), p + 1).Some?
    ensures Consumes(c, s, s') && HasShards(s') && i in T(s') && !T(s')[i].deleted
  {
    var s1, s2 := s.(consumer := Down), s.(consumer := Idle(s.committed));
    ConsumesNothing(c, s);
    ConsumesStep(c, s, s, Crash, s1);
    ConsumesStep(c, s, s1, Start, s2);
    ConsumesReachable(c, s, s2);
    LastEventWins(c, s2, p + 1, i, T(s)[i]);
    s' := CatchUp(s2, p + 1).value;
    ConsumesMore(c, s, s2, s');
  }
}
