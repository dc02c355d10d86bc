/** The meaning of the message log: what an exactly-once consumer would make of it. */
module Replays {
  import opened Users
  import opened Sharding

  /** A logical table and the next id of the sequence. */
  datatype Replayed = Replayed(table: Table, next: int)

  /** A new user, unless its login or email is known; gap ids of the sequence are lost before it takes its own. */
  ghost function AddUser(r: Replayed, u: User, gap: nat): Replayed {
    if ExistsIn(r.table, u.login, u.email) then r
    else
      var id := r.next + gap;
      Replayed(r.table[id := Inserted(u.(id := id))], id + 1)
  }

  /** One message on one logical table. */
  ghost function ApplyMessage(r: Replayed, m: Json, gap: nat): Replayed {
    match FromJson(m)
    case None => r
    case Some(u) =>
      if u.id > 0 then
        if u.id in r.table then r.(table := r.table[u.id := u]) else r
      else AddUser(r, u, gap)
  }

  /** What wrote rows since a start, the last at the outside: a record, a set-up of the administrator, a deletion
      that wrote its user's row whole, or the last record once more. */
  datatype Trail =
    | Begin
    | Record(before: Trail, m: Json, gap: nat)
    | SetUpRow(before: Trail, gap: nat)
    | DeletedRow(before: Trail, u: User)
    | Again(before: Trail, m: Json, gap: nat)

  ghost function WriteRow(r: Replayed, u: User): Replayed {
    if u.id in r.table then r.(table := r.table[u.id := u]) else r
  }

  ghost function Replay(r: Replayed, trail: Trail): Replayed {
    match trail
    case Begin => r
    case Record(before, m, gap) => ApplyMessage(Replay(r, before), m, gap)
    case SetUpRow(before, gap) => AddUser(Replay(r, before), ADMIN, gap)
    case DeletedRow(before, u) => WriteRow(Replay(r, before), u)
    case Again(before, m, gap) => ApplyMessage(Replay(r, before), m, gap)
  }

  /** A deletion wrote a row since the last record. */
  predicate Dirty(trail: Trail) {
    match trail
    case DeletedRow(_, _) => true
    case SetUpRow(before, _) => Dirty(before)
    case _ => false
  }

  /** The records of the trail are those of the log from first up to last, in order, once each; a record is there
      again only right after deletions. */
  ghost predicate Follows(trail: Trail, log: seq<Json>, first: int, last: int) {
    match trail
    case Begin => first == last
    case Record(before, m, _) =>
      0 <= first < last <= |log| && m == log[last - 1] && Follows(before, log, first, last - 1)
    case SetUpRow(before, _) => Follows(before, log, first, last)
    case DeletedRow(before, u) => u.deleted && Follows(before, log, first, last)
    case Again(before, m, _) =>
      0 <= first < last <= |log| && m == log[last - 1] && Dirty(before) && Follows(before, log, first, last)
  }

  function SetUps(trail: Trail): nat {
    match trail
    case Begin => 0
    case SetUpRow(before, _) => SetUps(before) + 1
    case _ => SetUps(trail.before)
  }

  function Deletions(trail: Trail): nat {
    match trail
    case Begin => 0
    case DeletedRow(before, _) => Deletions(before) + 1
    case _ => Deletions(trail.before)
  }

  function Repeats(trail: Trail): nat {
    match trail
    case Begin => 0
    case Again(before, _, _) => Repeats(before) + 1
    case _ => Repeats(trail.before)
  }

  /** Without deletions no record is there twice: each repeat stands behind a deletion of its own. */
  lemma {:induction false} RepeatsNeedDeletions(trail: Trail, log: seq<Json>, first: int, last: int)
    requires Follows(trail, log, first, last)
    ensures Repeats(trail) <= Deletions(trail) && (Dirty(trail) ==> Repeats(trail) < Deletions(trail))
  {
    match trail
    case Begin =>
    case Record(before, _, _) => RepeatsNeedDeletions(before, log, first, last - 1);
    case _ => RepeatsNeedDeletions(trail.before, log, first, last);
  }

  /** Rows written by deletions while a create is between its check and its insert. */
  datatype Writes = NoWrites | Wrote(before: Writes, u: User)

  ghost function Overwrite(t: Table, w: Writes): Table {
    match w
    case NoWrites => t
    case Wrote(before, u) => Overwrite(t, before)[u.id := u]
  }

  /** All of them deleted rows of t. */
  ghost predicate Within(w: Writes, t: Table) {
    match w
    case NoWrites => true
    case Wrote(before, u) => u.deleted && u.id in t && Within(before, t)
  }

  function Appended(trail: Trail, w: Writes): Trail {
    match w
    case NoWrites => trail
    case Wrote(before, u) => DeletedRow(Appended(trail, before), u)
  }

  lemma {:induction false} OverwriteKeys(t: Table, w: Writes)
    requires Within(w, t)
    ensures Overwrite(t, w).Keys == t.Keys
  {
    match w
    case NoWrites =>
    case Wrote(before, u) =>
      OverwriteKeys(t, before);
      assert Overwrite(t, w).Keys == Overwrite(t, before).Keys + {u.id};
  }

  lemma OverwriteOneMore(t: Table, w: Writes, u: User)
    requires Within(w, t) && u.deleted && u.id in Overwrite(t, w)
    ensures Within(Wrote(w, u), t) && Overwrite(t, Wrote(w, u)) == Overwrite(t, w)[u.id := u]
  {
    OverwriteKeys(t, w);
  }

  /** The writes at the end of the trail. */
  lemma {:induction false} AppendedMeaning(r: Replayed, trail: Trail, w: Writes)
    requires Within(w, Replay(r, trail).table)
    ensures Replay(r, Appended(trail, w)) == Replayed(Overwrite(Replay(r, trail).table, w), Replay(r, trail).next)
  {
    match w
    case NoWrites =>
    case Wrote(before, u) =>
      AppendedMeaning(r, trail, before);
      OverwriteKeys(Replay(r, trail).table, before);
  }

  lemma {:induction false} AppendedFollows(trail: Trail, w: Writes, t: Table, log: seq<Json>, first: int, last: int)
    requires Follows(trail, log, first, last) && Within(w, t)
    ensures Follows(Appended(trail, w), log, first, last)
    ensures SetUps(Appended(trail, w)) == SetUps(trail) && (Dirty(trail) || w.Wrote? ==> Dirty(Appended(trail, w)))
    ensures Deletions(trail) <= Deletions(Appended(trail, w)) && (w.NoWrites? ==> Appended(trail, w) == trail)
  {
    if w.Wrote? {
      AppendedFollows(trail, w.before, t, log, first, last);
    }
  }

  /** A new row may be inserted before the writes. */
  lemma {:induction false} OverwriteInsert(t: Table, w: Writes, id: int, row: User)
    requires Within(w, t) && id !in t
    ensures Within(w, t[id := row]) && Overwrite(t[id := row], w) == Overwrite(t, w)[id := row]
  {
    match w
    case NoWrites =>
    case Wrote(before, u) =>
      OverwriteInsert(t, before, id, row);
      var x := Overwrite(t, before);
      assert x[id := row][u.id := u] == x[u.id := u][id := row];
  }

  /** Records behind last do not matter. */
  lemma {:induction false} FollowsLonger(trail: Trail, log: seq<Json>, log': seq<Json>, first: int, last: int)
    requires Follows(trail, log, first, last) && log <= log'
    ensures Follows(trail, log', first, last)
  {
    match trail
    case Begin =>
    case Record(before, _, _) => FollowsLonger(before, log, log', first, last - 1);
    case _ => FollowsLonger(trail.before, log, log', first, last);
  }

  /** The message has had its effect: the row is its user, or the new login or email is known. */
  ghost predicate HasEffect(t: Table, m: Json) {
    FromJson(m).Some? ==>
      var u := FromJson(m).value;
      if u.id > 0 then u.id in t ==> t[u.id] == u else ExistsIn(t, u.login, u.email)
  }

  lemma AddedExists(r: Replayed, u: User, gap: nat)
    ensures ExistsIn(AddUser(r, u, gap).table, u.login, u.email)
  {
    if !ExistsIn(r.table, u.login, u.email) {
      assert SameLoginOrEmail(AddUser(r, u, gap).table[r.next + gap], u.login, u.email);
    }
  }

  lemma ApplyHasEffect(r: Replayed, m: Json, gap: nat)
    ensures HasEffect(ApplyMessage(r, m, gap).table, m)
  {
    if FromJson(m).Some? && FromJson(m).value.id <= 0 {
      AddedExists(r, FromJson(m).value, gap);
    }
  }

  /** A message that has had its effect has no further one on the table. */
  lemma EffectIsFinal(r: Replayed, m: Json, gap: nat)
    requires HasEffect(r.table, m)
    ensures ApplyMessage(r, m, gap) == r
  {
    if FromJson(m).Some? && FromJson(m).value.id in r.table {
      assert r.table[FromJson(m).value.id := r.table[FromJson(m).value.id]] == r.table;
    }
  }

  /** A message already applied has no further effect on the table, whatever id it would take. */
  lemma ApplyTwice(r: Replayed, m: Json, gap: nat, next: int, gap': nat)
    ensures ApplyMessage(Replayed(ApplyMessage(r, m, gap).table, next), m, gap').table == ApplyMessage(r, m, gap).table
  {
    ApplyHasEffect(r, m, gap);
    EffectIsFinal(Replayed(ApplyMessage(r, m, gap).table, next), m, gap');
  }
}
