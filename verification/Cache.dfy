/** The shared key-value cache: one key space for objects and lists, 60 seconds of life. */
module CacheModel {
  import opened Wrappers
  import opened Users
  import opened Decimal
  import opened Sharding

  datatype Entry = Entry(value: Json, putAt: int)

  type Entries = map<string, Entry>

  const LIFETIME := 60

  predicate Live(e: Entry, now: int) {
    now - e.putAt <= LIFETIME
  }

  function Lookup(es: Entries, now: int, on: bool, key: string): Option<Json> {
    if on && key in es && Live(es[key], now) then Some(es[key].value) else None
  }

  function PutEntry(es: Entries, now: int, on: bool, key: string, value: Json): Entries {
    if on then es[key := Entry(value, now)] else es
  }

  /** A missing key, an expired entry, a list and an undecodable object all read as the empty user. */
  function CachedUser(es: Entries, now: int, on: bool, key: string): User {
    match Lookup(es, now, on, key)
    case Some(j) => (match FromJson(j) case Some(u) => u case None => EMPTY)
    case None => EMPTY
  }

  /** save_to_cache: under the id and under the login. */
  function PutUser(es: Entries, now: int, on: bool, u: User): Entries {
    var j := Obj(ToJsonWithPassword(u));
    PutEntry(PutEntry(es, now, on, ToString(u.id), j), now, on, u.login, j)
  }

  /** The rows a cached list yields before its first bad entry; none when the key holds no list. */
  function CachedRows(es: Entries, now: int, on: bool, key: string): seq<User> {
    match Lookup(es, now, on, key)
    case Some(Arr(items)) => DecodedPrefix(items)
    case _ => []
  }

  predicate ListHit(es: Entries, now: int, on: bool, key: string) {
    match Lookup(es, now, on, key)
    case Some(Arr(items)) => |DecodedPrefix(items)| == |items|
    case _ => false
  }

  /** get_by_id on a store and a cache: the user answered and the cache left behind. */
  function FoundUser(sh: seq<Table>, es: Entries, now: int, on: bool, id: int): User
    requires |sh| > 0
  {
    var hit := CachedUser(es, now, on, ToString(id));
    if hit.id > 0 then hit
    else match RowOf(sh, id) case Some(u) => u case None => EMPTY
  }

  function FoundCache(sh: seq<Table>, es: Entries, now: int, on: bool, id: int): Entries
    requires |sh| > 0
  {
    var hit := CachedUser(es, now, on, ToString(id));
    if hit.id > 0 then es
    else match RowOf(sh, id) case Some(u) => PutUser(es, now, on, u) case None => es
  }

  /** An unseparated concatenation with a default. */
  function SearchKey(q: Query): string {
    var key := q.login + q.email + q.name;
    if key == "" then "full" else key
  }

  function PutList(es: Entries, now: int, on: bool, q: Query, rows: seq<User>): Entries {
    PutEntry(es, now, on, SearchKey(q), Arr(Encoded(rows)))
  }

  /** What is read back after a save of a user, under every key. */
  lemma PutUserReads(es: Entries, now: int, u: User, key: string)
    ensures CachedUser(PutUser(es, now, true, u), now, true, key) ==
            if key == ToString(u.id) || key == u.login then u else CachedUser(es, now, true, key)
  {
    DecodeWithPassword(u);
  }

  /** An object lookup that finds a list is a miss: the answer is that of the store. */
  lemma ListUnderIdKeyIsMiss(sh: seq<Table>, es: Entries, now: int, on: bool, id: int)
    requires Placed(sh)
    requires ToString(id) in es && es[ToString(id)].value.Arr?
    ensures FoundUser(sh, es, now, on, id) ==
            if id in Logical(sh) then Logical(sh)[id] else User(-1, "", "", "", "", false)
  {
    RowRefines(sh, id);
  }

  /** A list lookup that finds an object is a miss and leaves no rows behind. */
  lemma ObjectUnderSearchKeyIsMiss(es: Entries, now: int, on: bool, key: string)
    requires key in es && es[key].value.Obj?
    ensures !ListHit(es, now, on, key) && CachedRows(es, now, on, key) == []
  {
  }

  class Cache {
    var entries: Entries
    var now: int
    const enabled: bool

    constructor (enabled: bool, now: int)
      ensures this.enabled == enabled && this.now == now && entries == map[]
    {
      this.enabled := enabled;
      this.now := now;
      entries := map[];
    }

    method Put(key: string, value: Json)
      modifies this`entries
      ensures entries == PutEntry(old(entries), now, enabled, key, value)
      ensures entries == if enabled then old(entries)[key := Entry(value, now)] else old(entries)
    {
      if enabled {
        entries := entries[key := Entry(value, now)];
      }
    }

    /** The output parameter keeps its value when the key is not found. */
    method Get(key: string, value0: Json) returns (found: bool, value: Json)
      ensures found <==> Lookup(entries, now, enabled, key).Some?
      ensures found <==> enabled && key in entries && now - entries[key].putAt <= 60
      ensures value == if found then Lookup(entries, now, enabled, key).value else value0
    {
      value := value0;
      if enabled {
        if key !in entries || !Live(entries[key], now) {
          return false, value;
        }
        value := entries[key].value;
        return true, value;
      }
      return false, value;
    }
  }
}
