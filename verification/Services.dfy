/** The requests of the authorisation and user services. */
module Services {
  import opened Wrappers
  import opened Users
  import opened Decimal
  import opened Sharding
  import opened CacheModel
  import opened DatabaseModel
  import opened Repository
  import opened Validation
  import opened Tokens
  import opened Edits
  import opened Queue
  import opened Objects
  import System

  type Params = seq<(string, string)>

  /** Some attempt of the call gets through. */
  ghost predicate Accepted(rejects: nat -> bool) {
    exists a :: 0 <= a < 10 && !rejects(a)
  }

  /** The log gained one message with this key and user, or nothing. */
  ghost predicate Appended(before: seq<Message>, after: seq<Message>, key: int, u: User, sent: bool) {
    after ==
    if sent then
      before + [Message(ToString(key), if u.id > 0 then "update_event" else "create_event", Obj(ToJson(u)))]
    else before
  }

  lemma AppendedView(before: seq<Message>, after: seq<Message>, key: int, u: User, sent: bool)
    requires Appended(before, after, key, u, sent)
    ensures Payloads(after) == if sent then Payloads(before) + [Obj(ToJson(u))] else Payloads(before)
  {
    if sent {
      PayloadsOneMore(before, after[|before|]);
    }
  }

  lemma SchemaWithoutId(o: Object)
    requires Id !in o
    ensures System.SchemaBody(Obj(o))
    ensures FromObject(o).Some? ==> FromObject(o).value.id == 0
  {
    FieldsDecoded(o);
  }

  lemma SignUpDoes(c: System.Config, s: System.State, s': System.State, body: Json, sent: bool)
    requires System.HasShards(s) && s' == System.SignUpSent(s, body, sent)
    ensures System.OpenDoes(c, s, System.SignUp(body, sent), s')
    ensures body.Obj? && Id !in body.fields ==>
              && System.Does(c, s, System.SignUp(body, sent), s')
              && (FromJson(body).Some? ==> FromJson(body).value.id == 0)
  {
    if body.Obj? && Id !in body.fields {
      SchemaWithoutId(body.fields);
    }
  }

  /** What a sign-up answers to a body it refuses. */
  function SignUpError(body: Option<Json>): Error {
    if body.None? then Validation("Body is missing")
    else if FromJson(body.value).None? then BadJson
    else Validation(Complaint(FromJson(body.value).value))
  }

  /** Decode, validate, send. */
  method SendSignUp(producer: Producer, body: Json, rejects: nat -> bool) returns (r: Result<int>)
    requires producer.Valid()
    modifies producer, producer.topic`messages
    ensures producer.Valid()
    ensures r.Ok? <==> FromJson(body).Some? && WellFormed(FromJson(body).value) && |FromJson(body).value.password| >= 3
    ensures r.Ok? ==>
              && r.value == 0
              && Appended(old(producer.topic.messages), producer.topic.messages, producer.messageKey,
                          FromJson(body).value, Accepted(rejects))
    ensures r.Err? ==> r.error == SignUpError(Some(body)) && producer.topic.messages == old(producer.topic.messages)
  {
    match FromJson(body)
    case None =>
      return Err(BadJson);
    case Some(user) =>
      var valid, message := ValidateUser(user, "");
      if valid {
        var _ := producer.SendToQueue(user, rejects);
        return Ok(0);
      } else {
        return Err(Validation(message));
      }
  }

  /** The sign-up step of the system, for a body of any shape; None is an empty body. A body without an id is one of the
      interface: it makes a create event. */
  method CreateUser(producer: Producer, body: Option<Json>, rejects: nat -> bool,
                    ghost db: Database, ghost cache: Cache, ghost rest: Rest)
    returns (r: Result<int>)
    requires producer.Valid() && db.Valid() && rest.topic == producer.topic
    modifies producer, producer.topic`messages
    ensures producer.Valid()
    ensures body.Some? ==>
              System.OpenDoes(rest.config, old(View(db, cache, rest)), System.SignUp(body.value, Accepted(rejects)),
                              View(db, cache, rest))
    ensures r.Ok? <==> body.Some? && FromJson(body.value).Some? &&
                       WellFormed(FromJson(body.value).value) && |FromJson(body.value).value.password| >= 3
    ensures r.Ok? ==>
              && r.value == 0
              && Appended(old(producer.topic.messages), producer.topic.messages, producer.messageKey,
                          FromJson(body.value).value, Accepted(rejects))
    ensures r.Err? ==> r.error == SignUpError(body) && producer.topic.messages == old(producer.topic.messages)
    ensures body.Some? && body.value.Arr? ==> r == Err(BadJson)
    ensures r.Ok? && Accepted(rejects) && body.value.Obj? && Id !in body.value.fields ==>
              && System.Does(rest.config, old(View(db, cache, rest)), System.SignUp(body.value, true),
                             View(db, cache, rest))
              && producer.topic.messages ==
                 old(producer.topic.messages) +
                 [Message(ToString(producer.messageKey), "create_event", Obj(ToJson(FromJson(body.value).value)))]
  {
    if body.None? {
      return Err(Validation("Body is missing"));
    }
    r := SendSignUp(producer, body.value, rejects);
    ghost var sent := Accepted(rejects);
    if r.Ok? {
      AppendedView(old(producer.topic.messages), producer.topic.messages, producer.messageKey,
                   FromJson(body.value).value, sent);
    }
    SignUpDoes(rest.config, old(View(db, cache, rest)), View(db, cache, rest), body.value, sent);
  }

  /** The field checks of edit_user: they share one message, so the last failure is the one reported. */
  method ChangeFields(found: User, requester: int, admin: bool, obj: Object) returns (r: Result<User>)
    requires found.id > 0 && (found.id == requester || admin)
    ensures r == EditOutcome(found, requester, admin, obj)
  {
    var user, message := found, "";
    var passed;
    if Name in obj {
      if !obj[Name].Str? {
        return Err(BadJson);
      }
      passed, message := CheckName(obj[Name].s, message);
      user := user.(name := obj[Name].s);
    }
    if Email in obj {
      if !obj[Email].Str? {
        return Err(BadJson);
      }
      passed, message := CheckEmail(obj[Email].s, message);
      user := user.(email := obj[Email].s);
    }
    if |message| > 0 {
      return Err(Validation(message));
    }
    return Ok(user);
  }

  /** What an edit answers to a body that does not name a user. */
  function EditedIdError(body: Json): Error {
    if body.Obj? && Id !in body.fields then Validation("Can't edit without user id!") else BadJson
  }

  /** The id an edit request names. */
  method EditedId(body: Json) returns (r: Result<int>)
    ensures r.Ok? <==> body.Obj? && Id in body.fields && body.fields[Id].Num?
    ensures r.Ok? ==> r.value == body.fields[Id].n
    ensures r.Err? ==> r.error == EditedIdError(body)
  {
    if body.Arr? {
      return Err(BadJson);
    }
    var obj := body.fields;
    if Id !in obj {
      return Err(Validation("Can't edit without user id!"));
    }
    if !obj[Id].Num? {
      return Err(BadJson);
    }
    return Ok(obj[Id].n);
  }

  /** The user found, the requester's rights and the body decide what is sent. */
  method DecideEdit(db: Database, user: User, userId: int, obj: Object) returns (r: Result<User>)
    requires db.Valid()
    ensures r == EditOutcome(user, userId, (userId, "admin") in RolePairs(db.roles), obj)
  {
    if user.id <= 0 {
      return Err(NotFound);
    }
    var admin := db.HaveRole(userId, "admin");
    if user.id != userId && !admin {
      return Err(NotFound);
    }
    r := ChangeFields(user, userId, admin, obj);
  }

  lemma EditDoes(c: System.Config, s: System.State, s': System.State, userId: int, obj: Object, sent: bool,
                 outcome: Result<User>)
    requires System.HasShards(s) && Id in obj && obj[Id].Num?
    requires
      var found := System.Found(s, c.userCache, obj[Id].n);
      outcome == EditOutcome(found, userId, HasRole(s.roles, userId, "admin"), obj)
    requires
      var looked := System.Read(s, c.userCache, obj[Id].n);
      s' == if outcome.Ok? && sent then looked.(log := looked.log + [Obj(ToJson(outcome.value))]) else looked
    ensures System.Does(c, s, System.Edit(userId, obj, sent), s')
  {
  }

  /** The event with what the edit asks for, and the rest as it was found. */
  ghost predicate EditSent(before: seq<Message>, after: seq<Message>, key: int, found: User, fields: Object, sent: bool)
  {
    && TextOrAbsent(fields, Name) && TextOrAbsent(fields, Email)
    && var name := if Name in fields then fields[Name].s else found.name;
       var email := if Email in fields then fields[Email].s else found.email;
       Appended(before, after, key, found.(name := name, email := email), sent)
  }

  /** Decide and send. */
  method SendEdit(db: Database, producer: Producer, user: User, userId: int, fields: Object, rejects: nat -> bool)
    returns (r: Result<User>)
    requires db.Valid() && producer.Valid()
    modifies producer, producer.topic`messages
    ensures producer.Valid()
    ensures r == EditOutcome(user, userId, (userId, "admin") in RolePairs(db.roles), fields)
    ensures r.Ok? ==>
              && EditSent(old(producer.topic.messages), producer.topic.messages, producer.messageKey, user, fields,
                          Accepted(rejects))
              && Payloads(producer.topic.messages) ==
                 Payloads(old(producer.topic.messages)) + if Accepted(rejects) then [Obj(ToJson(r.value))] else []
    ensures r.Err? ==> producer.topic.messages == old(producer.topic.messages)
  {
    r := DecideEdit(db, user, userId, fields);
    if r.Ok? {
      EditKeeps(user, userId, (userId, "admin") in RolePairs(db.roles), fields);
      var _ := producer.SendToQueue(r.value, rejects);
      AppendedView(old(producer.topic.messages), producer.topic.messages, producer.messageKey, r.value,
                   Accepted(rejects));
    }
  }

  /** The edit step of the system; the answer is that of the user found, the rights and the body. */
  method EditUser(db: Database, cache: Cache, producer: Producer, userId: int, body: Json, rejects: nat -> bool,
                  ghost rest: Rest)
    returns (r: Result<()>)
    requires db.Valid() && producer.Valid() && rest.topic == producer.topic
    requires cache.enabled == rest.config.userCache
    modifies cache`entries, producer, producer.topic`messages
    ensures producer.Valid()
    ensures body.Arr? ==> r == Err(BadJson) && View(db, cache, rest) == old(View(db, cache, rest))
    ensures body.Obj? ==>
              System.Does(rest.config, old(View(db, cache, rest)),
                          System.Edit(userId, body.fields, Accepted(rejects)), View(db, cache, rest))
    ensures body.Obj? ==>
              if Id in body.fields && body.fields[Id].Num? then
                var found := System.Found(old(View(db, cache, rest)), cache.enabled, body.fields[Id].n);
                var outcome := EditOutcome(found, userId, (userId, "admin") in RolePairs(db.roles), body.fields);
                && (r.Ok? <==> outcome.Ok?) && (outcome.Err? ==> r.error == outcome.error)
                && (r.Ok? ==>
                      EditSent(old(producer.topic.messages), producer.topic.messages, producer.messageKey, found,
                               body.fields, Accepted(rejects)))
              else r == Err(EditedIdError(body))
    ensures r.Err? ==> producer.topic.messages == old(producer.topic.messages)
  {
    var id := EditedId(body);
    if id.Err? {
      return Err(id.error);
    }
    var user := GetById(db, cache, id.value);
    ghost var before, sent := old(View(db, cache, rest)), Accepted(rejects);
    RolesRefine(db.roles, userId, "admin");
    var edited := SendEdit(db, producer, user, userId, body.fields, rejects);
    EditDoes(rest.config, before, View(db, cache, rest), userId, body.fields, sent, edited);
    return if edited.Err? then Err(edited.error) else Ok(());
  }

  /** A parameter with this key, and with a value if it must be filled. */
  predicate Named(p: (string, string), key: string, filled: bool) {
    p.0 == key && (filled ==> p.1 != "")
  }

  /** The last such parameter; -1 without one. */
  function LastNamed(params: Params, key: string, filled: bool): (k: int)
    ensures -1 <= k < |params|
    ensures k >= 0 ==> Named(params[k], key, filled)
    ensures forall j :: k < j < |params| ==> !Named(params[j], key, filled)
  {
    var last := |params| - 1;
    if last < 0 || Named(params[last], key, filled) then last else LastNamed(params[..last], key, filled)
  }

  lemma OneMoreParam(params: Params, i: nat, key: string, filled: bool)
    requires i < |params|
    ensures LastNamed(params[..i + 1], key, filled) ==
            if Named(params[i], key, filled) then i else LastNamed(params[..i], key, filled)
  {
    assert params[..i + 1][..i] == params[..i];
  }

  /** The last non-empty value of the id parameter decides. */
  function LastId(params: Params): int {
    var k := LastNamed(params, "id", true);
    if k < 0 then -1 else Atoi(params[k].1)
  }

  lemma OneMoreId(params: Params, i: nat)
    requires i < |params|
    ensures LastId(params[..i + 1]) == if Named(params[i], "id", true) then Atoi(params[i].1) else LastId(params[..i])
  {
    OneMoreParam(params, i, "id", true);
  }

  /** The parameters ask for this id: its text is the last non-empty value given. */
  ghost predicate AsksFor(params: Params, id: int) {
    var k := LastNamed(params, "id", true);
    k >= 0 && params[k].1 == ToString(id)
  }

  /** In particular the one parameter of the interface does. */
  lemma OneIdAsks(id: int)
    ensures AsksFor([("id", ToString(id))], id)
  {
    assert ToString(id) != "";
  }

  lemma AskedFor(params: Params)
    ensures forall id :: AsksFor(params, id) ==> LastId(params) == id
  {
    forall id | AsksFor(params, id)
      ensures LastId(params) == id
    {
      AtoiOfText(id);
    }
  }

  predicate BlankId(params: Params) {
    exists i :: 0 <= i < |params| && params[i] == ("id", "")
  }

  /** The id a get request names. */
  method RequestedId(params: Params) returns (id: int)
    ensures id == LastId(params)
    ensures forall i :: AsksFor(params, i) ==> id == i
  {
    id := -1;
    for i := 0 to |params|
      invariant id == LastId(params[..i])
    {
      OneMoreId(params, i);
      if params[i].0 == "id" && params[i].1 != "" {
        id := Atoi(params[i].1);
      }
    }
    assert params[..|params|] == params;
    AskedFor(params);
  }

  method GetByIdRequest(db: Database, cache: Cache, params: Params, ghost rest: Rest) returns (r: Result<User>)
    requires db.Valid() && cache.enabled == rest.config.userCache
    modifies cache`entries
    ensures System.Does(rest.config, old(View(db, cache, rest)), System.Get(LastId(params)), View(db, cache, rest))
    ensures
      if LastId(params) < 1 then r == Err(Validation("Id param is missing!"))
      else r == Ok(System.Found(old(View(db, cache, rest)), cache.enabled, LastId(params)))
    ensures forall id :: AsksFor(params, id) && id >= 1 ==>
                           r == Ok(System.Found(old(View(db, cache, rest)), cache.enabled, id))
  {
    var id := RequestedId(params);
    if id < 1 {
      return Err(Validation("Id param is missing!"));
    }
    var user := GetById(db, cache, id);
    return Ok(user);
  }

  function DeletedIdError(params: Params): Error {
    Validation(if BlankId(params) then "Id can't be blank" else "Not valid user id")
  }

  /** The id a delete request names: no value may be blank, and the last one counts. */
  method DeletedId(params: Params) returns (r: Result<int>)
    ensures r.Ok? <==> !BlankId(params) && LastId(params) >= 0
    ensures r.Ok? ==> r.value == LastId(params)
    ensures r.Err? ==> r.error == DeletedIdError(params)
    ensures forall id :: AsksFor(params, id) && r.Ok? ==> r.value == id
  {
    AskedFor(params);
    var deleteUserId := -1;
    for i := 0 to |params|
      invariant deleteUserId == LastId(params[..i])
      invariant forall j :: 0 <= j < i ==> params[j] != ("id", "")
    {
      OneMoreId(params, i);
      if params[i].0 == "id" {
        if |params[i].1| == 0 {
          assert params[i] == ("id", "");
          return Err(Validation("Id can't be blank"));
        }
        deleteUserId := Atoi(params[i].1);
      }
    }
    assert params[..|params|] == params;
    if deleteUserId < 0 {
      return Err(Validation("Not valid user id"));
    }
    return Ok(deleteUserId);
  }

  /** The user found and the requester's rights decide; a deletion writes the user whole, with the flag set. */
  method DeleteFound(db: Database, user: User, userId: int) returns (r: Result<()>)
    requires db.Valid() && db.nextId > 0
    modifies db`shards, db`nextId
    ensures db.Valid() && db.nextId == old(db.nextId)
    ensures
      if user.id <= 0 then r == Err(NotFound) && db.shards == old(db.shards)
      else if userId != user.id && (userId, "admin") !in RolePairs(db.roles) then
        r == Err(AccessDenied) && db.shards == old(db.shards)
      else
        && UpdateRow(old(db.shards), user.(deleted := true)) == (if r.Ok? then Some(db.shards) else None)
        && (r.Err? ==> r.error == Duplicate && db.shards == old(db.shards))
  {
    if user.id <= 0 {
      return Err(NotFound);
    }
    var admin := db.HaveRole(userId, "admin");
    if userId == user.id || admin {
      var flagged := user.(deleted := true);
      var saved, _ := db.SaveToDb(flagged);
      return if saved.Err? then Err(saved.error) else Ok(());
    } else {
      return Err(AccessDenied);
    }
  }

  lemma UpdateRefinesIfRow(sh: seq<Table>, u: User)
    requires Placed(sh)
    ensures u.id > 0 ==>
              && (UpdateRow(sh, u).None? <==> u.id in Logical(sh) && ClashIn(Logical(sh), |sh|, u))
              && (UpdateRow(sh, u).Some? ==>
                    Logical(UpdateRow(sh, u).value) ==
                    if u.id in Logical(sh) then Logical(sh)[u.id := u] else Logical(sh))
  {
    if u.id > 0 {
      UpdateRefines(sh, u);
    }
  }

  lemma DeleteDoes(c: System.Config, s: System.State, s': System.State, userId: int, id: int)
    requires System.HasShards(s) && id >= 0
    requires s' == System.DeleteWith(System.Read(s, c.userCache, id), System.Found(s, c.userCache, id), userId)
    ensures System.Does(c, s, System.Delete(userId, id), s')
  {
  }

  /** The delete step of the system: the row of the user found is written, whole, with the flag set. */
  method DeleteUser(db: Database, cache: Cache, userId: int, params: Params, ghost rest: Rest) returns (r: Result<()>)
    requires db.Valid() && db.nextId > 0 && cache.enabled == rest.config.userCache
    modifies cache`entries, db`shards, db`nextId
    ensures db.Valid() && db.nextId == old(db.nextId)
    ensures BlankId(params) ==> r == Err(DeletedIdError(params)) && View(db, cache, rest) == old(View(db, cache, rest))
    ensures !BlankId(params) ==>
              System.Does(rest.config, old(View(db, cache, rest)), System.Delete(userId, LastId(params)),
                          View(db, cache, rest))
    ensures forall id :: AsksFor(params, id) && !BlankId(params) ==>
                           System.Does(rest.config, old(View(db, cache, rest)), System.Delete(userId, id),
                                       View(db, cache, rest))
    ensures !BlankId(params) && LastId(params) < 0 ==> r == Err(DeletedIdError(params))
    ensures !BlankId(params) && LastId(params) >= 0 ==>
              var t := old(Logical(db.shards));
              var found := System.Found(old(View(db, cache, rest)), cache.enabled, LastId(params));
              var u := found.(deleted := true);
              if found.id <= 0 then r == Err(NotFound)
              else if userId != found.id && (userId, "admin") !in RolePairs(db.roles) then r == Err(AccessDenied)
              else if u.id in t && ClashIn(t, db.maxShard + 1, u) then r == Err(Duplicate)
              else r.Ok? && Logical(db.shards) == if u.id in t then t[u.id := u] else t
  {
    AskedFor(params);
    var deleted := DeletedId(params);
    if deleted.Err? {
      return Err(deleted.error);
    }
    var deleteUserId := deleted.value;
    var user := GetById(db, cache, deleteUserId);
    ghost var before := old(View(db, cache, rest));
    RolesRefine(db.roles, userId, "admin");
    UpdateRefinesIfRow(db.shards, user.(deleted := true));
    r := DeleteFound(db, user, userId);
    DeleteDoes(rest.config, before, View(db, cache, rest), userId, deleteUserId);
  }

  /** The sign-in step of the system: a token is issued exactly for a positive answer, and names it. */
  method AuthUser(db: Database, cache: Cache, decoded: string, ghost rest: Rest) returns (r: Result<Token>)
    requires db.Valid() && cache.enabled == rest.config.authCache
    modifies cache`entries
    ensures r.Ok? ==> r.value.Signed? && r.value.id > 0 && r.value.login == SplitCredentials(decoded).0
    ensures r.Err? ==> r.error == AccessDenied
    ensures
      var (login, password) := SplitCredentials(decoded);
      System.Does(rest.config, old(View(db, cache, rest)),
                  System.SignIn(login, password, if r.Ok? then r.value.id else 0), View(db, cache, rest))
  {
    var (login, password) := SplitCredentials(decoded);
    var id := Auth(db, cache, login, password);
    if id <= 0 {
      return Err(AccessDenied);
    }
    return Ok(Signed(id, login));
  }

  /** The validation step of the system: only a signed token of a user found and not deleted passes. */
  method Validate(db: Database, cache: Cache, token: Token, ghost rest: Rest) returns (r: Result<User>)
    requires db.Valid() && cache.enabled == rest.config.authCache
    modifies cache`entries
    ensures System.Does(rest.config, old(View(db, cache, rest)), System.Validate(token), View(db, cache, rest))
    ensures r == System.Verdict(rest.config, old(View(db, cache, rest)), token)
  {
    var ok, id, _ := ExtractPayload(token, 0, "");
    if ok {
      var user := GetById(db, cache, id);
      if user.id <= 0 {
        return Err(AccessDenied);
      }
      if user.deleted {
        return Err(AccessDenied);
      }
      return Ok(user);
    } else {
      return Err(AccessDenied);
    }
  }

  /** The last value given for each searched field; other parameters are ignored. */
  function LastText(params: Params, key: string): string {
    var k := LastNamed(params, key, false);
    if k < 0 then "" else params[k].1
  }

  lemma OneMoreText(params: Params, i: nat, key: string)
    requires i < |params|
    ensures LastText(params[..i + 1], key) == if params[i].0 == key then params[i].1 else LastText(params[..i], key)
  {
    OneMoreParam(params, i, key, false);
  }

  method ParseSearch(params: Params) returns (like: Query)
    ensures like == Query(LastText(params, "login"), LastText(params, "email"), LastText(params, "name"))
  {
    like := Query("", "", "");
    for i := 0 to |params|
      invariant like.login == LastText(params[..i], "login")
      invariant like.email == LastText(params[..i], "email")
      invariant like.name == LastText(params[..i], "name")
    {
      OneMoreText(params, i, "login");
      OneMoreText(params, i, "email");
      OneMoreText(params, i, "name");
      var key, value := params[i].0, params[i].1;
      if key == "login" {
        like := like.(login := value);
      } else if key == "name" {
        like := like.(name := value);
      } else if key == "email" {
        like := like.(email := value);
      }
    }
    assert params[..|params|] == params;
  }

  /** The search step left this cache and answered these rows. */
  ghost predicate Searched(c: System.Config, s: System.State, s': System.State, like: Query, result: seq<User>) {
    var hit := ListHit(s.cache, s.clock, c.userCache, SearchKey(like));
    var left := CachedRows(s.cache, s.clock, c.userCache, SearchKey(like));
    exists rows :: System.Does(c, s, System.Search(like, rows), s') && result == if hit then left else left + rows
  }

  lemma HitSearched(c: System.Config, s: System.State, like: Query)
    requires System.HasShards(s) && ListHit(s.cache, s.clock, c.userCache, SearchKey(like))
    ensures Searched(c, s, s, like, CachedRows(s.cache, s.clock, c.userCache, SearchKey(like)))
  {
    assert System.Does(c, s, System.Search(like, []), s);
  }

  lemma MissSearched(c: System.Config, s: System.State, s': System.State, like: Query, result: seq<User>)
    requires System.HasShards(s) && !ListHit(s.cache, s.clock, c.userCache, SearchKey(like))
    requires
      var left := CachedRows(s.cache, s.clock, c.userCache, SearchKey(like));
      ListedAfter(left, result, System.T(s), SqlOf(like))
    requires s' == s.(cache := PutList(s.cache, s.clock, c.userCache, RewriteQuery(like), result))
    ensures Searched(c, s, s', like, result)
  {
    var left := CachedRows(s.cache, s.clock, c.userCache, SearchKey(like));
    var rows :| result == left + rows && IsListing(rows, System.T(s), SqlOf(like));
    assert System.Does(c, s, System.Search(like, rows), s');
  }

  /** The search step of the system, for some order of the rows. */
  method SearchRequest(db: Database, cache: Cache, params: Params, ghost rest: Rest) returns (result: seq<User>)
    requires db.Valid() && cache.enabled == rest.config.userCache
    modifies cache`entries
    ensures
      var like := Query(LastText(params, "login"), LastText(params, "email"), LastText(params, "name"));
      Searched(rest.config, old(View(db, cache, rest)), View(db, cache, rest), like, result)
  {
    ghost var s := View(db, cache, rest);
    var like := ParseSearch(params);
    result := Search(db, cache, like);
    if ListHit(s.cache, s.clock, cache.enabled, SearchKey(like)) {
      HitSearched(rest.config, s, like);
    } else {
      MissSearched(rest.config, s, View(db, cache, rest), like, result);
    }
  }

  /** What the set-up step makes of the logical table. */
  lemma SetUpRows(s: System.State, n: nat)
    requires System.HasShards(s) && Placed(s.shards) && n == |s.shards| && s.nextId > 0
    ensures
      var s' := System.SetUpAdmin(s);
      var admin := User(s.nextId, "autotest_admin", "Autotest admin", "email@cool.com", "123", false);
      var t := System.T(s);
      if ExistsIn(t, admin.login, admin.email) || admin.id in t || ClashIn(t, n, admin) then s'.shards == s.shards
      else s'.shards != s.shards && |s'.shards| == n && Logical(s'.shards) == t[admin.id := admin]
  {
    InsertRefines(s.shards, ADMIN.(id := s.nextId));
  }

  /** What the request leaves behind: the set-up step, and the grant when it made the administrator. */
  ghost predicate SetUpDone(c: System.Config, s: System.State, s': System.State) {
    System.Enabled(c, s, System.SetUp) &&
    var made := System.Next(c, s, System.SetUp);
    if made.shards == s.shards then s' == made else System.Does(c, made, System.Grant(s.nextId, "admin"), s')
  }

  lemma SetUpStep(c: System.Config, s: System.State)
    requires System.HasShards(s) && !s.consumer.Absent? && !s.consumer.Numbered?
    ensures System.Does(c, s, System.SetUp, System.SetUpAdmin(s)) && System.HasShards(System.SetUpAdmin(s))
  {
  }

  lemma GrantStep(c: System.Config, s: System.State, id: int)
    requires System.HasShards(s)
    ensures System.Does(c, s, System.Grant(id, "admin"), s.(roles := WithRole(s.roles, id, "admin")))
  {
  }

  lemma SetUpDoes(c: System.Config, s: System.State, s': System.State)
    requires System.HasShards(s) && !s.consumer.Absent? && !s.consumer.Numbered?
    requires
      var made := System.SetUpAdmin(s);
      s' == if made.shards == s.shards then made else made.(roles := WithRole(made.roles, s.nextId, "admin"))
    ensures SetUpDone(c, s, s')
  {
    SetUpStep(c, s);
    GrantStep(c, System.SetUpAdmin(s), s.nextId);
  }

  /** The set-up step of the system, followed by the grant when it made the administrator. */
  method CreateTestUsers(db: Database, ghost cache: Cache, ghost rest: Rest)
    requires db.Valid() && db.nextId > 0 && !rest.consumer.Absent? && !rest.consumer.Numbered?
    modifies db`shards, db`nextId, db`roles
    ensures db.Valid()
    ensures SetUpDone(rest.config, old(View(db, cache, rest)), View(db, cache, rest))
    ensures
      var admin := User(old(db.nextId), "autotest_admin", "Autotest admin", "email@cool.com", "123", false);
      var t := old(Logical(db.shards));
      if ExistsIn(t, admin.login, admin.email) || admin.id in t || ClashIn(t, db.maxShard + 1, admin) then
        db.shards == old(db.shards) && db.roles == old(db.roles)
      else
        && Logical(db.shards) == t[admin.id := admin]
        && RolePairs(db.roles) == old(RolePairs(db.roles)) + {(admin.id, "admin")}
  {
    SetUpRows(View(db, cache, rest), db.maxShard + 1);
    var r, saved := db.InsertEntity(ADMIN);
    if r == Ok(true) {
      db.AddRole(saved.id, "admin");
    }
    SetUpDoes(rest.config, old(View(db, cache, rest)), View(db, cache, rest));
  }
}
