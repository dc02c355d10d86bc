/** The user entity and its JSON forms. */

module Wrappers {

  datatype Option<+T> = None | Some(value: T) {
    predicate IsFailure() {
      None?
    }

    function PropagateFailure<U>(): Option<U>
      requires None?
    {
      None
    }

    function Extract(): T
      requires Some?
    {
      value
    }
  }

  /** The exceptions a request can end with. */
  datatype Error =
    | Validation(message: string)
    | NotFound
    | AccessDenied
    | BadJson
    | Duplicate

  datatype Result<+T> = Ok(value: T) | Err(error: Error)
}

module Users {
  import opened Wrappers

  datatype User = User(id: int, login: string, name: string, email: string, password: string, deleted: bool)

  /** What a failed lookup returns. */
  const EMPTY := User(-1, "", "", "", "", false)

  /** The user the sign-in service makes at start-up. */
  const ADMIN := User(0, "autotest_admin", "Autotest admin", "email@cool.com", "123", false)

  /** The fields the code reads from JSON objects; it ignores all others. */
  datatype Field = Id | Login | Name | Email | Password | Deleted

  datatype Scalar = Num(n: int) | Str(s: string) | Bool(b: bool)

  type Object = map<Field, Scalar>

  /** Parsed JSON text: an object, or an array of objects. */
  datatype Json = Obj(fields: Object) | Arr(items: seq<Object>)

  function ToJson(u: User): Object {
    map[Id := Num(u.id), Name := Str(u.name), Email := Str(u.email), Login := Str(u.login), Deleted := Bool(u.deleted)]
  }

  function ToJsonWithPassword(u: User): Object {
    ToJson(u)[Password := Str(u.password)]
  }

  function NumOr(o: Object, f: Field, default: int): Option<int> {
    if f !in o then Some(default) else if o[f].Num? then Some(o[f].n) else None
  }

  function StrOr(o: Object, f: Field, default: string): Option<string> {
    if f !in o then Some(default) else if o[f].Str? then Some(o[f].s) else None
  }

  function BoolOr(o: Object, f: Field, default: bool): Option<bool> {
    if f !in o then Some(default) else if o[f].Bool? then Some(o[f].b) else None
  }

  /** None stands for the conversion exception on a field of another kind. */
  function FromObject(o: Object): Option<User> {
    var id :- NumOr(o, Id, 0);
    var name :- StrOr(o, Name, "");
    var email :- StrOr(o, Email, "");
    var login :- StrOr(o, Login, "");
    var password :- StrOr(o, Password, "");
    var deleted :- BoolOr(o, Deleted, false);
    Some(User(id, login, name, email, password, deleted))
  }

  /** None also stands for the bad cast when the text is an array. */
  function FromJson(j: Json): Option<User> {
    match j
    case Obj(o) => FromObject(o)
    case Arr(_) => None
  }

  /** The row as a search selects it: the password column is not read. */
  function Public(u: User): User {
    u.(password := "")
  }

  function Encoded(us: seq<User>): seq<Object> {
    seq(|us|, i requires 0 <= i < |us| => ToJson(us[i]))
  }

  /** The users decoded from entry i on, before the first entry that does not decode. */
  function DecodedFrom(items: seq<Object>, i: nat): (us: seq<User>)
    requires i <= |items|
    ensures |us| <= |items| - i
    ensures forall k :: 0 <= k < |us| ==> FromObject(items[i + k]) == Some(us[k])
    ensures |us| < |items| - i ==> FromObject(items[i + |us|]) == None
    decreases |items| - i
  {
    if i == |items| || FromObject(items[i]) == None then []
    else [FromObject(items[i]).value] + DecodedFrom(items, i + 1)
  }

  function DecodedPrefix(items: seq<Object>): seq<User> {
    DecodedFrom(items, 0)
  }

  predicate TextOrAbsent(o: Object, f: Field) {
    f in o ==> o[f].Str?
  }

  /** Every field is read by itself: the value there, or the default when it is absent. */
  lemma FieldsDecoded(o: Object)
    ensures FromObject(o).Some? <==>
            && (Id in o ==> o[Id].Num?) && (Deleted in o ==> o[Deleted].Bool?)
            && TextOrAbsent(o, Login) && TextOrAbsent(o, Name) && TextOrAbsent(o, Email) && TextOrAbsent(o, Password)
    ensures FromObject(o).Some? ==>
              var u := FromObject(o).value;
              && (if Id in o then o[Id] == Num(u.id) else u.id == 0)
              && (if Login in o then o[Login] == Str(u.login) else u.login == "")
              && (if Name in o then o[Name] == Str(u.name) else u.name == "")
              && (if Email in o then o[Email] == Str(u.email) else u.email == "")
              && (if Password in o then o[Password] == Str(u.password) else u.password == "")
              && (if Deleted in o then o[Deleted] == Bool(u.deleted) else !u.deleted)
  {
  }

  /** Only objects decode: an array is a bad cast. */
  lemma OnlyObjectsDecode(j: Json)
    ensures FromJson(j) == if j.Obj? then FromObject(j.fields) else None
  {
  }

  lemma DecodeWithPassword(u: User)
    ensures FromObject(ToJsonWithPassword(u)) == Some(u)
  {
  }

  /** The plain form drops the password and nothing else. */
  lemma DecodePlain(u: User)
    ensures FromObject(ToJson(u)) == Some(u.(password := "")) && Password !in ToJson(u)
  {
  }

  /** A saved list decodes to the list that was saved, exactly when no password was in it. */
  lemma {:induction false} DecodeEncodedList(us: seq<User>)
    ensures |DecodedPrefix(Encoded(us))| == |us|
    ensures forall i :: 0 <= i < |us| ==> DecodedPrefix(Encoded(us))[i] == Public(us[i])
    ensures DecodedPrefix(Encoded(us)) == us <==> (forall i :: 0 <= i < |us| ==> us[i].password == "")
  {
    var ds := DecodedPrefix(Encoded(us));
    if |ds| < |us| {
      DecodePlain(us[|ds|]);
      assert false;
    }
    forall i | 0 <= i < |us|
      ensures ds[i] == Public(us[i])
    {
      DecodePlain(us[i]);
    }
    if forall i :: 0 <= i < |us| ==> us[i].password == "" {
      assert ds == us;
    }
  }
}
