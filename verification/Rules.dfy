/** The rules the services apply: validation, credentials, tokens, edits. */

module Validation {
  import opened Users

  const NAME_REASON := "Name must be at least 3 signs;"
  const AT_REASON := "Email must contain @;"
  const SPACE_REASON := "EMail can't contain spaces;"
  const LOGIN_REASON := "login must be at least 3 signs;"
  const PASSWORD_REASON := "password must be at least 3 signs;"

  predicate ValidName(name: string) {
    |name| >= 3
  }

  predicate ValidEmail(email: string) {
    '@' in email && ' ' !in email && '\t' !in email
  }

  /** What every stored, cached or queued user satisfies. */
  predicate WellFormed(u: User) {
    ValidName(u.name) && ValidEmail(u.email) && |u.login| >= 3
  }

  function EmailComplaint(email: string): string {
    if ' ' in email || '\t' in email then "EMail can't contain spaces;"
    else if '@' !in email then "Email must contain @;"
    else ""
  }

  function ShortComplaint(text: string, complaint: string): string {
    if |text| < 3 then complaint else ""
  }

  /** What is wrong with a user, in the order of the checks. */
  function Complaint(u: User): string {
    EmailComplaint(u.email) +
    ShortComplaint(u.name, "Name must be at least 3 signs;") +
    ShortComplaint(u.login, "login must be at least 3 signs;") +
    ShortComplaint(u.password, "password must be at least 3 signs;")
  }

  lemma AddedTo(message0: string, complaints: string, more: string)
    ensures message0 + complaints + more == message0 + (complaints + more)
    ensures message0 + "" == message0 && complaints + "" == complaints
  {
  }

  /** Nothing is wrong exactly with a well-formed user and a password of at least three characters. */
  lemma NoComplaint(u: User)
    ensures Complaint(u) == "" <==> WellFormed(u) && |u.password| >= 3
  {
  }

  method CheckName(name: string, reason0: string) returns (ok: bool, reason: string)
    ensures ok <==> ValidName(name)
    ensures reason == if ok then reason0 else "Name must be at least 3 signs;"
  {
    reason := reason0;
    if |name| < 3 {
      reason := NAME_REASON;
      return false, reason;
    }
    return true, reason;
  }

  /** A later failure overwrites the reason of an earlier one. */
  method CheckEmail(email: string, reason0: string) returns (ok: bool, reason: string)
    ensures ok <==> ValidEmail(email)
    ensures ok ==> reason == reason0
    ensures !ok ==> reason == EmailComplaint(email)
  {
    ok, reason := true, reason0;
    if '@' !in email {
      reason, ok := AT_REASON, false;
    }
    if ' ' in email {
      reason, ok := SPACE_REASON, false;
    }
    if '\t' in email {
      reason, ok := SPACE_REASON, false;
    }
  }

  /** The message stays as it was exactly when every check passes. */
  method ValidateUser(u: User, message0: string) returns (ok: bool, message: string)
    ensures ok <==> WellFormed(u) && |u.password| >= 3
    ensures message == message0 <==> ok
    ensures message == message0 + Complaint(u)
  {
    NoComplaint(u);
    ok, message := true, message0;
    var reason := "";
    var passed;
    passed, reason := CheckEmail(u.email, reason);
    if !passed {
      message, ok := message + reason, false;
    }
    ghost var complaints := EmailComplaint(u.email);
    AddedTo(message0, complaints, ShortComplaint(u.name, "Name must be at least 3 signs;"));
    passed, reason := CheckName(u.name, reason);
    if !passed {
      message, ok := message + reason, false;
    }
    complaints := complaints + ShortComplaint(u.name, "Name must be at least 3 signs;");
    AddedTo(message0, complaints, ShortComplaint(u.login, "login must be at least 3 signs;"));
    if |u.login| < 3 {
      message, ok := message + LOGIN_REASON, false;
    }
    complaints := complaints + ShortComplaint(u.login, "login must be at least 3 signs;");
    AddedTo(message0, complaints, ShortComplaint(u.password, "password must be at least 3 signs;"));
    if |u.password| < 3 {
      message, ok := message + PASSWORD_REASON, false;
    }
  }
}

module Tokens {

  /** A signed token verifies to what was signed; nothing else verifies. */
  datatype Token = Missing | Signed(id: int, login: string) | Unverifiable

  function FirstColon(s: string): (pos: nat)
    ensures pos <= |s|
    ensures forall i :: 0 <= i < pos ==> s[i] != ':'
    ensures pos < |s| ==> s[pos] == ':'
  {
    if s == "" || s[0] == ':' then 0 else 1 + FirstColon(s[1..])
  }

  /** Without a colon the search answers the largest position, whose successor is zero: both parts are the whole
      text. */
  function SplitCredentials(decoded: string): (parts: (string, string))
    ensures ':' in decoded ==> decoded == parts.0 + ":" + parts.1 && ':' !in parts.0
    ensures ':' !in decoded ==> parts.0 == decoded && parts.1 == decoded
  {
    var pos := FirstColon(decoded);
    if pos < |decoded| then (decoded[..pos], decoded[pos + 1..]) else (decoded, decoded)
  }

  /** Splitting recovers login and password exactly when the login has no colon. */
  lemma SplitRecovers(login: string, password: string)
    ensures SplitCredentials(login + ":" + password) == (login, password) <==> ':' !in login
  {
    var s := login + ":" + password;
    var pos := FirstColon(s);
    assert s[|login|] == ':';
    assert pos <= |login|;
    assert s[..|login|] == login && s[|login| + 1..] == password;
    if ':' in login {
      var i :| 0 <= i < |login| && login[i] == ':';
      assert s[i] == ':';
      assert |SplitCredentials(s).0| < |login|;
    }
  }

  method ExtractPayload(token: Token, id0: int, login0: string) returns (ok: bool, id: int, login: string)
    ensures ok <==> token.Signed?
    ensures if ok then id == token.id && login == token.login else id == id0 && login == login0
  {
    id, login := id0, login0;
    match token
    case Signed(i, l) =>
      return true, i, l;
    case _ =>
      return false, id, login;
  }
}

module Edits {
  import opened Wrappers
  import opened Users
  import opened Validation

  /** The user edit_user would send, for the user found, the rights of the requester and the request body. */
  function EditOutcome(found: User, requester: int, admin: bool, body: Object): Result<User> {
    if found.id <= 0 then Err(NotFound)
    else if found.id != requester && !admin then Err(NotFound)
    else if (Name in body && !body[Name].Str?) || (Email in body && !body[Email].Str?) then Err(BadJson)
    else
      var named := if Name in body then found.(name := body[Name].s) else found;
      var edited := if Email in body then named.(email := body[Email].s) else named;
      if Email in body && !ValidEmail(edited.email) then
        Err(Validation(if ' ' in edited.email || '\t' in edited.email then SPACE_REASON else AT_REASON))
      else if Name in body && !ValidName(edited.name) then Err(Validation(NAME_REASON))
      else Ok(edited)
  }

  /** An edit is accepted exactly when the user is found, its owner or an admin asks, and the name and email given are
      texts and valid ones. */
  lemma EditAcceptedExactly(found: User, requester: int, admin: bool, body: Object)
    ensures EditOutcome(found, requester, admin, body).Ok? <==>
            && found.id > 0 && (found.id == requester || admin)
            && (Name in body ==> body[Name].Str? && |body[Name].s| >= 3)
            && (Email in body ==>
                  body[Email].Str? && '@' in body[Email].s && ' ' !in body[Email].s && '\t' !in body[Email].s)
  {
  }

  /** What a refused edit answers: the message of the email check overwrites that of the name check. */
  lemma EditRefusal(found: User, requester: int, admin: bool, body: Object)
    requires EditOutcome(found, requester, admin, body).Err?
    ensures EditOutcome(found, requester, admin, body).error ==
            if found.id <= 0 || (found.id != requester && !admin) then NotFound
            else if !TextOrAbsent(body, Name) || !TextOrAbsent(body, Email) then BadJson
            else if Email in body && EmailComplaint(body[Email].s) != "" then Validation(EmailComplaint(body[Email].s))
            else Validation("Name must be at least 3 signs;")
  {
  }

  /** An accepted edit gives the user the name and the email asked for and keeps everything else, so a well-formed user
      stays well-formed. */
  lemma EditKeeps(found: User, requester: int, admin: bool, body: Object)
    requires EditOutcome(found, requester, admin, body).Ok?
    ensures
      var e := EditOutcome(found, requester, admin, body).value;
      && e.id == found.id > 0 && e.login == found.login && e.password == found.password && e.deleted == found.deleted
      && (found.id == requester || admin)
      && (if Email in body then body[Email] == Str(e.email) else e.email == found.email)
      && (if Name in body then body[Name] == Str(e.name) else e.name == found.name)
      && (WellFormed(found) ==> WellFormed(e))
  {
  }
}
