/** Sign-in and token validation end to end. */
module Sessions {
  import opened Wrappers
  import opened Users
  import opened Decimal
  import opened Sharding
  import opened Tokens
  import opened System
  import opened Invariant
  import opened Permanence

  /** A sign-in answers the one undeleted row with these credentials, or 0 when there is none:
      no second answer is possible, whatever the order of shards and rows. */
  lemma SignInAnswer(c: Config, run: seq<State>, steps: seq<Step>, j: nat, other: int)
    requires IsRun(c, run, steps) && j < |steps| && steps[j].SignIn? && !c.authCache
    ensures HasShards(run[j])
    ensures
      var SignIn(login, password, answer) := steps[j];
      && (answer == 0 <==> forall i :: i in T(run[j]) ==> !AuthMatch(T(run[j])[i], login, password))
      && (answer != 0 ==> answer > 0 && answer in T(run[j]) && AuthMatch(T(run[j])[answer], login, password))
      && (IsAuthAnswer(T(run[j]), login, password, other) <==> other == answer)
  {
    RunNext(c, run, steps, j);
    var SignIn(login, password, answer) := steps[j];
    assert IsAuthAnswer(T(run[j]), login, password, answer);
    if IsAuthAnswer(T(run[j]), login, password, other) {
      AuthAnswerUnique(T(run[j]), login, password, answer, other);
    }
  }

  /** The token issued at step j names its row for ever: at every later state it validates to that row, with the
      same id and login, exactly when the row is then undeleted. */
  lemma TokenFollowsRow(c: Config, run: seq<State>, steps: seq<Step>, j: nat, k: nat)
    requires IsRun(c, run, steps) && j < |steps| && j <= k < |run| && !c.authCache
    requires steps[j].SignIn? && steps[j].answer > 0
    ensures HasShards(run[k]) && steps[j].answer in T(run[k])
    ensures
      var token := Signed(steps[j].answer, steps[j].login);
      var row := T(run[k])[steps[j].answer];
      && row.id == token.id && row.login == token.login
      && Verdict(c, run[k], token) == if row.deleted then Err(AccessDenied) else Ok(row)
  {
    SignInAnswer(c, run, steps, j, 0);
    RunInv(c, run, steps, k, false);
    LoginPermanent(c, run, steps, j, k, steps[j].answer);
    RowOk(c, run[k], false, steps[j].answer);
    RowRefines(run[k].shards, steps[j].answer);
    assert IsRow(run[k], T(run[k])[steps[j].answer]);
  }

  /** From the decoded credentials to the verdict: for a login without a colon the pair sent is the pair checked. */
  lemma SignInEndToEnd(c: Config, run: seq<State>, steps: seq<Step>, j: nat, k: nat,
                       login: string, password: string, answer: int)
    requires IsRun(c, run, steps) && j < |steps| && j <= k < |run| && !c.authCache && ':' !in login
    requires
      var sent := SplitCredentials(login + ":" + password);
      steps[j] == SignIn(sent.0, sent.1, answer)
    ensures HasShards(run[j]) && HasShards(run[k])
    ensures answer > 0 <==> exists i :: i in T(run[j]) && AuthMatch(T(run[j])[i], login, password)
    ensures answer > 0 ==>
              && answer in T(run[j]) && AuthMatch(T(run[j])[answer], login, password) && answer in T(run[k])
              && (var verdict := Verdict(c, run[k], Signed(answer, login));
                  (verdict.Ok? <==> !T(run[k])[answer].deleted) &&
                  (verdict.Ok? ==> verdict.value.id == answer && verdict.value.login == login))
  {
    SplitRecovers(login, password);
    SignInAnswer(c, run, steps, j, 0);
    RunInv(c, run, steps, k, false);
    if answer > 0 {
      TokenFollowsRow(c, run, steps, j, k);
    }
  }

  /** A sign-in answered from the cache names the cached user, whose login and password are those of its row's. */
  lemma CachedSignIn(c: Config, s: State, e: Step)
    requires Inv(c, s, false) && e.SignIn? && Enabled(c, s, e) && SignInByCache(c, s, e.login, e.password)
    ensures e.answer > 0 && e.answer in T(s) && c.authCache
    ensures e.password != "" ==> e.password == ADMIN.password && T(s)[e.answer].login == ADMIN.login
    ensures e.login == T(s)[e.answer].login || e.login == ToString(e.answer)
  {
    CachedUserOk(T(s), s.cache, s.clock, c.authCache, e.login, false);
  }

  /** A non-empty password never signs anybody in, except the administrator made at set-up: the event carries no
      password, so the row it makes has an empty one. A cache may take the administrator's id for the login. */
  lemma OnlySetUpPasswordWorks(c: Config, run: seq<State>, steps: seq<Step>, j: nat)
    requires IsRun(c, run, steps) && j < |steps| && steps[j].SignIn?
    requires steps[j].answer > 0 && steps[j].password != ""
    ensures HasShards(run[j]) && steps[j].answer in T(run[j])
    ensures steps[j].password == "123" && T(run[j])[steps[j].answer].login == "autotest_admin"
    ensures steps[j].login == "autotest_admin" || (c.authCache && steps[j].login == ToString(steps[j].answer))
  {
    RunNext(c, run, steps, j);
    var s, e := run[j], steps[j];
    if SignInByCache(c, s, e.login, e.password) {
      CachedSignIn(c, s, e);
    } else {
      assert IsAuthAnswer(T(s), e.login, e.password, e.answer);
    }
  }

  /** Credentials without a colon, which are both login and password, sign nobody in; only a cache can let in the
      administrator, when the text of the administrator's id is the password. */
  lemma NoColonNoSignIn(c: Config, run: seq<State>, steps: seq<Step>, j: nat, decoded: string, answer: int)
    requires IsRun(c, run, steps) && j < |steps| && ':' !in decoded
    requires
      var sent := SplitCredentials(decoded);
      steps[j] == SignIn(sent.0, sent.1, answer)
    ensures answer > 0 ==> c.authCache && decoded == "123" == ToString(answer)
  {
    if answer > 0 {
      if decoded == "" {
        RunNext(c, run, steps, j);
        LoginIsGiven(c, run[j], steps[j]);
      } else {
        OnlySetUpPasswordWorks(c, run, steps, j);
        assert |"123"| != |"autotest_admin"|;
      }
    }
  }

  lemma LoginIsGiven(c: Config, s: State, e: Step)
    requires Inv(c, s, false) && e.SignIn? && Enabled(c, s, e) && e.answer > 0
    ensures e.answer in T(s) && |T(s)[e.answer].login| >= 3 && e.login != ""
  {
    if SignInByCache(c, s, e.login, e.password) {
      CachedSignIn(c, s, e);
    }
    assert Sound(T(s)[e.answer]);
  }
}
