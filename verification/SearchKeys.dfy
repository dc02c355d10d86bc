/** Which search keys tell statements apart. */
module SearchKeys {
  import opened Patterns
  import opened Sharding
  import opened CacheModel

  /** Which fields a query fills. */
  datatype Mask = Mask(login: bool, email: bool, name: bool)

  function MaskOf(q: Query): Mask {
    Mask(q.login != "", q.email != "", q.name != "")
  }

  const NO_FIELD := Mask(false, false, false)

  predicate OneField(m: Mask) {
    m == Mask(true, false, false) || m == Mask(false, true, false) || m == Mask(false, false, true)
  }

  /** A query filling one of the allowed sets of fields, whose text is not the default key. */
  predicate Allowed(masks: set<Mask>, q: Query) {
    && MaskOf(q) in masks
    && (MaskOf(q) != NO_FIELD ==> SearchKey(q) != "full" && SearchKey(RewriteQuery(q)) != "full")
  }

  /** A lookup only ever hits lists saved by searches with the same statement. */
  ghost predicate KeysFaithful(masks: set<Mask>) {
    forall saved, asked ::
      Allowed(masks, saved) && Allowed(masks, asked) && SearchKey(RewriteQuery(saved)) == SearchKey(asked) ==>
        SqlOf(saved) == SqlOf(asked)
  }

  /** At most one set of fields is ever filled, and it is a single field. */
  predicate SingleField(masks: set<Mask>) {
    forall m, m' :: m in masks && m' in masks && m != NO_FIELD && m' != NO_FIELD ==> m == m' && OneField(m)
  }

  lemma RewriteKeepsMask(q: Query)
    ensures MaskOf(RewriteQuery(q)) == MaskOf(q)
  {
    assert |Rewrite(q.login)| == |q.login| && |Rewrite(q.name)| == |q.name|;
  }

  lemma SingleFieldKeys(masks: set<Mask>, saved: Query, asked: Query)
    requires SingleField(masks) && Allowed(masks, saved) && Allowed(masks, asked)
    requires SearchKey(RewriteQuery(saved)) == SearchKey(asked)
    ensures SqlOf(saved) == SqlOf(asked)
  {
    RewriteKeepsMask(saved);
    RewriteKeepsMask(asked);
    var r := RewriteQuery(saved);
    if MaskOf(saved) == NO_FIELD {
      assert SearchKey(r) == "full";
      assert Rewrite("") == "";
    } else if MaskOf(asked) != NO_FIELD {
      assert MaskOf(r) == MaskOf(asked) && OneField(MaskOf(asked));
      KeyOfOneField(r);
      KeyOfOneField(asked);
      assert r == asked;
      RewriteIdempotent(saved.login);
      RewriteIdempotent(saved.name);
    }
  }

  lemma KeyOfOneField(q: Query)
    requires OneField(MaskOf(q))
    ensures SearchKey(q) == if q.login != "" then q.login else if q.email != "" then q.email else q.name
  {
    if q.login != "" {
      assert q.login + "" + "" == q.login;
    } else if q.email != "" {
      assert "" + q.email + "" == q.email;
    } else {
      assert "" + "" + q.name == q.name;
    }
  }

  /** The key is the login, the email and the name, one behind the other, or the default. */
  lemma KeyMeaning(q: Query)
    ensures MaskOf(q) == NO_FIELD ==> SearchKey(q) == "full"
    ensures MaskOf(q) != NO_FIELD ==>
              var key := SearchKey(q);
              && |key| == |q.login| + |q.email| + |q.name|
              && At(q.login, key, 0) && At(q.email, key, |q.login|) && At(q.name, key, |q.login| + |q.email|)
  {
  }

  /** The default is a text like any other: a search for that login reads and writes the key of the search for all. */
  lemma DefaultKeyCollides()
    ensures
      var all, asked := Query("", "", ""), Query("full", "", "");
      SearchKey(RewriteQuery(all)) == SearchKey(asked) && SqlOf(all) != SqlOf(asked)
  {
    KeyOfOneField(Query("full", "", ""));
    assert Rewrite("") == "";
  }

  /** The queries with this mask whose key is four letters: the spare letters in the first or in the last field. */
  function FrontHeavy(m: Mask): Query {
    if m.login then
      if m.email then (if m.name then Query("aa", "a", "a") else Query("aaa", "a", ""))
      else (if m.name then Query("aaa", "", "a") else Query("aaaa", "", ""))
    else if m.email then (if m.name then Query("", "aaa", "a") else Query("", "aaaa", ""))
    else Query("", "", "aaaa")
  }

  function BackHeavy(m: Mask): Query {
    if m.login then
      if m.email then (if m.name then Query("a", "a", "aa") else Query("a", "aaa", ""))
      else (if m.name then Query("a", "", "aaa") else Query("aaaa", "", ""))
    else if m.email then (if m.name then Query("", "a", "aaa") else Query("", "aaaa", ""))
    else Query("", "", "aaaa")
  }

  lemma HeavyMasks(m: Mask)
    requires m != NO_FIELD
    ensures MaskOf(FrontHeavy(m)) == m == MaskOf(BackHeavy(m))
  {
  }

  lemma HeavyKeys(m: Mask)
    requires m != NO_FIELD
    ensures SearchKey(FrontHeavy(m)) == "aaaa" == SearchKey(BackHeavy(m))
  {
  }

  lemma NoSpaces(q: Query)
    requires ' ' !in q.login && ' ' !in q.name
    ensures RewriteQuery(q) == q
  {
    RewriteIdempotent(q.login);
    RewriteIdempotent(q.name);
  }

  lemma HeavyRewrites(m: Mask)
    requires m != NO_FIELD
    ensures RewriteQuery(FrontHeavy(m)) == FrontHeavy(m) && RewriteQuery(BackHeavy(m)) == BackHeavy(m)
  {
    NoSpaces(FrontHeavy(m));
    NoSpaces(BackHeavy(m));
  }

  /** Statements of rewritten queries differ when the queries do. */
  lemma SqlTellsQueries(p: Query, q: Query)
    requires RewriteQuery(p) == p && RewriteQuery(q) == q && SqlOf(p) == SqlOf(q)
    ensures p == q
  {
    PatternTells(p.login, q.login);
    PatternTells(p.email, q.email);
    PatternTells(p.name, q.name);
  }

  lemma PatternTells(a: string, b: string)
    requires PatternOf(a) == PatternOf(b)
    ensures a == b
  {
    if a != "" {
      assert Contains(a)[1..|a| + 1] == a && Contains(b)[1..|b| + 1] == b;
      assert |Contains(a)| == |a| + 2 && |Contains(b)| == |b| + 2;
    }
  }

  lemma HeavyAllowed(masks: set<Mask>, m: Mask)
    requires m in masks && m != NO_FIELD
    ensures Allowed(masks, FrontHeavy(m)) && Allowed(masks, BackHeavy(m))
  {
    HeavyMasks(m);
    HeavyKeys(m);
    HeavyRewrites(m);
    assert "aaaa"[0] != "full"[0];
  }

  lemma Collision(masks: set<Mask>, p: Query, q: Query)
    requires KeysFaithful(masks) && Allowed(masks, p) && Allowed(masks, q)
    requires RewriteQuery(p) == p && RewriteQuery(q) == q && SearchKey(p) == SearchKey(q)
    ensures p == q
  {
    assert SearchKey(RewriteQuery(p)) == SearchKey(q);
    SqlTellsQueries(p, q);
  }

  lemma FaithfulMasks(masks: set<Mask>, m: Mask, m': Mask)
    requires KeysFaithful(masks) && m in masks && m' in masks && m != NO_FIELD && m' != NO_FIELD
    ensures FrontHeavy(m) == FrontHeavy(m') && FrontHeavy(m) == BackHeavy(m)
  {
    HeavyKeys(m);
    HeavyKeys(m');
    HeavyRewrites(m);
    HeavyRewrites(m');
    HeavyAllowed(masks, m);
    HeavyAllowed(masks, m');
    Collision(masks, FrontHeavy(m), FrontHeavy(m'));
    Collision(masks, FrontHeavy(m), BackHeavy(m));
  }

  lemma OnlyOneField(m: Mask)
    requires m != NO_FIELD && FrontHeavy(m) == BackHeavy(m)
    ensures OneField(m)
  {
  }

  /** Keys tell statements apart exactly when all filled queries fill one and the same single field. */
  lemma KeysFaithfulExactly(masks: set<Mask>)
    ensures KeysFaithful(masks) <==> SingleField(masks)
  {
    if SingleField(masks) {
      forall saved, asked |
        Allowed(masks, saved) && Allowed(masks, asked) && SearchKey(RewriteQuery(saved)) == SearchKey(asked)
        ensures SqlOf(saved) == SqlOf(asked)
      {
        SingleFieldKeys(masks, saved, asked);
      }
    }
    if KeysFaithful(masks) {
      forall m, m' | m in masks && m' in masks && m != NO_FIELD && m' != NO_FIELD
        ensures m == m' && OneField(m)
      {
        FaithfulMasks(masks, m, m');
        HeavyMasks(m);
        HeavyMasks(m');
        OnlyOneField(m);
      }
    }
  }
}
