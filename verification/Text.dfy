/** Decimal numbers in text, and the LIKE patterns of the search. */

module Decimal {

  function Digit(d: nat): char
    requires d < 10
  {
    '0' + d as char
  }

  /** std::to_string of a natural number. */
  function Digits(n: nat): (s: string)
    ensures |s| > 0
    ensures forall i :: 0 <= i < |s| ==> '0' <= s[i] <= '9'
  {
    if n < 10 then [Digit(n)] else Digits(n / 10) + [Digit(n % 10)]
  }

  function ToString(i: int): string {
    if i < 0 then "-" + Digits(-i) else Digits(i)
  }

  function Parse(s: string): int {
    if s == "" then 0 else 10 * Parse(s[..|s| - 1]) + (s[|s| - 1] as int - '0' as int)
  }

  lemma {:induction false} ParseDigits(n: nat)
    ensures Parse(Digits(n)) == n
  {
    if n >= 10 {
      ParseDigits(n / 10);
      assert Digits(n)[..|Digits(n)| - 1] == Digits(n / 10);
    } else {
      assert Digits(n)[..0] == "";
      assert Parse("") == 0;
    }
  }

  /** The number a text stands for; the inverse of ToString. */
  function FromString(s: string): int {
    if s != "" && s[0] == '-' then -Parse(s[1..]) else Parse(s)
  }

  lemma FromToString(i: int)
    ensures FromString(ToString(i)) == i
  {
    if i < 0 {
      ParseDigits(-i);
      assert ("-" + Digits(-i))[1..] == Digits(-i);
    } else {
      ParseDigits(i);
    }
  }

  /** Two integers never share their text, hence never their cache key. */
  lemma ToStringInjective(i: int, j: int)
    requires ToString(i) == ToString(j)
    ensures i == j
  {
    FromToString(i);
    FromToString(j);
  }

  predicate IsDigit(ch: char) {
    '0' <= ch <= '9'
  }

  predicate AllDigits(s: string) {
    forall i :: 0 <= i < |s| ==> IsDigit(s[i])
  }

  /** White space of section 7.4.1.10 of ISO/IEC 9899:2011. */
  const WHITE_SPACE := " \t\n\U{0B}\U{0C}\r"

  predicate IsSpace(ch: char) {
    ch == ' ' || ch == '\t' || ch == '\n' || ch == '\r' || ch == '\U{0B}' || ch == '\U{0C}'
  }

  predicate Blank(s: string) {
    forall i :: 0 <= i < |s| ==> s[i] in WHITE_SPACE
  }

  /** The number at the start of a text, as atoi of section 7.22.1.2 of ISO/IEC 9899:2011 reads it. */
  function Atoi(s: string): int
    decreases |s|
  {
    if s != "" && IsSpace(s[0]) then Atoi(s[1..])
    else if s != "" && s[0] == '-' then 0 - LeadingNumber(s[1..], 0)
    else if s != "" && s[0] == '+' then LeadingNumber(s[1..], 0)
    else LeadingNumber(s, 0)
  }

  function LeadingNumber(s: string, n: int): int
    decreases |s|
  {
    if s != "" && IsDigit(s[0]) then LeadingNumber(s[1..], 10 * n + (s[0] as int - '0' as int)) else n
  }

  lemma {:induction false} LeadingDigits(before: string, ds: string, rest: string)
    requires AllDigits(ds) && (rest != "" ==> !IsDigit(rest[0]))
    ensures LeadingNumber(ds + rest, Parse(before)) == Parse(before + ds)
    decreases |ds|
  {
    if ds == "" {
      assert ds + rest == rest && before + ds == before;
    } else {
      var next := before + [ds[0]];
      assert (ds + rest)[1..] == ds[1..] + rest && next + ds[1..] == before + ds;
      assert next[..|before|] == before;
      LeadingDigits(next, ds[1..], rest);
    }
  }

  lemma {:induction false} AtoiSkips(blanks: string, rest: string)
    requires Blank(blanks)
    ensures Atoi(blanks + rest) == Atoi(rest)
  {
    if blanks == "" {
      assert blanks + rest == rest;
    } else {
      assert (blanks + rest)[1..] == blanks[1..] + rest;
      AtoiSkips(blanks[1..], rest);
    }
  }

  /** White space, a sign or none, digits as far as there are any, and a rest they do not reach into. */
  predicate NumberParts(blanks: string, sign: string, ds: string, rest: string) {
    && Blank(blanks) && AllDigits(ds) && (sign == "" || sign == "-" || sign == "+")
    && (rest != "" ==> !IsDigit(rest[0]))
    && (rest != "" && sign == "" && ds == "" ==> rest[0] !in WHITE_SPACE && rest[0] != '-' && rest[0] != '+')
  }

  lemma {:induction false} DigitsFirst(s: string) returns (ds: string, rest: string)
    ensures s == ds + rest && AllDigits(ds) && (rest != "" ==> !IsDigit(rest[0]))
  {
    if s == "" || !IsDigit(s[0]) {
      ds, rest := "", s;
    } else {
      ds, rest := DigitsFirst(s[1..]);
      ds := [s[0]] + ds;
    }
  }

  /** Every text has such parts. */
  lemma {:induction false} EveryTextHasParts(s: string)
    returns (blanks: string, sign: string, ds: string, rest: string)
    ensures NumberParts(blanks, sign, ds, rest) && s == blanks + (sign + ds + rest)
  {
    if s != "" && IsSpace(s[0]) {
      blanks, sign, ds, rest := EveryTextHasParts(s[1..]);
      blanks := [s[0]] + blanks;
    } else {
      blanks := "";
      sign := if s != "" && (s[0] == '-' || s[0] == '+') then [s[0]] else "";
      ds, rest := DigitsFirst(s[|sign|..]);
    }
  }

  lemma AtoiUnsigned(ds: string, rest: string)
    requires NumberParts("", "", ds, rest)
    ensures Atoi(ds + rest) == Parse(ds)
  {
    LeadingDigits("", ds, rest);
    assert "" + ds == ds && Parse("") == 0;
    var s := ds + rest;
    assert s != "" ==> s[0] == if ds != "" then ds[0] else rest[0];
  }

  lemma AtoiSigned(sign: char, ds: string, rest: string)
    requires (sign == '-' || sign == '+') && AllDigits(ds) && (rest != "" ==> !IsDigit(rest[0]))
    ensures Atoi([sign] + (ds + rest)) == if sign == '-' then -Parse(ds) else Parse(ds)
  {
    LeadingDigits("", ds, rest);
    assert "" + ds == ds && Parse("") == 0;
    assert ([sign] + (ds + rest))[1..] == ds + rest;
  }

  /** The digits are the number read; without any it is 0. */
  lemma AtoiMeaning(blanks: string, sign: string, ds: string, rest: string)
    requires NumberParts(blanks, sign, ds, rest)
    ensures Atoi(blanks + (sign + ds + rest)) == if sign == "-" then -Parse(ds) else Parse(ds)
    ensures ds == "" ==> Atoi(blanks + (sign + ds + rest)) == 0
  {
    AtoiSkips(blanks, sign + ds + rest);
    if sign == "" {
      assert sign + ds + rest == ds + rest;
      AtoiUnsigned(ds, rest);
    } else {
      assert sign + ds + rest == [sign[0]] + (ds + rest);
      AtoiSigned(sign[0], ds, rest);
    }
  }

  /** The text of a number is read as the number, whatever follows behind it. */
  lemma AtoiReads(i: int, rest: string)
    requires rest != "" ==> !('0' <= rest[0] <= '9')
    ensures Atoi(ToString(i) + rest) == i
  {
    var sign := if i < 0 then "-" else "";
    var ds := Digits(if i < 0 then -i else i);
    ParseDigits(if i < 0 then -i else i);
    AtoiMeaning("", sign, ds, rest);
    assert "" + (sign + ds + rest) == ToString(i) + rest;
  }

  lemma AtoiOfText(i: int)
    ensures Atoi(ToString(i)) == i
  {
    AtoiReads(i, "");
    assert ToString(i) + "" == ToString(i);
  }
}

module Patterns {

  /** LIKE of section 8.5 of ISO/IEC 9075-2, without an escape character. */
  predicate Like(p: string, s: string)
    decreases |p| + |s|
  {
    if p == "" then s == ""
    else if p[0] == '%' then Like(p[1..], s) || (s != "" && Like(p, s[1..]))
    else s != "" && (p[0] == '_' || p[0] == s[0]) && Like(p[1..], s[1..])
  }

  /** The part of a text that one character of a pattern may stand for. */
  predicate StandsFor(ch: char, piece: string) {
    ch == '%' || (|piece| == 1 && (ch == '_' || piece[0] == ch))
  }

  function Joined(pieces: seq<string>): string {
    if pieces == [] then "" else pieces[0] + Joined(pieces[1..])
  }

  /** The text falls into pieces, one for each character of the pattern. */
  ghost predicate FallsInto(p: string, s: string, pieces: seq<string>) {
    |pieces| == |p| && Joined(pieces) == s && forall i :: 0 <= i < |p| ==> StandsFor(p[i], pieces[i])
  }

  lemma {:induction false} LikeFalls(p: string, s: string) returns (pieces: seq<string>)
    requires Like(p, s)
    ensures FallsInto(p, s, pieces)
    decreases |p| + |s|
  {
    if p == "" {
      pieces := [];
    } else if p[0] == '%' && !Like(p[1..], s) {
      var rest := LikeFalls(p, s[1..]);
      pieces := [[s[0]] + rest[0]] + rest[1..];
      assert Joined(pieces) == [s[0]] + Joined(rest);
    } else {
      var first := if p[0] == '%' then "" else [s[0]];
      var rest := LikeFalls(p[1..], s[|first|..]);
      pieces := [first] + rest;
      assert Joined(pieces) == first + Joined(rest);
    }
  }

  lemma {:induction false} FallsLike(p: string, s: string, pieces: seq<string>)
    requires FallsInto(p, s, pieces)
    ensures Like(p, s)
    decreases |p| + |s|
  {
    if p != "" {
      var first, rest := pieces[0], pieces[1..];
      if p[0] == '%' && first != "" {
        assert Joined([first[1..]] + rest) == first[1..] + Joined(rest) == s[1..];
        FallsLike(p, s[1..], [first[1..]] + rest);
      } else {
        assert s[|first|..] == Joined(rest);
        FallsLike(p[1..], s[|first|..], rest);
      }
    }
  }

  /** A pattern matches exactly the texts that fall into such pieces. */
  lemma LikeMeaning(p: string, s: string)
    ensures Like(p, s) <==> exists pieces :: FallsInto(p, s, pieces)
  {
    if Like(p, s) {
      var pieces := LikeFalls(p, s);
    }
    if pieces :| FallsInto(p, s, pieces) {
      FallsLike(p, s, pieces);
    }
  }

  predicate Plain(s: string) {
    '%' !in s && '_' !in s
  }

  /** std::replace of every space by a percent sign. */
  function Rewrite(q: string): string {
    seq(|q|, i requires 0 <= i < |q| => if q[i] == ' ' then '%' else q[i])
  }

  function Contains(q: string): string {
    "%" + q + "%"
  }

  function LowerChar(ch: char): char {
    if 'A' <= ch <= 'Z' then ch + 32 as char else ch
  }

  function Lower(s: string): string {
    seq(|s|, i requires 0 <= i < |s| => LowerChar(s[i]))
  }

  const CAPITALS := "ABCDEFGHIJKLMNOPQRSTUVWXYZ"
  const SMALL := "abcdefghijklmnopqrstuvwxyz"

  predicate IsCapitalOf(ch: char, small: char) {
    exists k :: 0 <= k < 26 && CAPITALS[k] == ch && SMALL[k] == small
  }

  /** The letter as lower() shows it: a capital as its small letter, anything else as it is. */
  predicate ShownAs(ch: char, small: char) {
    if ch in CAPITALS then IsCapitalOf(ch, small) else ch == small
  }

  lemma Letters()
    ensures forall k :: 0 <= k < 26 ==> CAPITALS[k] as int == 'A' as int + k && SMALL[k] as int == 'a' as int + k
  {
  }

  lemma LowerInAlphabet(capitals: string, smalls: string, ch: char, small: char)
    requires |capitals| == |smalls| == 26
    requires forall k :: 0 <= k < 26 ==> capitals[k] as int == 'A' as int + k && smalls[k] as int == 'a' as int + k
    ensures LowerChar(ch) == small <==>
            if ch in capitals then exists k :: 0 <= k < 26 && capitals[k] == ch && smalls[k] == small else ch == small
  {
    if 'A' <= ch <= 'Z' {
      var k := ch as int - 'A' as int;
      assert capitals[k] == ch && smalls[k] == LowerChar(ch);
    }
  }

  lemma LowerCharMeaning(ch: char, small: char)
    ensures LowerChar(ch) == small <==> ShownAs(ch, small)
  {
    Letters();
    LowerInAlphabet(CAPITALS, SMALL, ch, small);
  }

  /** The text stands in the value at this place, when the value is shown in small letters. */
  predicate SpeltAt(w: string, value: string, k: int) {
    0 <= k <= k + |w| <= |value| && forall i :: 0 <= i < |w| ==> ShownAs(value[k + i], w[i])
  }

  lemma SpeltMeaning(w: string, value: string, k: int)
    ensures At(w, Lower(value), k) <==> SpeltAt(w, value, k)
  {
    if 0 <= k <= k + |w| <= |value| {
      var piece := Lower(value)[k..k + |w|];
      forall i | 0 <= i < |w|
        ensures piece[i] == w[i] <==> ShownAs(value[k + i], w[i])
      {
        LowerCharMeaning(value[k + i], w[i]);
      }
    }
  }

  /** The words of a query, split at every single space. */
  function Words(q: string): (ws: seq<string>)
    ensures |ws| > 0
  {
    if q == "" then [""]
    else if q[0] == ' ' then [""] + Words(q[1..])
    else var ws := Words(q[1..]); [[q[0]] + ws[0]] + ws[1..]
  }

  predicate At(w: string, s: string, k: int) {
    0 <= k <= k + |w| <= |s| && s[k..k + |w|] == w
  }

  /** The words stand in s at these positions, in order and without overlap. */
  predicate InOrder(ws: seq<string>, s: string, at: seq<int>) {
    && |at| == |ws|
    && (forall i :: 0 <= i < |ws| ==> At(ws[i], s, at[i]))
    && (forall i :: 0 < i < |ws| ==> at[i - 1] + |ws[i - 1]| <= at[i])
  }

  ghost predicate OccurInOrder(ws: seq<string>, s: string) {
    exists at :: InOrder(ws, s, at)
  }

  /** The same for a value shown in small letters. */
  predicate SpeltInOrder(ws: seq<string>, value: string, at: seq<int>) {
    && |at| == |ws|
    && (forall i :: 0 <= i < |ws| ==> SpeltAt(ws[i], value, at[i]))
    && (forall i :: 0 < i < |ws| ==> at[i - 1] + |ws[i - 1]| <= at[i])
  }

  lemma OrderMeaning(ws: seq<string>, value: string)
    ensures OccurInOrder(ws, Lower(value)) <==> exists at :: SpeltInOrder(ws, value, at)
  {
    forall at: seq<int> | |at| == |ws|
      ensures InOrder(ws, Lower(value), at) <==> SpeltInOrder(ws, value, at)
    {
      forall i | 0 <= i < |ws|
        ensures At(ws[i], Lower(value), at[i]) <==> SpeltAt(ws[i], value, at[i])
      {
        SpeltMeaning(ws[i], value, at[i]);
      }
    }
    if at :| InOrder(ws, Lower(value), at) {
      assert SpeltInOrder(ws, value, at);
    }
    if at :| SpeltInOrder(ws, value, at) {
      assert InOrder(ws, Lower(value), at);
    }
  }

  function Join(ws: seq<string>): string {
    if ws == [] then "" else "%" + ws[0] + Join(ws[1..])
  }

  lemma RewriteTail(q: string)
    requires q != ""
    ensures Rewrite(q) == [if q[0] == ' ' then '%' else q[0]] + Rewrite(q[1..])
  {
  }

  lemma {:induction false} RewriteIsJoin(q: string)
    ensures Rewrite(q) == Words(q)[0] + Join(Words(q)[1..])
  {
    if q != "" {
      var ws := Words(q[1..]);
      RewriteTail(q);
      RewriteIsJoin(q[1..]);
      if q[0] == ' ' {
        assert Words(q)[1..] == ws;
        assert Join(ws) == "%" + ws[0] + Join(ws[1..]) == "%" + Rewrite(q[1..]);
      } else {
        assert Words(q)[1..] == ws[1..];
        assert [q[0]] + (ws[0] + Join(ws[1..])) == ([q[0]] + ws[0]) + Join(ws[1..]);
      }
    }
  }

  lemma {:induction false} WordsArePlain(q: string)
    requires Plain(q)
    ensures forall i :: 0 <= i < |Words(q)| ==> Plain(Words(q)[i])
  {
    if q != "" {
      assert '%' !in q[1..] && '_' !in q[1..];
      WordsArePlain(q[1..]);
      var ws := Words(q[1..]);
      if q[0] != ' ' {
        assert Plain([q[0]] + ws[0]) by {
          assert q[0] in q;
          assert Plain(ws[0]);
        }
        assert forall i :: 0 < i < |ws| ==> Words(q)[i] == ws[i];
      } else {
        assert forall i :: 0 <= i < |ws| ==> Words(q)[i + 1] == ws[i];
        forall i | 0 <= i < |Words(q)|
          ensures Plain(Words(q)[i])
        {
          if i > 0 {
            assert Words(q)[i] == ws[i - 1];
          }
        }
      }
    }
  }

  lemma {:induction false} LikeWord(w: string, rest: string, s: string)
    requires Plain(w)
    ensures Like(w + rest, s) <==> At(w, s, 0) && Like(rest, s[|w|..])
  {
    if w == "" {
      assert w + rest == rest;
    } else {
      assert (w + rest)[1..] == w[1..] + rest;
      if s != "" {
        LikeWord(w[1..], rest, s[1..]);
        assert At(w, s, 0) <==> s[0] == w[0] && At(w[1..], s[1..], 0) by {
          if At(w, s, 0) {
            assert s[1..][..|w| - 1] == s[..|w|][1..];
          }
          if s[0] == w[0] && At(w[1..], s[1..], 0) {
            assert s[..|w|] == [s[0]] + s[1..][..|w| - 1];
          }
        }
        if At(w, s, 0) {
          assert s[1..][|w| - 1..] == s[|w|..];
        }
      }
    }
  }

  lemma {:induction false} LikeSkip(rest: string, s: string, k: nat)
    requires k <= |s| && Like(rest, s[k..])
    ensures Like("%" + rest, s)
  {
    assert ("%" + rest)[1..] == rest;
    if k > 0 {
      assert s[1..][k - 1..] == s[k..];
      LikeSkip(rest, s[1..], k - 1);
    }
  }

  lemma {:induction false} LikeSkipInverse(rest: string, s: string) returns (k: nat)
    requires Like("%" + rest, s)
    ensures k <= |s| && Like(rest, s[k..])
  {
    assert ("%" + rest)[1..] == rest;
    if Like(rest, s) {
      k := 0;
    } else {
      k := LikeSkipInverse(rest, s[1..]);
      assert s[1..][k..] == s[k + 1..];
      k := k + 1;
    }
  }

  lemma {:induction false} AtShift(w: string, s: string, d: nat, k: int)
    requires d <= |s| && 0 <= k
    ensures At(w, s[d..], k) <==> At(w, s, k + d)
  {
    if k + |w| + d <= |s| {
      assert s[d..][k..k + |w|] == s[k + d..k + d + |w|];
    }
  }

  lemma JoinUnfold(ws: seq<string>)
    requires ws != []
    ensures Join(ws) + "%" == "%" + (ws[0] + (Join(ws[1..]) + "%"))
  {
  }

  lemma {:induction false} JoinMatches(ws: seq<string>, s: string, at: seq<int>)
    requires forall i :: 0 <= i < |ws| ==> Plain(ws[i])
    requires InOrder(ws, s, at)
    ensures Like(Join(ws) + "%", s)
  {
    if ws == [] {
      assert Join(ws) + "%" == "%" + "";
      LikeSkip("", s, |s|);
    } else {
      var d := at[0] + |ws[0]|;
      var at' := seq(|at| - 1, i requires 0 <= i < |at| - 1 => at[i + 1] - d);
      ShiftedOrder(ws, s, at, at', d);
      JoinMatches(ws[1..], s[d..], at');
      JoinStep(ws[0], Join(ws[1..]) + "%", s, at[0]);
      JoinUnfold(ws);
    }
  }

  lemma JoinStep(w: string, tail: string, s: string, k: nat)
    requires Plain(w) && At(w, s, k) && Like(tail, s[k + |w|..])
    ensures Like("%" + (w + tail), s)
  {
    AtShift(w, s, k, 0);
    assert s[k..][|w|..] == s[k + |w|..];
    LikeWord(w, tail, s[k..]);
    LikeSkip(w + tail, s, k);
  }

  lemma {:induction false} PositionsGrow(ws: seq<string>, s: string, at: seq<int>, i: nat)
    requires InOrder(ws, s, at) && 0 < i < |ws|
    ensures at[0] + |ws[0]| <= at[i]
  {
    if i > 1 {
      PositionsGrow(ws, s, at, i - 1);
    }
  }

  lemma {:induction false} ShiftedOrder(ws: seq<string>, s: string, at: seq<int>, at': seq<int>, d: nat)
    requires InOrder(ws, s, at) && |ws| > 0 && d == at[0] + |ws[0]|
    requires |at'| == |at| - 1 && forall i :: 0 <= i < |at'| ==> at'[i] == at[i + 1] - d
    ensures InOrder(ws[1..], s[d..], at')
  {
    forall i | 0 <= i < |at'|
      ensures At(ws[1..][i], s[d..], at'[i])
    {
      PositionsGrow(ws, s, at, i + 1);
      AtShift(ws[i + 1], s, d, at'[i]);
    }
  }

  lemma {:induction false} JoinMatchesInverse(ws: seq<string>, s: string) returns (at: seq<int>)
    requires forall i :: 0 <= i < |ws| ==> Plain(ws[i])
    requires Like(Join(ws) + "%", s)
    ensures InOrder(ws, s, at)
  {
    if ws == [] {
      at := [];
    } else {
      var w := ws[0];
      var tail := Join(ws[1..]) + "%";
      JoinUnfold(ws);
      var k := LikeSkipInverse(w + tail, s);
      LikeWord(w, tail, s[k..]);
      AtShift(w, s, k, 0);
      var d := k + |w|;
      assert s[k..][|w|..] == s[d..];
      var at' := JoinMatchesInverse(ws[1..], s[d..]);
      at := [k] + seq(|at'|, i requires 0 <= i < |at'| => at'[i] + d);
      PrependWord(ws, s, k, at', at);
    }
  }

  lemma PrependWord(ws: seq<string>, s: string, k: nat, at': seq<int>, at: seq<int>)
    requires |ws| > 0 && At(ws[0], s, k) && InOrder(ws[1..], s[k + |ws[0]|..], at')
    requires |at| == |at'| + 1 && at[0] == k && forall i :: 0 <= i < |at'| ==> at[i + 1] == at'[i] + k + |ws[0]|
    ensures InOrder(ws, s, at)
  {
    var d := k + |ws[0]|;
    forall i | 0 <= i < |ws|
      ensures At(ws[i], s, at[i])
      ensures i > 0 ==> at[i - 1] + |ws[i - 1]| <= at[i]
    {
      if i > 0 {
        assert At(ws[1..][i - 1], s[d..], at'[i - 1]);
        AtShift(ws[i], s, d, at'[i - 1]);
      }
      if i > 1 {
        assert at'[i - 2] + |ws[1..][i - 2]| <= at'[i - 1];
      }
    }
  }

  /** The rewritten pattern finds exactly the texts with the query's words in order. */
  lemma PatternMeaning(q: string, s: string)
    requires Plain(q)
    ensures Like(Contains(Rewrite(q)), s) <==> OccurInOrder(Words(q), s)
  {
    RewriteIsJoin(q);
    WordsArePlain(q);
    var ws := Words(q);
    assert Join(ws) == "%" + ws[0] + Join(ws[1..]) == "%" + Rewrite(q);
    if Like(Contains(Rewrite(q)), s) {
      var at := JoinMatchesInverse(ws, s);
    }
    if at :| InOrder(ws, s, at) {
      JoinMatches(ws, s, at);
    }
  }

  lemma RewriteIdempotent(q: string)
    ensures Rewrite(Rewrite(q)) == Rewrite(q)
    ensures Rewrite(q) == q <==> ' ' !in q
  {
    if ' ' in q {
      var i :| 0 <= i < |q| && q[i] == ' ';
      assert Rewrite(q)[i] == '%';
    }
  }

  lemma {:induction false} LiteralPositions(q: string, s: string, k: nat) returns (at: seq<int>)
    requires At(q, s, k)
    ensures InOrder(Words(q), s, at) && at[0] == k
  {
    if q == "" {
      at := [k];
    } else {
      AtTail(q, s, k);
      var rest := LiteralPositions(q[1..], s, k + 1);
      var ws := Words(q[1..]);
      if q[0] == ' ' {
        at := [k] + rest;
        PrependEmpty(ws, s, rest, k);
      } else {
        at := [k] + rest[1..];
        ExtendFirst(q[0], ws, s, rest, k);
      }
    }
  }

  lemma AtTail(q: string, s: string, k: nat)
    requires q != "" && At(q, s, k)
    ensures s[k] == q[0] && At(q[1..], s, k + 1)
  {
    assert s[k..k + |q|][1..] == s[k + 1..k + |q|];
    assert s[k..k + |q|][0] == s[k];
  }

  lemma PrependEmpty(ws: seq<string>, s: string, at: seq<int>, k: nat)
    requires InOrder(ws, s, at) && |ws| > 0 && at[0] == k + 1
    ensures InOrder([""] + ws, s, [k] + at)
  {
    var ws', at' := [""] + ws, [k] + at;
    forall i | 0 <= i < |ws'|
      ensures At(ws'[i], s, at'[i])
      ensures i > 0 ==> at'[i - 1] + |ws'[i - 1]| <= at'[i]
    {
      if i == 0 {
        assert At(ws[0], s, k + 1);
      } else {
        assert At(ws[i - 1], s, at[i - 1]);
      }
    }
  }

  lemma ExtendFirst(ch: char, ws: seq<string>, s: string, at: seq<int>, k: nat)
    requires InOrder(ws, s, at) && |ws| > 0 && at[0] == k + 1 && s[k] == ch
    ensures InOrder([[ch] + ws[0]] + ws[1..], s, [k] + at[1..])
  {
    var ws', at' := [[ch] + ws[0]] + ws[1..], [k] + at[1..];
    forall i | 0 <= i < |ws'|
      ensures At(ws'[i], s, at'[i])
      ensures i > 0 ==> at'[i - 1] + |ws'[i - 1]| <= at'[i]
    {
      assert At(ws[i], s, at[i]);
      if i == 0 {
        assert s[k..k + 1 + |ws[0]|] == [s[k]] + s[k + 1..k + 1 + |ws[0]|];
      }
    }
  }

  /** A text that holds the query literally is always found. */
  lemma LiteralIsFound(q: string, s: string, k: nat)
    requires Plain(q) && At(q, s, k)
    ensures Like(Contains(Rewrite(q)), s)
  {
    var at := LiteralPositions(q, s, k);
    var ws := Words(q);
    assert InOrder(ws, s, at);
    PatternMeaning(q, s);
  }

  /** Without a rewrite the pattern finds exactly the texts that hold it in one piece. */
  lemma SubstringMeaning(w: string, s: string)
    requires Plain(w)
    ensures Like(Contains(w), s) <==> exists k :: At(w, s, k)
  {
    assert Contains(w) == "%" + (w + "%");
    if Like(Contains(w), s) {
      var k := LikeSkipInverse(w + "%", s);
      LikeWord(w, "%", s[k..]);
      AtShift(w, s, k, 0);
    }
    if k :| At(w, s, k) {
      LikeSkip("", s[k + |w|..], |s| - k - |w|);
      assert "%" + "" == "%";
      JoinStep(w, "%", s, k);
    }
  }
}
