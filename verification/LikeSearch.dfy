/**
  Keyword search: a LIKE pattern built from user text must mean "contains that text"
  (app/services/service_record.py, app/repositories/repo_record.py).
*/
module LikeSearch {
  import opened Wrappers

  const ESC: char := '\\'

  predicate Special(c: char) {
    c == ESC || c == '%' || c == '_'
  }

  // ------------------------------------------------------------------ the service's string functions

  /** `str.replace` of one character by a string. */
  function Replace(s: string, c: char, with: string): string {
    if s == "" then "" else (if s[0] == c then with else [s[0]]) + Replace(s[1..], c, with)
  }

  /** The three successive replacements. */
  function EscapeText(s: string): string {
    Replace(Replace(Replace(s, ESC, [ESC, ESC]), '%', [ESC, '%']), '_', [ESC, '_'])
  }

  function LStrip(s: string, space: char -> bool): string {
    if s != "" && space(s[0]) then LStrip(s[1..], space) else s
  }

  function RStrip(s: string, space: char -> bool): string {
    if s != "" && space(s[|s| - 1]) then RStrip(s[..|s| - 1], space) else s
  }

  function Strip(s: string, space: char -> bool): string {
    RStrip(LStrip(s, space), space)
  }

  /** `_escape_like`, for any notion of white space and any lower-casing. */
  function EscapeLike(keyword: Option<string>, space: char -> bool, lower: string -> string): Option<string> {
    if keyword.None? then None
    else
      var kw := lower(Strip(keyword.value, space));
      if kw == "" then None else Some("%" + EscapeText(kw) + "%")
  }

  // ------------------------------------------------------------------ LIKE

  /** SQL LIKE with escape character `\`. */
  predicate Like(text: string, pattern: string)
    decreases |pattern|
  {
    if pattern == "" then text == ""
    else if pattern[0] == ESC && |pattern| > 1 then
      text != "" && text[0] == pattern[1] && Like(text[1..], pattern[2..])
    else if pattern[0] == '%' then exists k | 0 <= k <= |text| :: Like(text[k..], pattern[1..])
    else if pattern[0] == '_' then text != "" && Like(text[1..], pattern[1..])
    else text != "" && text[0] == pattern[0] && Like(text[1..], pattern[1..])
  }

  /** Section 8.5 of ISO/IEC 9075:1992: an escape must be followed by a special character. */
  predicate WellEscaped(pattern: string) {
    if pattern == "" then true
    else if pattern[0] == ESC then |pattern| > 1 && Special(pattern[1]) && WellEscaped(pattern[2..])
    else WellEscaped(pattern[1..])
  }

  predicate Contains(text: string, part: string) {
    exists k | 0 <= k <= |text| :: part <= text[k..]
  }

  // ------------------------------------------------------------------ escaping

  /** One escape in front of every special character. */
  function EscapeEach(s: string): string {
    if s == "" then "" else (if Special(s[0]) then [ESC, s[0]] else [s[0]]) + EscapeEach(s[1..])
  }

  lemma {:induction false} ReplaceConcat(s: string, t: string, c: char, with: string)
    ensures Replace(s + t, c, with) == Replace(s, c, with) + Replace(t, c, with)
  {
    if s == "" {
      assert s + t == t;
    } else {
      var head := if s[0] == c then with else [s[0]];
      calc {
        Replace(s + t, c, with);
        { assert (s + t)[0] == s[0] && (s + t)[1..] == s[1..] + t; }
        head + Replace(s[1..] + t, c, with);
        { ReplaceConcat(s[1..], t, c, with); }
        head + (Replace(s[1..], c, with) + Replace(t, c, with));
        { ConcatIsAssociative(head, Replace(s[1..], c, with), Replace(t, c, with)); }
        (head + Replace(s[1..], c, with)) + Replace(t, c, with);
      }
    }
  }

  lemma ReplaceInOne(a: char, c: char, with: string)
    ensures Replace([a], c, with) == if a == c then with else [a]
  {
  }

  lemma EscapeOne(c: char)
    ensures EscapeText([c]) == if Special(c) then [ESC, c] else [c]
  {
    ReplaceInOne(c, ESC, [ESC, ESC]);
    ReplaceInOne(c, '%', [ESC, '%']);
    ReplaceInOne(c, '_', [ESC, '_']);
    ReplaceInOne(ESC, '%', [ESC, '%']);
    ReplaceInOne(ESC, '_', [ESC, '_']);
    ReplaceInOne('%', '_', [ESC, '_']);
    ReplaceConcat([ESC], [ESC], '%', [ESC, '%']);
    ReplaceConcat([ESC], [ESC], '_', [ESC, '_']);
    ReplaceConcat([ESC], ['%'], '_', [ESC, '_']);
    assert [ESC, ESC] == [ESC] + [ESC] && [ESC, '%'] == [ESC] + ['%'];
  }

  /** The order of the replacements is harmless: backslashes first, so no escape is escaped. */
  lemma {:induction false} SuccessiveIsPerCharacter(s: string)
    ensures EscapeText(s) == EscapeEach(s)
  {
    if s != "" {
      var head := [s[0]];
      assert s == head + s[1..];
      ReplaceConcat(head, s[1..], ESC, [ESC, ESC]);
      ReplaceConcat(Replace(head, ESC, [ESC, ESC]), Replace(s[1..], ESC, [ESC, ESC]), '%', [ESC, '%']);
      ReplaceConcat(Replace(Replace(head, ESC, [ESC, ESC]), '%', [ESC, '%']),
                    Replace(Replace(s[1..], ESC, [ESC, ESC]), '%', [ESC, '%']), '_', [ESC, '_']);
      EscapeOne(s[0]);
      SuccessiveIsPerCharacter(s[1..]);
    }
  }

  lemma {:induction false} EscapeEachIsWellEscaped(s: string, rest: string)
    ensures WellEscaped(EscapeEach(s) + rest) <==> WellEscaped(rest)
  {
    if s == "" {
      assert EscapeEach(s) + rest == rest;
    } else {
      EscapeEachIsWellEscaped(s[1..], rest);
      var tail := EscapeEach(s[1..]) + rest;
      if Special(s[0]) {
        assert EscapeEach(s) + rest == [ESC, s[0]] + tail;
        assert ([ESC, s[0]] + tail)[2..] == tail;
      } else {
        assert EscapeEach(s) + rest == [s[0]] + tail;
        assert ([s[0]] + tail)[1..] == tail;
      }
    }
  }

  /** An escaped text matches itself and nothing else. */
  lemma {:induction false} EscapedMatchesItself(text: string, s: string, rest: string)
    ensures Like(text, EscapeEach(s) + rest) <==> s <= text && Like(text[|s|..], rest)
  {
    if s == "" {
      assert EscapeEach(s) + rest == rest && text[0..] == text;
    } else {
      var tail := EscapeEach(s[1..]) + rest;
      if Special(s[0]) {
        assert EscapeEach(s) + rest == [ESC, s[0]] + tail;
        assert ([ESC, s[0]] + tail)[2..] == tail;
      } else {
        assert EscapeEach(s) + rest == [s[0]] + tail;
        assert ([s[0]] + tail)[1..] == tail;
      }
      if text != "" {
        EscapedMatchesItself(text[1..], s[1..], rest);
        assert text[0] == s[0] && s[1..] <= text[1..] ==> s <= text by {
          if text[0] == s[0] && s[1..] <= text[1..] {
            assert forall i | 0 < i < |s| :: s[i] == s[1..][i - 1] == text[1..][i - 1] == text[i];
          }
        }
        assert s <= text ==> s[1..] <= text[1..];
        assert s <= text ==> text[1..][|s| - 1..] == text[|s|..];
      }
    }
  }

  lemma PercentThen(text: string, rest: string)
    ensures Like(text, "%" + rest) <==> exists k | 0 <= k <= |text| :: Like(text[k..], rest)
  {
  }

  lemma PercentMatchesAll(text: string)
    ensures Like(text, "%")
  {
    PercentThen(text, "");
    assert "%" + "" == "%";
    assert Like(text[|text|..], "");
  }

  /** `%text%` with the text escaped is the substring test. */
  lemma PatternIsSubstring(text: string, s: string)
    ensures Like(text, "%" + EscapeText(s) + "%") <==> Contains(text, s)
  {
    SuccessiveIsPerCharacter(s);
    var rest := EscapeEach(s) + "%";
    assert "%" + EscapeText(s) + "%" == "%" + rest;
    PercentThen(text, rest);
    forall k | 0 <= k <= |text|
      ensures Like(text[k..], rest) <==> s <= text[k..]
    {
      EscapedMatchesItself(text[k..], s, "%");
      if s <= text[k..] {
        PercentMatchesAll(text[k..][|s|..]);
      }
    }
  }

  lemma PatternIsWellEscaped(s: string)
    ensures WellEscaped("%" + EscapeText(s) + "%")
  {
    SuccessiveIsPerCharacter(s);
    EscapeEachIsWellEscaped(s, "%");
    assert "%" + EscapeText(s) + "%" == "%" + (EscapeEach(s) + "%");
    assert ("%" + (EscapeEach(s) + "%"))[1..] == EscapeEach(s) + "%";
  }

  lemma {:induction false} LStripCuts(s: string, space: char -> bool)
    ensures |LStrip(s, space)| <= |s| && s[|s| - |LStrip(s, space)|..] == LStrip(s, space)
    ensures forall i | 0 <= i < |s| - |LStrip(s, space)| :: space(s[i])
    ensures LStrip(s, space) != "" ==> !space(LStrip(s, space)[0])
  {
    if s != "" && space(s[0]) {
      LStripCuts(s[1..], space);
      forall i | 0 <= i < |s| - |LStrip(s, space)|
        ensures space(s[i])
      {
        assert i > 0 ==> s[i] == s[1..][i - 1];
      }
    }
  }

  lemma {:induction false} RStripCuts(s: string, space: char -> bool)
    ensures RStrip(s, space) <= s
    ensures forall i | |RStrip(s, space)| <= i < |s| :: space(s[i])
    ensures RStrip(s, space) != "" ==> !space(RStrip(s, space)[|RStrip(s, space)| - 1])
  {
    if s != "" && space(s[|s| - 1]) {
      RStripCuts(s[..|s| - 1], space);
    }
  }

  /** `t` is `s` from position `k` on, with nothing but white space around it. */
  predicate CutOut(s: string, t: string, k: nat, space: char -> bool) {
    && k + |t| <= |s| && s[k..k + |t|] == t
    && (forall i | 0 <= i < k :: space(s[i]))
    && (forall i | k + |t| <= i < |s| :: space(s[i]))
  }

  /** `strip` removes exactly the white space at both ends. */
  lemma StripCuts(s: string, space: char -> bool)
    ensures var t := Strip(s, space);
            && (t != "" ==> !space(t[0]) && !space(t[|t| - 1]))
            && exists k: nat :: CutOut(s, t, k, space)
  {
    var l := LStrip(s, space);
    LStripCuts(s, space);
    RStripCuts(l, space);
    var t := Strip(s, space);
    var k := |s| - |l|;
    assert s[k..k + |t|] == l[..|t|] == t;
    forall i | k + |t| <= i < |s|
      ensures space(s[i])
    {
      assert s[i] == l[i - k];
    }
    assert CutOut(s, t, k, space);
  }

  /** The keyword filter as a whole: no filter when nothing is left of the keyword, and
      otherwise a title passes exactly when it contains the stripped, lowered keyword. */
  lemma KeywordSearch(keyword: Option<string>, title: string, space: char -> bool, lower: string -> string)
    ensures var pattern := EscapeLike(keyword, space, lower);
            && (pattern.None? <==> keyword.None? || lower(Strip(keyword.value, space)) == "")
            && (pattern.Some? ==>
                  && WellEscaped(pattern.value)
                  && (Like(title, pattern.value) <==> Contains(title, lower(Strip(keyword.value, space)))))
  {
    if keyword.Some? {
      PatternIsSubstring(title, lower(Strip(keyword.value, space)));
      PatternIsWellEscaped(lower(Strip(keyword.value, space)));
    }
  }
}
