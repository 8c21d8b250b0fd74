/** Trimming and white space. */
module Text {

  /** Whose notion of white space: Go's unicode.IsSpace, \s of its regexp, or ECMAScript's trim. */
  datatype Language = Go | Regexp | Js

  predicate IsSpace(c: char, lang: Language) {
    if lang.Regexp? then c == ' ' || c == '\t' || c == '\n' || c == '\U{000C}' || c == '\r'
    else
      || '\t' <= c <= '\r' || c == ' ' || (c == '\U{0085}' && lang.Go?) || c == '\U{00A0}' || c == '\U{1680}'
      || '\U{2000}' <= c <= '\U{200A}' || c == '\U{2028}' || c == '\U{2029}' || c == '\U{202F}'
      || c == '\U{205F}' || c == '\U{3000}' || (c == '\U{FEFF}' && lang.Js?)
  }

  function TrimLeft(s: string, lang: Language): string {
    if s == [] || !IsSpace(s[0], lang) then s else TrimLeft(s[1..], lang)
  }

  function TrimRight(s: string, lang: Language): string {
    if s == [] || !IsSpace(s[|s| - 1], lang) then s else TrimRight(s[..|s| - 1], lang)
  }

  function Trim(s: string, lang: Language): string { TrimRight(TrimLeft(s, lang), lang) }

  /** Nothing to trim at either end. */
  predicate Trimmed(s: string, lang: Language) { s == [] || (!IsSpace(s[0], lang) && !IsSpace(s[|s| - 1], lang)) }

  /** The characters that are not white space. */
  function Visible(s: string, lang: Language): string {
    if s == [] then [] else (if IsSpace(s[0], lang) then [] else [s[0]]) + Visible(s[1..], lang)
  }

  lemma {:induction false} VisibleConcat(a: string, b: string, lang: Language)
    ensures Visible(a + b, lang) == Visible(a, lang) + Visible(b, lang)
  {
    if a == [] {
      assert a + b == b;
    } else {
      var head, rest := Visible([a[0]], lang), a[1..] + b;
      calc {
        Visible(a + b, lang);
        { VisibleFirst(a[0], rest, lang); assert a + b == [a[0]] + rest; }
        head + Visible(rest, lang);
        { VisibleConcat(a[1..], b, lang); }
        head + Visible(a[1..], lang) + Visible(b, lang);
        { VisibleFirst(a[0], a[1..], lang); assert a == [a[0]] + a[1..]; }
        Visible(a, lang) + Visible(b, lang);
      }
    }
  }

  lemma VisibleFirst(c: char, rest: string, lang: Language)
    ensures Visible([c] + rest, lang) == Visible([c], lang) + Visible(rest, lang)
  {
  }

  lemma {:induction false} TrimLeftKeeps(s: string, lang: Language)
    ensures var t := TrimLeft(s, lang);
            && (t == [] || !IsSpace(t[0], lang)) && Visible(t, lang) == Visible(s, lang) && |t| <= |s|
            && t == s[|s| - |t|..]
  {
    if s != [] && IsSpace(s[0], lang) { TrimLeftKeeps(s[1..], lang); }
  }

  lemma {:induction false} TrimRightKeeps(s: string, lang: Language)
    ensures var t := TrimRight(s, lang);
            && (t == [] || !IsSpace(t[|t| - 1], lang)) && Visible(t, lang) == Visible(s, lang) && |t| <= |s|
            && t == s[..|t|]
  {
    if s != [] && IsSpace(s[|s| - 1], lang) {
      TrimRightKeeps(s[..|s| - 1], lang);
      VisibleConcat(s[..|s| - 1], [s[|s| - 1]], lang);
      assert s == s[..|s| - 1] + [s[|s| - 1]];
    }
  }

  /** Trimming cleans both ends, loses no visible character, and is done after one pass. */
  lemma TrimCleans(s: string, lang: Language)
    ensures Trimmed(Trim(s, lang), lang)
    ensures Visible(Trim(s, lang), lang) == Visible(s, lang)
    ensures Trimmed(s, lang) ==> Trim(s, lang) == s
    ensures Trim(Trim(s, lang), lang) == Trim(s, lang)
  {
    TrimLeftKeeps(s, lang);
    TrimRightKeeps(TrimLeft(s, lang), lang);
  }

  /** What is trimmed is white space around a middle part. */
  lemma TrimBounds(s: string, lang: Language) returns (a: nat, b: nat)
    ensures a <= b <= |s| && Trim(s, lang) == s[a..b]
    ensures forall i :: 0 <= i < a || b <= i < |s| ==> IsSpace(s[i], lang)
  {
    var left := TrimLeft(s, lang);
    TrimLeftKeeps(s, lang);
    TrimmedLeft(s, lang);
    TrimRightKeeps(left, lang);
    TrimmedRight(left, lang);
    a := |s| - |left|;
    b := a + |Trim(s, lang)|;
    forall i | b <= i < |s| ensures IsSpace(s[i], lang) { assert s[i] == left[i - a]; }
  }

  lemma {:induction false} TrimmedLeft(s: string, lang: Language)
    ensures |TrimLeft(s, lang)| <= |s| && forall i :: 0 <= i < |s| - |TrimLeft(s, lang)| ==> IsSpace(s[i], lang)
  {
    if s != [] && IsSpace(s[0], lang) { TrimmedLeft(s[1..], lang); }
  }

  lemma {:induction false} TrimmedRight(s: string, lang: Language)
    ensures |TrimRight(s, lang)| <= |s| && forall i :: |TrimRight(s, lang)| <= i < |s| ==> IsSpace(s[i], lang)
  {
    if s != [] && IsSpace(s[|s| - 1], lang) { TrimmedRight(s[..|s| - 1], lang); }
  }

  lemma {:induction false} TrimDropsLast(s: string, lang: Language)
    requires s != [] && IsSpace(s[|s| - 1], lang)
    ensures Trim(s, lang) == Trim(s[..|s| - 1], lang)
  {
    if |s| == 1 {
      assert s[1..] == s[..0];
    } else if IsSpace(s[0], lang) {
      TrimDropsLast(s[1..], lang);
      assert s[1..][..|s| - 2] == s[..|s| - 1][1..];
    }
  }

  /** White space around a part makes no difference to what trimming leaves of it. */
  lemma {:induction false} TrimMiddle(s: string, a: nat, b: nat, lang: Language)
    requires a <= b <= |s| && forall i :: 0 <= i < a || b <= i < |s| ==> IsSpace(s[i], lang)
    ensures Trim(s, lang) == Trim(s[a..b], lang)
  {
    if a > 0 {
      TrimMiddle(s[1..], a - 1, b - 1, lang);
      assert s[1..][a - 1..b - 1] == s[a..b];
    } else if b < |s| {
      TrimDropsLast(s, lang);
      TrimMiddle(s[..|s| - 1], a, b, lang);
      assert s[..|s| - 1][a..b] == s[a..b];
    } else {
      assert s[a..b] == s;
    }
  }
}
