/**
 Text made speakable before it goes to the phoneme voice: notation to words, leftover clutter and
 surplus white space removed.  A text is a sequence of code points.
 */
module SpeechText {
  import opened Common
  import opened Text

  // ---- The tables ----

  const SUPERSCRIPTS := "⁰¹²³⁴⁵⁶⁷⁸⁹ⁿ"
  const GREEK := "ΘθΩωΣ∑ΠπΔδλαβγμµΦφ"
  const OPERATORS := "√∞≤≥≠≈≡→⇒∈×·÷±=^*%_"
  const CLUTTER := "()[]{}|\\~`#@"

  function Pick(en: bool, english: string, vietnamese: string): string { if en then english else vietnamese }

  function SuperscriptDigit(c: char): string {
    match c
    case '⁰' => "0"
    case '¹' => "1"
    case '⁴' => "4"
    case '⁵' => "5"
    case '⁶' => "6"
    case '⁷' => "7"
    case '⁸' => "8"
    case '⁹' => "9"
    case _ => ""
  }

  function Superscript(c: char, en: bool): string {
    match c
    case '²' => Pick(en, " squared", " bình phương")
    case '³' => Pick(en, " cubed", " lập phương")
    case 'ⁿ' => Pick(en, " to the n", " mũ n")
    case _ => if SuperscriptDigit(c) == "" then "" else Pick(en, " to the power ", " mũ ") + SuperscriptDigit(c)
  }

  function Greek(c: char): string {
    match c
    case 'Θ' => "theta"
    case 'θ' => "theta"
    case 'Ω' => "omega"
    case 'ω' => "omega"
    case 'Σ' => " sigma "
    case '∑' => " sigma "
    case 'Π' => "pi"
    case 'π' => "pi"
    case 'Δ' => "delta"
    case 'δ' => "delta"
    case 'λ' => "lambda"
    case 'α' => "alpha"
    case 'β' => "beta"
    case 'γ' => "gamma"
    case 'μ' => "mu"
    case 'µ' => "mu"
    case 'Φ' => "phi"
    case 'φ' => "phi"
    case _ => [c]
  }

  function Operator(c: char, en: bool): string {
    match c
    case '√' => Pick(en, " square root of ", " căn ")
    case '∞' => Pick(en, " infinity ", " vô cùng ")
    case '≤' => Pick(en, " less than or equal to ", " nhỏ hơn hoặc bằng ")
    case '≥' => Pick(en, " greater than or equal to ", " lớn hơn hoặc bằng ")
    case '≠' => Pick(en, " not equal to ", " khác ")
    case '≈' => Pick(en, " approximately ", " xấp xỉ ")
    case '≡' => Pick(en, " equals ", " bằng ")
    case '→' => Pick(en, " leads to ", " dẫn đến ")
    case '⇒' => Pick(en, " implies ", " suy ra ")
    case '∈' => Pick(en, " in ", " thuộc ")
    case '×' => Pick(en, " times ", " nhân ")
    case '·' => Pick(en, " times ", " nhân ")
    case '÷' => Pick(en, " divided by ", " chia ")
    case '±' => Pick(en, " plus or minus ", " cộng trừ ")
    case '=' => Pick(en, " equals ", " bằng ")
    case '^' => Pick(en, " to the power ", " mũ ")
    case '*' => Pick(en, " times ", " nhân ")
    case '%' => Pick(en, " percent ", " phần trăm ")
    case '_' => " "
    case _ => [c]
  }

  // ---- The three passes over single characters ----

  datatype Pass = Superscripts | Symbols | Leftovers | AllAtOnce

  predicate Rewrites(p: Pass, c: char) {
    match p
    case Superscripts => c in SUPERSCRIPTS
    case Symbols => c in GREEK || c in OPERATORS
    case Leftovers => c in CLUTTER
    case AllAtOnce => c in SUPERSCRIPTS || c in GREEK || c in OPERATORS || c in CLUTTER
  }

  /** What a pass puts in place of one character. */
  function Said(p: Pass, en: bool, c: char): string {
    if !Rewrites(p, c) then [c]
    else if c in SUPERSCRIPTS then Superscript(c, en)
    else if c in GREEK then Greek(c)
    else if c in OPERATORS then Operator(c, en)
    else " "
  }

  /** Letters, digits and spaces: what the words are made of, and nothing any pass rewrites. */
  predicate Safe(c: char) {
    || 'a' <= c <= 'z' || 'A' <= c <= 'Z' || '0' <= c <= '9' || c == ' '
    || ('\U{00C0}' <= c <= '\U{01B0}' && c != '×' && c != '÷') || '\U{1EA0}' <= c <= '\U{1EF9}'
  }

  predicate AllSafe(s: string) { forall i :: 0 <= i < |s| ==> Safe(s[i]) }

  lemma SafeIsNoSuperscript(c: char)
    requires Safe(c)
    ensures c !in SUPERSCRIPTS && c !in CLUTTER
  {
  }

  lemma SafeIsNoSymbol(c: char)
    requires Safe(c)
    ensures c !in GREEK && c !in OPERATORS
  {
  }

  lemma DigitWordsAreSafe()
    ensures AllSafe(" squared") && AllSafe(" cubed") && AllSafe(" to the n") && AllSafe(" to the power ")
    ensures AllSafe(" bình phương") && AllSafe(" lập phương") && AllSafe(" mũ n") && AllSafe(" mũ ")
  {
  }

  lemma SuperscriptIsSafe(c: char, en: bool)
    requires c in SUPERSCRIPTS
    ensures AllSafe(Superscript(c, en))
  {
    DigitWordsAreSafe();
    DigitIsSafe(c);
  }

  lemma DigitIsSafe(c: char)
    ensures AllSafe(SuperscriptDigit(c))
  {
  }

  lemma GreekIsSafe(c: char)
    requires c in GREEK
    ensures AllSafe(Greek(c))
  {
    GreekWordsAreSafe();
  }

  lemma GreekWordsAreSafe()
    ensures AllSafe("theta") && AllSafe("omega") && AllSafe(" sigma ") && AllSafe("pi") && AllSafe("delta")
    ensures AllSafe("lambda") && AllSafe("alpha") && AllSafe("beta")
    ensures AllSafe("gamma") && AllSafe("mu") && AllSafe("phi")
  {
  }

  lemma EnglishWordsAreSafe()
    ensures AllSafe(" square root of ") && AllSafe(" infinity ") && AllSafe(" less than or equal to ")
    ensures AllSafe(" greater than or equal to ") && AllSafe(" not equal to ")
  {
  }

  lemma MoreEnglishWordsAreSafe()
    ensures AllSafe(" approximately ") && AllSafe(" equals ") && AllSafe(" leads to ")
    ensures AllSafe(" implies ") && AllSafe(" in ")
    ensures AllSafe(" times ") && AllSafe(" divided by ") && AllSafe(" plus or minus ") && AllSafe(" to the power ")
    ensures AllSafe(" percent ") && AllSafe(" ")
  {
  }

  lemma VietnameseWordsAreSafe()
    ensures AllSafe(" căn ") && AllSafe(" vô cùng ")
    ensures AllSafe(" nhỏ hơn hoặc bằng ") && AllSafe(" lớn hơn hoặc bằng ")
    ensures AllSafe(" khác ") && AllSafe(" xấp xỉ ") && AllSafe(" bằng ") && AllSafe(" dẫn đến ")
  {
  }

  lemma MoreVietnameseWordsAreSafe()
    ensures AllSafe(" suy ra ") && AllSafe(" thuộc ") && AllSafe(" nhân ")
    ensures AllSafe(" chia ") && AllSafe(" cộng trừ ")
    ensures AllSafe(" mũ ") && AllSafe(" phần trăm ") && AllSafe(" ")
  {
  }

  lemma OperatorIsSafe(c: char, en: bool)
    requires c in OPERATORS
    ensures AllSafe(Operator(c, en))
  {
    if en {
      EnglishWordsAreSafe();
      MoreEnglishWordsAreSafe();
    } else {
      VietnameseWordsAreSafe();
      MoreVietnameseWordsAreSafe();
    }
  }

  /** The words of a pass are safe, and every other character stays. */
  lemma SaidIsSafe(p: Pass, en: bool, c: char)
    ensures if Rewrites(p, c) then AllSafe(Said(p, en, c)) else Said(p, en, c) == [c]
  {
    if Rewrites(p, c) {
      if c in SUPERSCRIPTS {
        SuperscriptIsSafe(c, en);
      } else if c in GREEK {
        GreekIsSafe(c);
      } else if c in OPERATORS {
        OperatorIsSafe(c, en);
      }
    }
  }

  // ---- A pass over a text ----

  function Rewritten(p: Pass, en: bool, s: string): string {
    if s == [] then [] else Said(p, en, s[0]) + Rewritten(p, en, s[1..])
  }

  lemma RewrittenFirst(p: Pass, en: bool, c: char, rest: string)
    ensures Rewritten(p, en, [c] + rest) == Said(p, en, c) + Rewritten(p, en, rest)
  {
  }

  lemma {:induction false} RewrittenConcat(p: Pass, en: bool, a: string, b: string)
    ensures Rewritten(p, en, a + b) == Rewritten(p, en, a) + Rewritten(p, en, b)
  {
    if a == [] {
      assert a + b == b;
    } else {
      var rest := a[1..] + b;
      calc {
        Rewritten(p, en, a + b);
        { assert a + b == [a[0]] + rest; RewrittenFirst(p, en, a[0], rest); }
        Said(p, en, a[0]) + Rewritten(p, en, rest);
        { RewrittenConcat(p, en, a[1..], b); }
        Said(p, en, a[0]) + Rewritten(p, en, a[1..]) + Rewritten(p, en, b);
        { assert a == [a[0]] + a[1..]; RewrittenFirst(p, en, a[0], a[1..]); }
        Rewritten(p, en, a) + Rewritten(p, en, b);
      }
    }
  }

  predicate Untouched(p: Pass, s: string) { forall i :: 0 <= i < |s| ==> !Rewrites(p, s[i]) }

  lemma {:induction false} UntouchedStays(p: Pass, en: bool, s: string)
    requires Untouched(p, s)
    ensures Rewritten(p, en, s) == s
  {
    if s != [] {
      SaidIsSafe(p, en, s[0]);
      UntouchedStays(p, en, s[1..]);
      assert s == [s[0]] + s[1..];
    }
  }

  lemma SafeIsUntouched(p: Pass, s: string)
    requires AllSafe(s)
    ensures Untouched(p, s)
  {
    forall i | 0 <= i < |s| ensures !Rewrites(p, s[i]) {
      SafeIsNoSuperscript(s[i]);
      SafeIsNoSymbol(s[i]);
    }
  }

  /** What one pass says is left alone by every other, so one table does the work of all three. */
  lemma {:induction false} PassesFuse(en: bool, s: string)
    ensures Rewritten(Leftovers, en, Rewritten(Symbols, en, Rewritten(Superscripts, en, s)))
            == Rewritten(AllAtOnce, en, s)
  {
    if s != [] {
      var c, rest := s[0], s[1..];
      var first := Said(Superscripts, en, c);
      var second := Rewritten(Symbols, en, first);
      PassesFuse(en, rest);
      RewrittenConcat(Symbols, en, first, Rewritten(Superscripts, en, rest));
      RewrittenConcat(Leftovers, en, second, Rewritten(Symbols, en, Rewritten(Superscripts, en, rest)));
      CharacterFuses(en, c);
    }
  }

  lemma RewrittenOne(p: Pass, en: bool, c: char)
    ensures Rewritten(p, en, [c]) == Said(p, en, c)
  {
  }

  lemma SuperscriptsAreNoGreek(c: char)
    requires c in SUPERSCRIPTS
    ensures c !in GREEK && c !in CLUTTER
  {
  }

  lemma SuperscriptsAreNoOperators(c: char)
    requires c in SUPERSCRIPTS
    ensures c !in OPERATORS
  {
  }

  lemma GreekCharacters(c: char)
    requires c in GREEK
    ensures c > '~'
  {
  }

  lemma GreekIsNoClutter(c: char)
    requires c in GREEK
    ensures c !in CLUTTER
  {
    GreekCharacters(c);
    if c in CLUTTER { ClutterCharacters(c); }
  }

  lemma OperatorCharacters(c: char)
    requires c in OPERATORS
    ensures c > '~' || c == '=' || c == '^' || c == '*' || c == '%' || c == '_'
  {
  }

  lemma ClutterCharacters(c: char)
    requires c in CLUTTER
    ensures c <= '~' && c != '=' && c != '^' && c != '*' && c != '%' && c != '_'
  {
  }

  lemma OperatorIsNoClutter(c: char)
    requires c in OPERATORS
    ensures c !in CLUTTER
  {
    OperatorCharacters(c);
    if c in CLUTTER { ClutterCharacters(c); }
  }

  lemma CharacterFuses(en: bool, c: char)
    ensures var second := Rewritten(Symbols, en, Said(Superscripts, en, c));
            Rewritten(Leftovers, en, second) == Said(AllAtOnce, en, c)
  {
    if c in SUPERSCRIPTS { SuperscriptsAreNoGreek(c); SuperscriptsAreNoOperators(c); }
    if c in GREEK { GreekIsNoClutter(c); }
    if c in OPERATORS { OperatorIsNoClutter(c); }
    var word := Said(AllAtOnce, en, c);
    SaidIsSafe(AllAtOnce, en, c);
    RewrittenOne(Symbols, en, c);
    RewrittenOne(Leftovers, en, c);
    if Rewrites(AllAtOnce, c) {
      SafeIsUntouched(Symbols, word);
      SafeIsUntouched(Leftovers, word);
      UntouchedStays(Symbols, en, word);
      UntouchedStays(Leftovers, en, word);
    }
  }

  /** After the passes nothing is left that any of them rewrites. */
  lemma {:induction false} NothingLeftToRewrite(en: bool, s: string)
    ensures Untouched(AllAtOnce, Rewritten(AllAtOnce, en, s))
  {
    if s != [] {
      NothingLeftToRewrite(en, s[1..]);
      SaidIsSafe(AllAtOnce, en, s[0]);
      if Rewrites(AllAtOnce, s[0]) { SafeIsUntouched(AllAtOnce, Said(AllAtOnce, en, s[0])); }
    }
  }

  // ---- Complexity notation ----

  predicate IsBigO(c: char) { c == 'O' || c == 'Θ' || c == 'Ω' }

  predicate IsParen(c: char) { c == '(' || c == ')' }

  /** The first parenthesis from i on. */
  function Paren(text: string, i: nat): (k: nat)
    requires i <= |text|
    ensures i <= k <= |text| && (k < |text| ==> IsParen(text[k]))
    ensures forall j :: i <= j < k ==> !IsParen(text[j])
    decreases |text| - i
  {
    if i == |text| || IsParen(text[i]) then i else Paren(text, i + 1)
  }

  const MAX_INNER := 48

  /** The end of the notation that begins at p, if one does. */
  function Call(text: string, p: nat): (end: Option<nat>)
    ensures end.Some? ==> p + 3 < end.value <= |text|
  {
    if p + 2 <= |text| && IsBigO(text[p]) && text[p + 1] == '(' then
      var k := Paren(text, p + 2);
      if p + 2 < k < |text| && text[k] == ')' && |Trim(text[p + 2..k], Regexp)| <= MAX_INNER then Some(k + 1) else None
    else None
  }

  /**
   The regular expression as it reads: a letter, an opening parenthesis, white space, 1 to 48
   characters other than parentheses in [a, b), white space, a closing parenthesis.
   */
  ghost predicate Matches(text: string, p: nat, q: nat, a: nat, b: nat) {
    && p + 2 <= a < b < q <= |text| && b - a <= 48
    && (text[p] == 'O' || text[p] == 'Θ' || text[p] == 'Ω') && text[p + 1] == '('
    && (forall i :: p + 2 <= i < a || b <= i < q - 1 ==> IsSpace(text[i], Regexp))
    && (forall i :: a <= i < b ==> !IsParen(text[i]))
    && text[q - 1] == ')'
  }

  lemma ParenIsFirst(text: string, i: nat, k: nat)
    requires i <= k < |text| && IsParen(text[k]) && forall j :: i <= j < k ==> !IsParen(text[j])
    ensures Paren(text, i) == k
  {
  }

  lemma PartOfPart(s: string, from: nat, to: nat, x: nat, y: nat)
    requires from <= to <= |s| && x <= y <= to - from
    ensures s[from..to][x..y] == s[from + x..from + y]
  {
    forall i | 0 <= i < y - x ensures s[from..to][x..y][i] == s[from + x..from + y][i] {
      assert s[from..to][x + i] == s[from + x + i];
    }
  }

  lemma SpaceAround(text: string, p: nat, q: nat, a: nat, b: nat, lang: Language)
    requires Matches(text, p, q, a, b) && !lang.Js?
    ensures var inside := text[p + 2..q - 1];
            forall i :: 0 <= i < a - (p + 2) || b - (p + 2) <= i < |inside| ==> IsSpace(inside[i], lang)
  {
  }

  lemma MatchTrims(text: string, p: nat, q: nat, a: nat, b: nat, lang: Language)
    requires Matches(text, p, q, a, b) && !lang.Js?
    ensures Trim(text[a..b], lang) == Trim(text[p + 2..q - 1], lang)
  {
    PartOfPart(text, p + 2, q - 1, a - (p + 2), b - (p + 2));
    SpaceAround(text, p, q, a, b, lang);
    TrimMiddle(text[p + 2..q - 1], a - (p + 2), b - (p + 2), lang);
  }

  /** However the expression divides the inside, it matches the same text and reads the same words. */
  lemma MatchIsCall(text: string, p: nat, q: nat, a: nat, b: nat)
    requires Matches(text, p, q, a, b)
    ensures Call(text, p) == Some(q)
    ensures Trim(text[a..b], Go) == Trim(text[p + 2..q - 1], Go)
  {
    MatchTrims(text, p, q, a, b, Go);
    MatchTrims(text, p, q, a, b, Regexp);
    ParenIsFirst(text, p + 2, q - 1);
    TrimLeftKeeps(text[a..b], Regexp);
    TrimRightKeeps(TrimLeft(text[a..b], Regexp), Regexp);
  }

  /** And it matches wherever the scan finds a notation. */
  lemma CallMatches(text: string, p: nat) returns (a: nat, b: nat)
    requires Call(text, p).Some?
    ensures Matches(text, p, Call(text, p).value, a, b)
  {
    var k := Paren(text, p + 2);
    var inside := text[p + 2..k];
    var x, y := TrimBounds(inside, Regexp);
    if x == y { x, y := 0, 1; }
    a, b := p + 2 + x, p + 2 + y;
    forall i | p + 2 <= i < a || b <= i < k ensures IsSpace(text[i], Regexp) {
      assert inside[i - (p + 2)] == text[i];
    }
  }

  function BigOWords(name: char, inner: string, en: bool): string {
    var word := if name == 'Θ' then "theta" else if name == 'Ω' then "omega" else Pick(en, "Big O", "O lớn");
    " " + word + Pick(en, " of ", " của ") + inner + " "
  }

  /** The text from p on with every notation read out, left to right. */
  function ReadOut(text: string, en: bool, p: nat): string
    requires p <= |text|
    decreases |text| - p
  {
    if p == |text| then ""
    else if Call(text, p).Some? then
      var q := Call(text, p).value;
      BigOWords(text[p], Trim(text[p + 2..q - 1], Go), en) + ReadOut(text, en, q)
    else [text[p]] + ReadOut(text, en, p + 1)
  }

  /** What is written for the position p, and where to go on. */
  function ReadAt(text: string, en: bool, p: nat): (r: (string, nat))
    requires p < |text|
    ensures p < r.1 <= |text|
    ensures ReadOut(text, en, p) == r.0 + ReadOut(text, en, r.1)
  {
    if Call(text, p).Some? then
      var q := Call(text, p).value;
      (BigOWords(text[p], Trim(text[p + 2..q - 1], Go), en), q)
    else ([text[p]], p + 1)
  }

  lemma {:induction false} NothingToReadOut(text: string, en: bool, p: nat)
    requires p <= |text| && '(' !in text
    ensures ReadOut(text, en, p) == text[p..]
    decreases |text| - p
  {
    if p < |text| {
      NothingToReadOut(text, en, p + 1);
      assert Call(text, p).None?;
    }
  }

  // ---- Runs of blanks ----

  predicate Blank(c: char) { c == ' ' || c == '\t' }

  function BlankRun(s: string): (n: nat)
    ensures n <= |s| && (n < |s| ==> !Blank(s[n])) && forall i :: 0 <= i < n ==> Blank(s[i])
  {
    if s == [] || !Blank(s[0]) then 0 else 1 + BlankRun(s[1..])
  }

  /** Two or more blanks become one space; a single tab stays. */
  function Collapsed(s: string): string {
    if s == [] then []
    else if BlankRun(s) >= 2 then " " + Collapsed(s[BlankRun(s)..])
    else [s[0]] + Collapsed(s[1..])
  }

  predicate NoRuns(s: string) { forall i :: 0 <= i < |s| - 1 ==> !(Blank(s[i]) && Blank(s[i + 1])) }

  lemma {:induction false} CollapsedHasNoRuns(s: string)
    ensures NoRuns(Collapsed(s))
    ensures Collapsed(s) == [] <==> s == []
    ensures s != [] && !Blank(s[0]) ==> !Blank(Collapsed(s)[0])
  {
    if s != [] {
      var n := BlankRun(s);
      CollapsedHasNoRuns(if n >= 2 then s[n..] else s[1..]);
      if n == 1 && |s| > 1 { assert !Blank(s[1..][0]); }
      if n >= 2 && n < |s| { assert !Blank(s[n..][0]); }
    }
  }

  lemma {:induction false} NothingToCollapse(s: string)
    requires NoRuns(s)
    ensures Collapsed(s) == s
  {
    if s != [] {
      if |s| > 1 { assert !(Blank(s[0]) && Blank(s[0 + 1])); }
      NothingToCollapse(s[1..]);
      assert s == [s[0]] + s[1..];
    }
  }

  lemma {:induction false} CollapsedIsUntouched(p: Pass, s: string)
    requires Untouched(p, s)
    ensures Untouched(p, Collapsed(s))
  {
    if s != [] {
      CollapsedIsUntouched(p, if BlankRun(s) >= 2 then s[BlankRun(s)..] else s[1..]);
      SpaceIsUntouched(p);
    }
  }

  lemma {:induction false} CollapsedKeepsVisible(s: string)
    ensures Visible(Collapsed(s), Go) == Visible(s, Go)
  {
    if s != [] {
      var n := BlankRun(s);
      if n >= 2 {
        CollapsedKeepsVisible(s[n..]);
        BlanksAreInvisible(s, n);
        VisibleFirst(' ', Collapsed(s[n..]), Go);
      } else {
        CollapsedKeepsVisible(s[1..]);
        VisibleFirst(s[0], Collapsed(s[1..]), Go);
      }
    }
  }

  lemma SpaceIsUntouched(p: Pass)
    ensures !Rewrites(p, ' ')
  {
  }

  lemma {:induction false} BlanksAreInvisible(s: string, n: nat)
    requires n <= |s| && forall i :: 0 <= i < n ==> Blank(s[i])
    ensures Visible(s, Go) == Visible(s[n..], Go)
  {
    if n > 0 {
      BlanksAreInvisible(s[1..], n - 1);
      assert s[1..][n - 1..] == s[n..];
    } else {
      assert s[0..] == s;
    }
  }

  // ---- The whole normalisation ----

  function Spoken(text: string, en: bool): string { Rewritten(AllAtOnce, en, ReadOut(text, en, 0)) }

  function Normalized(text: string, en: bool): string { Trim(Collapsed(Spoken(text, en)), Go) }

  /** Nothing to rewrite, no two blanks in a row, no outer white space. */
  predicate Clean(s: string) { Untouched(AllAtOnce, s) && NoRuns(s) && Trimmed(s, Go) }

  lemma NoNotation(text: string)
    requires Untouched(AllAtOnce, text)
    ensures '(' !in text
  {
  }

  lemma OutputIsClean(text: string, en: bool)
    ensures Clean(Normalized(text, en))
  {
    var spoken := Spoken(text, en);
    NothingLeftToRewrite(en, ReadOut(text, en, 0));
    CollapsedHasNoRuns(spoken);
    CollapsedIsUntouched(AllAtOnce, spoken);
    TrimCleans(Collapsed(spoken), Go);
    var a, b := TrimBounds(Collapsed(spoken), Go);
    PartIsClean(Collapsed(spoken), a, b);
  }

  lemma PartIsClean(s: string, a: nat, b: nat)
    requires a <= b <= |s| && Untouched(AllAtOnce, s) && NoRuns(s)
    ensures Untouched(AllAtOnce, s[a..b]) && NoRuns(s[a..b])
  {
  }

  /** Normalising changes a text exactly when there is something to clean. */
  lemma FixedIffClean(text: string, en: bool)
    ensures Normalized(text, en) == text <==> Clean(text)
  {
    OutputIsClean(text, en);
    if Clean(text) {
      NoNotation(text);
      NothingToReadOut(text, en, 0);
      assert text[0..] == text;
      UntouchedStays(AllAtOnce, en, text);
      NothingToCollapse(text);
      TrimCleans(text, Go);
    }
  }

  /** For either language, and even across languages. */
  lemma NormalizingIsIdempotent(text: string, en: bool, again: bool)
    ensures Normalized(Normalized(text, en), again) == Normalized(text, en)
  {
    OutputIsClean(text, en);
    FixedIffClean(Normalized(text, en), again);
  }

  /** White space aside, the output is the notation read out and every other character kept in order. */
  lemma NothingVisibleIsLost(text: string, en: bool)
    ensures Visible(Normalized(text, en), Go) == Visible(Spoken(text, en), Go)
    ensures Untouched(AllAtOnce, text) ==> Visible(Normalized(text, en), Go) == Visible(text, Go)
  {
    CollapsedKeepsVisible(Spoken(text, en));
    TrimCleans(Collapsed(Spoken(text, en)), Go);
    if Untouched(AllAtOnce, text) {
      NoNotation(text);
      NothingToReadOut(text, en, 0);
      assert text[0..] == text;
      UntouchedStays(AllAtOnce, en, text);
    }
  }

  // ---- What is kept of the text as given ----

  /** The characters of s in order are some of those of t. */
  predicate Within(s: string, t: string) {
    s == [] || (t != [] && ((s[0] == t[0] && Within(s[1..], t[1..])) || Within(s, t[1..])))
  }

  lemma {:induction false} WithinConcat(s: string, t: string, s2: string, t2: string)
    requires Within(s, t) && Within(s2, t2)
    ensures Within(s + s2, t + t2)
    decreases |t|
  {
    if t == [] {
      assert s + s2 == s2 && t + t2 == t2;
    } else {
      assert (t + t2)[1..] == t[1..] + t2;
      if s != [] && s[0] == t[0] && Within(s[1..], t[1..]) {
        WithinConcat(s[1..], t[1..], s2, t2);
        assert (s + s2)[1..] == s[1..] + s2;
      } else {
        WithinConcat(s, t[1..], s2, t2);
      }
    }
  }

  lemma NothingIsWithin(t: string)
    ensures Within("", t)
  {
  }

  const REPLACED := SUPERSCRIPTS + GREEK + OPERATORS + CLUTTER

  /** A text without its white space and the characters of a table. */
  predicate Plain(c: char, table: string) { !IsSpace(c, Go) && c !in table }

  ghost predicate ListsReplaced(table: string) { forall c :: Rewrites(AllAtOnce, c) ==> c in table }


  function Plains(s: string, table: string): string {
    if s == [] then [] else (if Plain(s[0], table) then [s[0]] else []) + Plains(s[1..], table)
  }

  /** The plain characters from p on; of a notation, those between the parentheses. */
  function Kept(text: string, p: nat, table: string): string
    requires p <= |text|
    decreases |text| - p
  {
    if p == |text| then ""
    else
      match Call(text, p)
      case None => Plains([text[p]], table) + Kept(text, p + 1, table)
      case Some(q) => Plains(text[p + 2..q - 1], table) + Kept(text, q, table)
  }

  lemma PlainsFirst(c: char, rest: string, table: string)
    ensures Plains([c] + rest, table) == (if Plain(c, table) then [c] else []) + Plains(rest, table)
  {
    assert ([c] + rest)[1..] == rest;
  }

  lemma SpaceIsNotPlain(c: char, table: string)
    requires IsSpace(c, Go)
    ensures !Plain(c, table)
  {
  }

  lemma {:induction false} PlainsAreVisible(s: string, table: string)
    ensures Plains(s, table) == Plains(Visible(s, Go), table)
  {
    if s != [] {
      PlainsAreVisible(s[1..], table);
      assert s == [s[0]] + s[1..];
      PlainsFirst(s[0], s[1..], table);
      if IsSpace(s[0], Go) {
        SpaceIsNotPlain(s[0], table);
        assert Visible(s, Go) == Visible(s[1..], Go);
        assert [] + Plains(s[1..], table) == Plains(s[1..], table);
      } else {
        PlainsFirst(s[0], Visible(s[1..], Go), table);
      }
    }
  }

  lemma PlainOneIsSaid(c: char, en: bool, table: string)
    requires ListsReplaced(table)
    ensures Within(if Plain(c, table) then [c] else [], Visible(Said(AllAtOnce, en, c), Go))
  {
    if Plain(c, table) {
      SaidIsSafe(AllAtOnce, en, c);
      assert Visible([c], Go) == [c];
      assert Within([c][1..], [c][1..]);
    }
  }

  lemma {:induction false} PlainsAreSaid(s: string, en: bool, table: string)
    requires ListsReplaced(table)
    ensures Within(Plains(s, table), Visible(Rewritten(AllAtOnce, en, s), Go))
  {
    if s != [] {
      var first, rest := Said(AllAtOnce, en, s[0]), Rewritten(AllAtOnce, en, s[1..]);
      PlainOneIsSaid(s[0], en, table);
      PlainsAreSaid(s[1..], en, table);
      VisibleConcat(first, rest, Go);
      WithinConcat(if Plain(s[0], table) then [s[0]] else [], Visible(first, Go),
                   Plains(s[1..], table), Visible(rest, Go));
    }
  }

  /** The inside of a notation is read out with it. */
  lemma InsideIsSaid(name: char, inside: string, en: bool, table: string)
    requires ListsReplaced(table)
    ensures Within(Plains(inside, table), Visible(Rewritten(AllAtOnce, en, BigOWords(name, Trim(inside, Go), en)), Go))
  {
    var inner := Trim(inside, Go);
    var word := if name == 'Θ' then "theta" else if name == 'Ω' then "omega" else Pick(en, "Big O", "O lớn");
    var before := " " + word + Pick(en, " of ", " của ");
    TrimCleans(inside, Go);
    PlainsAreVisible(inside, table);
    PlainsAreVisible(inner, table);
    PlainsAreSaid(inner, en, table);
    AroundIsWithin(before, inner, " ", en, table);
  }

  lemma AroundIsWithin(before: string, inner: string, after: string, en: bool, table: string)
    requires Within(Plains(inner, table), Visible(Rewritten(AllAtOnce, en, inner), Go))
    ensures Within(Plains(inner, table), Visible(Rewritten(AllAtOnce, en, before + inner + after), Go))
  {
    var b, i, a := Rewritten(AllAtOnce, en, before), Rewritten(AllAtOnce, en, inner), Rewritten(AllAtOnce, en, after);
    RewrittenConcat(AllAtOnce, en, before + inner, after);
    RewrittenConcat(AllAtOnce, en, before, inner);
    VisibleConcat(b + i, a, Go);
    VisibleConcat(b, i, Go);
    NothingIsWithin(Visible(b, Go));
    NothingIsWithin(Visible(a, Go));
    WithinConcat("", Visible(b, Go), Plains(inner, table), Visible(i, Go));
    WithinConcat("" + Plains(inner, table), Visible(b, Go) + Visible(i, Go), "", Visible(a, Go));
    assert "" + Plains(inner, table) + "" == Plains(inner, table);
  }

  /** The next piece of the text: what is kept of it, what is read out for it, and where it ends. */
  lemma NextPieceIsSaid(text: string, en: bool, p: nat, table: string) returns (kept: string, piece: string, q: nat)
    requires ListsReplaced(table)
    requires p < |text|
    ensures p < q <= |text|
    ensures Kept(text, p, table) == kept + Kept(text, q, table) && ReadOut(text, en, p) == piece + ReadOut(text, en, q)
    ensures Within(kept, Visible(Rewritten(AllAtOnce, en, piece), Go))
  {
    if Call(text, p).Some? {
      kept, piece, q := NotationIsSaid(text, en, p, table);
    } else {
      kept, piece, q := Plains([text[p]], table), [text[p]], p + 1;
      PlainsAreSaid([text[p]], en, table);
    }
  }

  lemma NotationIsSaid(text: string, en: bool, p: nat, table: string) returns (kept: string, piece: string, q: nat)
    requires ListsReplaced(table)
    requires p < |text| && Call(text, p).Some?
    ensures p < q <= |text|
    ensures Kept(text, p, table) == kept + Kept(text, q, table) && ReadOut(text, en, p) == piece + ReadOut(text, en, q)
    ensures Within(kept, Visible(Rewritten(AllAtOnce, en, piece), Go))
  {
    q := Call(text, p).value;
    kept := Plains(text[p + 2..q - 1], table);
    piece := BigOWords(text[p], Trim(text[p + 2..q - 1], Go), en);
    KeptOfNotation(text, p, q, table);
    ReadOfNotation(text, en, p, q);
    InsideIsSaid(text[p], text[p + 2..q - 1], en, table);
  }

  lemma KeptOfNotation(text: string, p: nat, q: nat, table: string)
    requires p + 3 < q <= |text| && Call(text, p) == Some(q)
    ensures Kept(text, p, table) == Plains(text[p + 2..q - 1], table) + Kept(text, q, table)
  {
  }

  lemma ReadOfNotation(text: string, en: bool, p: nat, q: nat)
    requires p + 3 < q <= |text| && Call(text, p) == Some(q)
    ensures ReadOut(text, en, p) == BigOWords(text[p], Trim(text[p + 2..q - 1], Go), en) + ReadOut(text, en, q)
  {
  }

  lemma {:induction false} KeptIsSaid(text: string, en: bool, p: nat, table: string)
    requires ListsReplaced(table)
    requires p <= |text|
    ensures Within(Kept(text, p, table), Visible(Rewritten(AllAtOnce, en, ReadOut(text, en, p)), Go))
    decreases |text| - p
  {
    if p < |text| {
      var kept, piece, q := NextPieceIsSaid(text, en, p, table);
      KeptIsSaid(text, en, q, table);
      SaidPieces(kept, Kept(text, q, table), piece, ReadOut(text, en, q), en);
    }
  }

  lemma SaidPieces(kept: string, keptRest: string, piece: string, rest: string, en: bool)
    requires Within(kept, Visible(Rewritten(AllAtOnce, en, piece), Go))
    requires Within(keptRest, Visible(Rewritten(AllAtOnce, en, rest), Go))
    ensures Within(kept + keptRest, Visible(Rewritten(AllAtOnce, en, piece + rest), Go))
  {
    var a, b := Rewritten(AllAtOnce, en, piece), Rewritten(AllAtOnce, en, rest);
    RewrittenConcat(AllAtOnce, en, piece, rest);
    VisibleConcat(a, b, Go);
    WithinConcat(kept, Visible(a, Go), keptRest, Visible(b, Go));
  }

  /**
   Every plain character of the text, inside a notation or outside, is in the output, in order; only
   the letter that begins a notation may not be.
   */
  lemma PlainTextIsKept(text: string, en: bool)
    ensures Within(Kept(text, 0, REPLACED), Visible(Normalized(text, en), Go))
  {
    KeptIsSaid(text, en, 0, REPLACED);
    NothingVisibleIsLost(text, en);
  }

  /** How each notation is introduced. */
  function Intro(name: char, en: bool): string {
    if en then (if name == 'O' then "Big O of " else if name == 'Θ' then "theta of " else "omega of ")
    else (if name == 'O' then "O lớn của " else if name == 'Θ' then "theta của " else "omega của ")
  }

  lemma EnglishIntroIsClean(name: char)
    ensures var w := Intro(name, true);
            AllSafe(w) && NoRuns(w) && !IsSpace(w[0], Go) && w[|w| - 1] == ' ' && |w| > 1
  {
  }

  lemma VietnameseIntroIsClean(name: char)
    ensures var w := Intro(name, false);
            AllSafe(w) && NoRuns(w) && !IsSpace(w[0], Go) && w[|w| - 1] == ' ' && |w| > 1
  {
  }

  lemma IntroAndInside(w: string, inner: string)
    requires AllSafe(w) && NoRuns(w) && |w| > 1 && !IsSpace(w[0], Go) && Clean(inner) && inner != ""
    ensures Clean(w + inner)
  {
    SafeIsUntouched(AllAtOnce, w);
    var x := w + inner;
    forall i | 0 <= i < |x| ensures !Rewrites(AllAtOnce, x[i]) {
      assert x[i] == if i < |w| then w[i] else inner[i - |w|];
    }
    forall i | 0 <= i < |x| - 1 ensures !(Blank(x[i]) && Blank(x[i + 1])) {
      if i < |w| - 1 { assert !(Blank(w[i]) && Blank(w[i + 1])); }
      if i >= |w| { assert !(Blank(inner[i - |w|]) && Blank(inner[i - |w| + 1])); }
    }
  }

  /** A space on either side of a clean text goes again. */
  lemma SpacedIsCleaned(x: string, en: bool)
    requires Clean(x) && x != ""
    ensures Trim(Collapsed(Rewritten(AllAtOnce, en, " " + x + " ")), Go) == x
  {
    var s := " " + x + " ";
    SpaceIsUntouched(AllAtOnce);
    forall i | 0 <= i < |s| ensures !Rewrites(AllAtOnce, s[i]) {
      if 0 < i < |s| - 1 { assert s[i] == x[i - 1]; }
    }
    UntouchedStays(AllAtOnce, en, s);
    forall i | 0 <= i < |s| - 1 ensures !(Blank(s[i]) && Blank(s[i + 1])) {
      if 0 < i < |s| - 2 { assert !(Blank(x[i - 1]) && Blank(x[i - 1 + 1])); }
    }
    NothingToCollapse(s);
    TrimMiddle(s, 1, |s| - 1, Go);
    assert s[1..|s| - 1] == x;
    TrimCleans(x, Go);
  }

  lemma NoParenInside(inner: string)
    requires Untouched(AllAtOnce, inner)
    ensures forall i :: 0 <= i < |inner| ==> !IsParen(inner[i])
  {
  }

  /** A notation by itself is read as its name and its inside. */
  lemma NotationIsSpoken(name: char, inner: string, en: bool)
    requires IsBigO(name) && Clean(inner) && 0 < |inner| <= 48
    ensures Normalized([name, '('] + inner + ")", en) == Intro(name, en) + inner
  {
    var text, x := [name, '('] + inner + ")", Intro(name, en) + inner;
    var q := |text|;
    NoParenInside(inner);
    assert text[2..q - 1] == inner;
    MatchIsCall(text, 0, q, 2, q - 1);
    TrimCleans(inner, Go);
    ReadOfNotation(text, en, 0, q);
    assert ReadOut(text, en, q) == "";
    IntroIsRead(name, inner, en);
    if en { EnglishIntroIsClean(name); } else { VietnameseIntroIsClean(name); }
    IntroAndInside(Intro(name, en), inner);
    SpacedIsCleaned(x, en);
  }

  lemma IntroIsRead(name: char, inner: string, en: bool)
    requires IsBigO(name)
    ensures BigOWords(name, inner, en) + "" == " " + (Intro(name, en) + inner) + " "
  {
  }

  // ---- The loops ----

  method SuperscriptWord(r: char, en: bool) returns (word: string)
    ensures word == Superscript(r, en)
  {
    word := "";
    if r == '²' {
      word := Pick(en, " squared", " bình phương");
    } else if r == '³' {
      word := Pick(en, " cubed", " lập phương");
    } else if r == 'ⁿ' {
      word := Pick(en, " to the n", " mũ n");
    } else {
      var d := SuperscriptDigit(r);
      if d != "" { word := Pick(en, " to the power ", " mũ ") + d; }
    }
  }

  lemma RewrittenUpTo(p: Pass, en: bool, s: string, from: nat, to: nat)
    requires from <= to <= |s|
    ensures Rewritten(p, en, s[..to]) == Rewritten(p, en, s[..from]) + Rewritten(p, en, s[from..to])
    ensures to == from + 1 ==> Rewritten(p, en, s[from..to]) == Said(p, en, s[from])
  {
    assert s[..to] == s[..from] + s[from..to];
    RewrittenConcat(p, en, s[..from], s[from..to]);
    if to == from + 1 {
      assert s[from..to] == [s[from]];
      RewrittenOne(p, en, s[from]);
    }
  }

  method SuperscriptWords(run: string, en: bool) returns (b: string)
    requires forall i :: 0 <= i < |run| ==> run[i] in SUPERSCRIPTS
    ensures b == Rewritten(Superscripts, en, run)
  {
    b := "";
    for i := 0 to |run|
      invariant b == Rewritten(Superscripts, en, run[..i])
    {
      var word := SuperscriptWord(run[i], en);
      RewrittenUpTo(Superscripts, en, run, i, i + 1);
      b := b + word;
    }
    assert run[..|run|] == run;
  }

  /** The next run of superscripts in words, or the next other character. */
  method NextPiece(text: string, en: bool, p: nat) returns (piece: string, q: nat)
    requires p < |text|
    ensures p < q <= |text|
    ensures Rewritten(Superscripts, en, text[..q]) == Rewritten(Superscripts, en, text[..p]) + piece
  {
    q := RunEnd(text, p);
    if q > p {
      piece := SuperscriptWords(text[p..q], en);
    } else {
      piece := [text[p]];
      q := p + 1;
    }
    RewrittenUpTo(Superscripts, en, text, p, q);
  }

  /** Replaces every run of superscripts. */
  method SpeakSuperscripts(text: string, en: bool) returns (out: string)
    ensures out == Rewritten(Superscripts, en, text)
  {
    out := "";
    var p := 0;
    while p < |text|
      invariant p <= |text| && out == Rewritten(Superscripts, en, text[..p])
    {
      var piece, q := NextPiece(text, en, p);
      out := out + piece;
      p := q;
    }
    assert text[..p] == text;
  }

  method RunEnd(text: string, p: nat) returns (q: nat)
    requires p < |text|
    ensures p <= q <= |text| && (forall i :: p <= i < q ==> text[i] in SUPERSCRIPTS)
    ensures q == |text| || text[q] !in SUPERSCRIPTS
  {
    q := p;
    while q < |text| && text[q] in SUPERSCRIPTS
      invariant p <= q <= |text| && forall i :: p <= i < q ==> text[i] in SUPERSCRIPTS
    {
      q := q + 1;
    }
  }

  /** Replaces every complexity notation, left to right. */
  method SpeakBigO(text: string, en: bool) returns (out: string)
    ensures out == ReadOut(text, en, 0)
  {
    out := "";
    var p := 0;
    while p < |text|
      invariant p <= |text| && out + ReadOut(text, en, p) == ReadOut(text, en, 0)
    {
      var next := ReadAt(text, en, p);
      Reassociate(out, next.0, ReadOut(text, en, next.1));
      out := out + next.0;
      p := next.1;
    }
  }

  lemma Reassociate(a: string, b: string, c: string)
    ensures a + (b + c) == (a + b) + c
  {
  }

  method NormalizeForTTS(raw: string, language: string) returns (text: string)
    ensures text == Normalized(raw, language == "en")
    ensures Clean(text)
  {
    var en := language == "en";
    text := SpeakBigO(raw, en);
    ghost var read := text;
    text := SpeakSuperscripts(text, en);
    text := Rewritten(Symbols, en, text);
    text := Rewritten(Leftovers, en, text);
    PassesFuse(en, read);
    text := Collapsed(text);
    text := Trim(text, Go);
    OutputIsClean(raw, en);
  }
}
