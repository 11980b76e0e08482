/** The tokenizer in front of `FlipSvgPath` (json2bas/json2bas.go): the
    matches of the regular expression
      -?[0-9]*\.?[0-9]+(?:e[-+]?\d+)?  |  [MLHVCSQTAZmlhvcsqtaz]  |  [\s,]+
    found left to right (`FindAllString`), then trimmed and classified. The
    three alternatives start with different characters, so at each position
    at most one can match; a character where none matches is skipped. */
module PathLexer {
  import opened Wrappers
  import opened Text

  /** A path token after classification: a command letter or a parameter. */
  datatype Token = Command(c: char) | Number(v: real)

  /** A regular-expression match, by alternative. */
  datatype Lexeme = NumberText(text: string) | CommandText(c: char) | SeparatorText(text: string)

  predicate IsCommandLetter(c: char)
  {
    c == 'M' || c == 'L' || c == 'H' || c == 'V' || c == 'C' || c == 'S' || c == 'Q' || c == 'T' || c == 'A' || c == 'Z'
    || c == 'm' || c == 'l' || c == 'h' || c == 'v' || c == 'c' || c == 's' || c == 'q' || c == 't' || c == 'a' || c == 'z'
  }

  /** `[\s,]`: the regular-expression `\s` is space, tab, newline, form feed
      and carriage return. */
  predicate IsSeparatorChar(c: char)
  {
    c == ' ' || c == '\t' || c == '\n' || c == '\r' || c == 12 as char || c == ','
  }

  /** The characters a number match can contain. */
  predicate IsNumberChar(c: char)
  {
    IsDigit(c) || c == '-' || c == '+' || c == '.' || c == 'e'
  }

  /** The end of the longest run of digits starting at `j`. */
  function DigitRun(s: string, j: nat): (e: nat)
    requires j <= |s|
    ensures j <= e <= |s|
    ensures forall k | j <= k < e :: IsDigit(s[k])
    ensures e == |s| || !IsDigit(s[e])
    decreases |s| - j
  {
    if j < |s| && IsDigit(s[j]) then DigitRun(s, j + 1) else j
  }

  /** The end of the match of `[0-9]*\.?[0-9]+` at `j`, trying the greedy
      choices first: all leading digits and then a point with digits; failing
      that, the leading digits alone (the last one read by `[0-9]+`). */
  function NumberBody(s: string, j: nat): (e: Option<nat>)
    requires j <= |s|
    ensures e.Some? ==> j < e.value <= |s|
    ensures e.Some? ==> forall k | j <= k < e.value :: IsDigit(s[k]) || s[k] == '.'
  {
    var a := DigitRun(s, j);
    if a < |s| && s[a] == '.' && DigitRun(s, a + 1) > a + 1 then Some(DigitRun(s, a + 1))
    else if a > j then Some(a)
    else None
  }

  /** The end of the optional `e[-+]?\d+` at `j`: `j` itself when it does not match. */
  function ExponentEnd(s: string, j: nat): (e: nat)
    requires j <= |s|
    ensures j <= e <= |s|
    ensures forall k | j <= k < e :: IsNumberChar(s[k])
  {
    if j < |s| && s[j] == 'e' then
      var d := if j + 1 < |s| && (s[j + 1] == '-' || s[j + 1] == '+') then j + 2 else j + 1;
      var e := DigitRun(s, d);
      if e > d then e else j
    else j
  }

  /** The length of the number match at the start of `s`, 0 when there is none. */
  function NumberLength(s: string): (n: nat)
    ensures n <= |s|
    ensures forall k | 0 <= k < n :: IsNumberChar(s[k])
  {
    var j := if |s| > 0 && s[0] == '-' then 1 else 0;
    match NumberBody(s, j)
    case None => 0
    case Some(b) => ExponentEnd(s, b)
  }

  /** The length of the longest run of separator characters at the start of `s`. */
  function SeparatorLength(s: string): (n: nat)
    ensures n <= |s|
    ensures forall k | 0 <= k < n :: IsSeparatorChar(s[k])
    ensures n == |s| || !IsSeparatorChar(s[n])
  {
    if |s| > 0 && IsSeparatorChar(s[0]) then 1 + SeparatorLength(s[1..]) else 0
  }

  /** `FindAllString(d, -1)`: the successive leftmost matches. */
  function Lex(d: string): (ls: seq<Lexeme>)
    decreases |d|
  {
    if |d| == 0 then []
    else
      var n := NumberLength(d);
      if n > 0 then [NumberText(d[..n])] + Lex(d[n..])
      else if IsCommandLetter(d[0]) then [CommandText(d[0])] + Lex(d[1..])
      else if IsSeparatorChar(d[0]) then
        var m := SeparatorLength(d);
        [SeparatorText(d[..m])] + Lex(d[m..])
      else Lex(d[1..])
  }

  function Pow10(n: nat): (p: real)
    ensures p >= 1.0
  {
    if n == 0 then 1.0 else 10.0 * Pow10(n - 1)
  }

  /** The real value of a decimal digit string with a point before its last
      `scale` digits. */
  function Decimal(digits: string, scale: nat): real
    requires AllDigits(digits)
  {
    (DigitsValue(digits) as real) / Pow10(scale)
  }

  /** `strconv.ParseFloat` of a number match: sign, integer digits, optional
      fraction, optional exponent, read exactly (no float64 rounding). */
  function NumberValue(text: string): real
  {
    var neg := |text| > 0 && text[0] == '-';
    var j := if neg then 1 else 0;
    var a := if j <= |text| then DigitRun(text, j) else j;
    var hasFraction := j <= a < |text| && text[a] == '.';
    var b := if hasFraction then DigitRun(text, a + 1) else a;
    var mantissa :=
      (if j <= a <= |text| then Decimal(text[j..a], 0) else 0.0)
      + (if hasFraction && a + 1 <= b <= |text| then Decimal(text[a + 1..b], b - a - 1) else 0.0);
    var scaled :=
      if b < |text| && text[b] == 'e' then
        var expNeg := b + 1 < |text| && text[b + 1] == '-';
        var d := if b + 1 < |text| && (text[b + 1] == '-' || text[b + 1] == '+') then b + 2 else b + 1;
        if d <= |text| && AllDigits(text[d..]) then
          var p := Pow10(DigitsValue(text[d..]));
          if expNeg then mantissa / p else mantissa * p
        else mantissa
      else mantissa;
    if neg then -scaled else scaled
  }

  function CommaCount(s: string): nat
  {
    if |s| == 0 then 0 else (if s[0] == ',' then 1 else 0) + CommaCount(s[1..])
  }

  /** The token loop's treatment of one match after `strings.TrimSpace`: an
      empty result or a lone comma is skipped, a command letter is a command,
      and everything else goes through `ParseFloat`, whose error is ignored:
      a separator run with two or more commas becomes the parameter 0. */
  function Classify(l: Lexeme): Option<Token>
  {
    match l
    case CommandText(c) => Some(Command(c))
    case NumberText(t) => Some(Number(NumberValue(t)))
    case SeparatorText(t) => if CommaCount(t) <= 1 then None else Some(Number(0.0))
  }

  function ClassifyAll(ls: seq<Lexeme>): seq<Token>
  {
    if |ls| == 0 then []
    else
      match Classify(ls[0])
      case None => ClassifyAll(ls[1..])
      case Some(t) => [t] + ClassifyAll(ls[1..])
  }

  /** The tokens the flipper works on. */
  function Tokens(d: string): seq<Token>
  {
    ClassifyAll(Lex(d))
  }

  /** The command letters of `d`, in order. */
  function Letters(d: string): string
  {
    if |d| == 0 then ""
    else (if IsCommandLetter(d[0]) then [d[0]] else "") + Letters(d[1..])
  }

  /** The command letters among the tokens, in order. */
  function CommandsOf(ts: seq<Token>): string
  {
    if |ts| == 0 then ""
    else (if ts[0].Command? then [ts[0].c] else "") + CommandsOf(ts[1..])
  }

  lemma {:induction false} LettersAppend(a: string, b: string)
    ensures Letters(a + b) == Letters(a) + Letters(b)
    decreases |a|
  {
    if |a| == 0 {
      assert a + b == b;
    } else {
      var ab := a + b;
      var head: string := if IsCommandLetter(a[0]) then [a[0]] else "";
      assert ab[0] == a[0];
      assert ab[1..] == a[1..] + b;
      assert Letters(ab) == head + Letters(a[1..] + b);
      LettersAppend(a[1..], b);
      assert Letters(a) == head + Letters(a[1..]);
    }
  }

  lemma {:induction false} NoLettersIn(s: string)
    requires forall k | 0 <= k < |s| :: !IsCommandLetter(s[k])
    ensures Letters(s) == ""
    decreases |s|
  {
    if |s| > 0 {
      NoLettersIn(s[1..]);
    }
  }

  lemma {:induction false} CommandsOfClassified(ls: seq<Lexeme>, l: Lexeme)
    ensures CommandsOf(ClassifyAll([l] + ls)) == (if l.CommandText? then [l.c] else "") + CommandsOf(ClassifyAll(ls))
  {
    assert ([l] + ls)[1..] == ls;
    match Classify(l)
    case None =>
    case Some(t) =>
      assert ([t] + ClassifyAll(ls))[1..] == ClassifyAll(ls);
  }

  /** One step of the tokenizer over a match of `n` characters without
      command letters, followed by the matches `rest`. */
  lemma SkipNonLetters(d: string, n: nat, l: Lexeme, rest: seq<Lexeme>)
    requires 0 < n <= |d| && !l.CommandText?
    requires forall k | 0 <= k < n :: !IsCommandLetter(d[k])
    requires CommandsOf(ClassifyAll(rest)) == Letters(d[n..])
    ensures CommandsOf(ClassifyAll([l] + rest)) == Letters(d)
  {
    CommandsOfClassified(rest, l);
    NoLettersIn(d[..n]);
    LettersAppend(d[..n], d[n..]);
    assert d[..n] + d[n..] == d;
  }

  /** Number and separator matches hold no command letter (the exponent
      marker `e` is not one). */
  lemma MatchCharNotLetter(c: char)
    requires IsNumberChar(c) || IsSeparatorChar(c)
    ensures !IsCommandLetter(c)
  {
  }

  lemma NoLetterInMatch(d: string, n: nat)
    requires n <= |d|
    requires forall k | 0 <= k < n :: IsNumberChar(d[k]) || IsSeparatorChar(d[k])
    ensures forall k | 0 <= k < n :: !IsCommandLetter(d[k])
  {
    forall k | 0 <= k < n
      ensures !IsCommandLetter(d[k])
    {
      MatchCharNotLetter(d[k]);
    }
  }

  /** Tokenizing keeps every command letter of the path, in order, and adds
      none: numbers and separators never contain a command letter, and the
      characters the expression skips are not command letters either. */
  lemma {:induction false} CommandsAreLetters(d: string)
    ensures CommandsOf(Tokens(d)) == Letters(d)
    decreases |d|
  {
    if |d| > 0 {
      var n := NumberLength(d);
      if n > 0 {
        assert Lex(d) == [NumberText(d[..n])] + Lex(d[n..]);
        CommandsAreLetters(d[n..]);
        NoLetterInMatch(d, n);
        SkipNonLetters(d, n, NumberText(d[..n]), Lex(d[n..]));
      } else if IsCommandLetter(d[0]) {
        assert Lex(d) == [CommandText(d[0])] + Lex(d[1..]);
        CommandsAreLetters(d[1..]);
        CommandsOfClassified(Lex(d[1..]), CommandText(d[0]));
        assert Letters(d) == [d[0]] + Letters(d[1..]);
      } else if IsSeparatorChar(d[0]) {
        var m := SeparatorLength(d);
        assert Lex(d) == [SeparatorText(d[..m])] + Lex(d[m..]);
        CommandsAreLetters(d[m..]);
        NoLetterInMatch(d, m);
        SkipNonLetters(d, m, SeparatorText(d[..m]), Lex(d[m..]));
      } else {
        assert Lex(d) == Lex(d[1..]);
        CommandsAreLetters(d[1..]);
        assert Letters(d) == Letters(d[1..]);
      }
    }
  }

  // ---------------------------------------------------------------------------
  // Paths written as command letters followed by decimal numerals

  /** A decimal numeral as the number alternative reads it without exponent:
      an optional '-', integer digits, and fraction digits after a point
      (no point when there are none). One of the digit strings is non-empty. */
  datatype Numeral = Numeral(negative: bool, whole: string, fraction: string)

  predicate IsNumeral(n: Numeral)
  {
    AllDigits(n.whole) && AllDigits(n.fraction) && (|n.whole| > 0 || |n.fraction| > 0)
  }

  function NumeralText(n: Numeral): string
  {
    (if n.negative then "-" else "") + n.whole + (if |n.fraction| > 0 then "." + n.fraction else "")
  }

  /** The exact value a numeral denotes: its integer digits, plus its
      fraction digits scaled down by ten per digit. */
  function NumeralValue(n: Numeral): real
    requires IsNumeral(n)
  {
    var m := Decimal(n.whole, 0)
      + (if |n.fraction| > 0 then Decimal(n.fraction, |n.fraction|) else 0.0);
    if n.negative then -m else m
  }

  /** One command of a path as it is commonly written: a letter, then its
      parameters as numerals, one space between numerals; `gap` says whether
      a space also separates the letter from its first numeral. */
  datatype PathCommand = PathCommand(letter: char, gap: bool, numerals: seq<Numeral>)

  predicate WellWritten(cmds: seq<PathCommand>)
  {
    forall i | 0 <= i < |cmds| ::
      && IsCommandLetter(cmds[i].letter)
      && forall k | 0 <= k < |cmds[i].numerals| :: IsNumeral(cmds[i].numerals[k])
  }

  /** Each numeral preceded by one space. */
  function Spaced(ns: seq<Numeral>): string
  {
    if |ns| == 0 then "" else [' '] + NumeralText(ns[0]) + Spaced(ns[1..])
  }

  /** The numerals separated by single spaces, with none in front. */
  function Packed(ns: seq<Numeral>): string
  {
    if |ns| == 0 then "" else NumeralText(ns[0]) + Spaced(ns[1..])
  }

  /** The text of a path: each letter followed by its numerals, commands
      separated by one space, e.g. "M10 20 L30 40" or "M 10 20 L 30 40". */
  function PathText(cmds: seq<PathCommand>): string
  {
    if |cmds| == 0 then ""
    else
      [cmds[0].letter] + (if cmds[0].gap then Spaced(cmds[0].numerals) else Packed(cmds[0].numerals))
      + (if |cmds| == 1 then "" else [' '] + PathText(cmds[1..]))
  }

  /** The parameters a list of numerals stands for. */
  function Numerals(ns: seq<Numeral>): seq<Token>
    requires forall k | 0 <= k < |ns| :: IsNumeral(ns[k])
  {
    if |ns| == 0 then []
    else
      assert IsNumeral(ns[0]);
      [Number(NumeralValue(ns[0]))] + Numerals(ns[1..])
  }

  /** The tokens a path is written as: each command, then its parameters. */
  function PathTokens(cmds: seq<PathCommand>): seq<Token>
    requires WellWritten(cmds)
  {
    if |cmds| == 0 then []
    else
      assert forall k | 0 <= k < |cmds[0].numerals| :: IsNumeral(cmds[0].numerals[k]);
      [Command(cmds[0].letter)] + Numerals(cmds[0].numerals) + PathTokens(cmds[1..])
  }

  /** A character that ends a number match right after a run of digits. */
  predicate EndsNumeral(s: string)
  {
    |s| == 0 || (!IsDigit(s[0]) && s[0] != '.' && s[0] != 'e')
  }

  /** `DigitRun` stops exactly at the first non-digit. */
  lemma {:induction false} DigitRunTo(t: string, j: nat, e: nat)
    requires j <= e <= |t|
    requires forall k | j <= k < e :: IsDigit(t[k])
    requires e == |t| || !IsDigit(t[e])
    ensures DigitRun(t, j) == e
    decreases e - j
  {
    if j < e {
      DigitRunTo(t, j + 1, e);
    }
  }

  /** A run of digits between a prefix and a non-digit is read exactly. */
  lemma DigitsBetween(p: string, w: string, rest: string)
    requires AllDigits(w) && (|rest| == 0 || !IsDigit(rest[0]))
    ensures DigitRun(p + w + rest, |p|) == |p| + |w|
    ensures (p + w + rest)[|p|..|p| + |w|] == w
  {
    var t := p + w + rest;
    assert forall k | |p| <= k < |p| + |w| :: t[k] == w[k - |p|];
    if |rest| > 0 {
      assert t[|p| + |w|] == rest[0];
    }
    DigitRunTo(t, |p|, |p| + |w|);
  }

  function Sign(n: Numeral): string
  {
    if n.negative then "-" else ""
  }

  function Point(n: Numeral): string
  {
    if |n.fraction| > 0 then "." + n.fraction else ""
  }

  lemma NumeralGrouping(n: Numeral, tail: string)
    ensures NumeralText(n) == Sign(n) + n.whole + Point(n)
    ensures NumeralText(n) + tail == Sign(n) + n.whole + (Point(n) + tail)
    ensures |n.fraction| > 0 ==> NumeralText(n) + tail == (Sign(n) + n.whole + ".") + n.fraction + tail
  {
    Associate(Sign(n) + n.whole, Point(n), tail);
    if |n.fraction| > 0 {
      Associate(Sign(n) + n.whole, ".", n.fraction);
    }
  }

  /** The sign and the integer digits of a numeral at the start of a text. */
  lemma NumeralWhole(n: Numeral, tail: string)
    requires IsNumeral(n) && EndsNumeral(tail)
    ensures var t, j := NumeralText(n) + tail, |Sign(n)|;
      && |t| > 0 && (t[0] == '-' <==> n.negative)
      && (t[0] == '-' || t[0] == '.' || IsDigit(t[0]))
      && DigitRun(t, j) == j + |n.whole|
      && t[j..j + |n.whole|] == n.whole
      && (j + |n.whole| < |t| ==> t[j + |n.whole|] == (Point(n) + tail)[0])
  {
    NumeralGrouping(n, tail);
    var rest := Point(n) + tail;
    assert |rest| == 0 || !IsDigit(rest[0]) by {
      if |n.fraction| > 0 {
        assert rest[0] == '.';
      } else {
        assert rest == tail;
      }
    }
    DigitsBetween(Sign(n), n.whole, rest);
    var t := NumeralText(n) + tail;
    if n.negative {
      assert t[0] == '-';
    } else if |n.whole| > 0 {
      assert t[0] == n.whole[0];
    } else {
      assert t[0] == rest[0] == '.';
    }
    if |Sign(n)| + |n.whole| < |t| {
      assert t[|Sign(n)| + |n.whole|] == rest[0];
    }
  }

  /** The fraction digits of a numeral, after its point. */
  lemma NumeralFraction(n: Numeral, tail: string)
    requires IsNumeral(n) && EndsNumeral(tail) && |n.fraction| > 0
    ensures var t, a := NumeralText(n) + tail, |Sign(n)| + |n.whole|;
      && a < |t| && t[a] == '.'
      && DigitRun(t, a + 1) == a + 1 + |n.fraction| == |NumeralText(n)|
      && t[a + 1..a + 1 + |n.fraction|] == n.fraction
  {
    NumeralGrouping(n, tail);
    var p := Sign(n) + n.whole + ".";
    DigitsBetween(p, n.fraction, tail);
    assert (p + n.fraction + tail)[|p| - 1] == '.';
  }

  /** Past the numeral comes no exponent marker, and no point when the
      numeral has no fraction. */
  lemma NumeralEnd(n: Numeral, tail: string)
    requires IsNumeral(n) && EndsNumeral(tail)
    ensures var t := NumeralText(n) + tail;
      && (|n.fraction| == 0 ==> |NumeralText(n)| == |Sign(n)| + |n.whole|)
      && (|NumeralText(n)| == |t| || (t[|NumeralText(n)|] != 'e' && t[|NumeralText(n)|] != '.'))
  {
    NumeralGrouping(n, tail);
    var t := NumeralText(n) + tail;
    if |NumeralText(n)| < |t| {
      assert t[|NumeralText(n)|] == tail[0];
    }
  }

  /** A numeral is matched whole. */
  lemma NumeralLength(n: Numeral, tail: string)
    requires IsNumeral(n) && EndsNumeral(tail)
    ensures NumberLength(NumeralText(n) + tail) == |NumeralText(n)|
  {
    NumeralWhole(n, tail);
    NumeralEnd(n, tail);
    if |n.fraction| > 0 {
      NumeralFraction(n, tail);
    }
  }

  /** `ParseFloat` of a text that is exactly a sign, the digits `w` and,
      when `f` is not empty, a point and the digits `f`, without exponent. */
  lemma ValueOfPlainNumber(text: string, j: nat, w: string, f: string)
    requires j == (if |text| > 0 && text[0] == '-' then 1 else 0)
    requires AllDigits(w) && AllDigits(f) && j + |w| <= |text|
    requires DigitRun(text, j) == j + |w| && text[j..j + |w|] == w
    requires |f| == 0 ==> j + |w| == |text|
    requires |f| > 0 ==>
      && j + |w| < |text| && text[j + |w|] == '.'
      && DigitRun(text, j + |w| + 1) == |text| && text[j + |w| + 1..] == f
    ensures var m := Decimal(w, 0) + (if |f| > 0 then Decimal(f, |f|) else 0.0);
      NumberValue(text) == if j == 1 then -m else m
  {
    var a := j + |w|;
    if a < |text| {
      assert text[a + 1..|text|] == f;
    }
  }

  /** `ParseFloat` reads a numeral as its value. */
  lemma NumeralReads(n: Numeral)
    requires IsNumeral(n)
    ensures NumberValue(NumeralText(n)) == NumeralValue(n)
  {
    NumeralParts(n);
    ValueOfPlainNumber(NumeralText(n), |Sign(n)|, n.whole, n.fraction);
  }

  /** The layout of a numeral written alone. */
  lemma NumeralParts(n: Numeral)
    requires IsNumeral(n)
    ensures var text, j, w, f := NumeralText(n), |Sign(n)|, n.whole, n.fraction;
      && (j == 1 <==> n.negative)
      && j == (if |text| > 0 && text[0] == '-' then 1 else 0)
      && AllDigits(w) && AllDigits(f) && j + |w| <= |text|
      && DigitRun(text, j) == j + |w| && text[j..j + |w|] == w
      && (|f| == 0 ==> j + |w| == |text|)
      && (|f| > 0 ==>
        && j + |w| < |text| && text[j + |w|] == '.'
        && DigitRun(text, j + |w| + 1) == |text| && text[j + |w| + 1..] == f)
  {
    var t := NumeralText(n);
    assert t + "" == t;
    NumeralWhole(n, "");
    NumeralEnd(n, "");
    if |n.fraction| > 0 {
      NumeralFraction(n, "");
    }
  }

  /** A numeral is matched whole, and `ParseFloat` reads it as its value. */
  lemma NumeralMatch(n: Numeral, tail: string)
    requires IsNumeral(n) && EndsNumeral(tail)
    ensures NumberLength(NumeralText(n) + tail) == |NumeralText(n)|
    ensures NumberValue(NumeralText(n)) == NumeralValue(n)
  {
    NumeralLength(n, tail);
    NumeralReads(n);
  }

  lemma LexNumeral(n: Numeral, tail: string)
    requires IsNumeral(n) && EndsNumeral(tail)
    ensures Lex(NumeralText(n) + tail) == [NumberText(NumeralText(n))] + Lex(tail)
  {
    NumeralMatch(n, tail);
    var w := NumeralText(n);
    var t := w + tail;
    assert t[..|w|] == w && t[|w|..] == tail;
  }

  lemma LexSpace(d: string)
    requires |d| >= 2 && d[0] == ' ' && !IsSeparatorChar(d[1])
    ensures Lex(d) == [SeparatorText(" ")] + Lex(d[1..])
  {
    assert DigitRun(d, 0) == 0;
    assert SeparatorLength(d[1..]) == 0;
    assert d[..1] == " ";
  }

  lemma LexLetter(c: char, tail: string)
    requires IsCommandLetter(c)
    ensures Lex([c] + tail) == [CommandText(c)] + Lex(tail)
  {
    var d := [c] + tail;
    assert DigitRun(d, 0) == 0;
    assert d[1..] == tail;
  }

  lemma ClassifyCons(l: Lexeme, ls: seq<Lexeme>)
    ensures ClassifyAll([l] + ls) == (if Classify(l).Some? then [Classify(l).value] else []) + ClassifyAll(ls)
  {
    assert ([l] + ls)[1..] == ls;
  }

  lemma SpacedCons(ns: seq<Numeral>, rest: string)
    requires |ns| > 0
    ensures Spaced(ns) + rest == [' '] + (NumeralText(ns[0]) + (Spaced(ns[1..]) + rest))
  {
    var x, y, z := [' '], NumeralText(ns[0]), Spaced(ns[1..]);
    assert Spaced(ns) == x + y + z;
    Associate(x + y, z, rest);
    Associate(x, y, z + rest);
  }

  /** A numeral tokenizes to its value. */
  lemma TokensOfNumeral(n: Numeral, tail: string)
    requires IsNumeral(n) && EndsNumeral(tail)
    ensures Tokens(NumeralText(n) + tail) == [Number(NumeralValue(n))] + Tokens(tail)
  {
    LexNumeral(n, tail);
    NumeralMatch(n, tail);
    ClassifyCons(NumberText(NumeralText(n)), Lex(tail));
  }

  /** One space and a numeral tokenize to the numeral's value. */
  lemma TokensOfSpacedNumeral(n: Numeral, tail: string)
    requires IsNumeral(n) && EndsNumeral(tail)
    ensures Tokens([' '] + (NumeralText(n) + tail)) == [Number(NumeralValue(n))] + Tokens(tail)
  {
    var w := NumeralText(n);
    var d := [' '] + (w + tail);
    assert d[1..] == w + tail;
    NumeralWhole(n, tail);
    assert d[1] == (w + tail)[0];
    LexSpace(d);
    TokensOfNumeral(n, tail);
    ClassifyCons(SeparatorText(" "), Lex(w + tail));
    assert CommaCount(" ") == 0;
  }

  /** What may follow the numerals of a command: nothing, a space, or the
      next command's letter. */
  predicate Follows(rest: string)
  {
    |rest| == 0 || IsCommandLetter(rest[0]) || rest[0] == ' '
  }

  /** Spaced numerals followed by the rest of a path tokenize to their
      values followed by the rest's tokens. */
  lemma {:induction false} TokensOfSpaced(ns: seq<Numeral>, rest: string)
    requires forall k | 0 <= k < |ns| :: IsNumeral(ns[k])
    requires Follows(rest)
    ensures EndsNumeral(Spaced(ns) + rest)
    ensures Tokens(Spaced(ns) + rest) == Numerals(ns) + Tokens(rest)
    decreases |ns|
  {
    if |ns| == 0 {
      assert Spaced(ns) + rest == rest;
    } else {
      var n, more := ns[0], ns[1..];
      var tail := Spaced(more) + rest;
      assert forall k | 0 <= k < |more| :: IsNumeral(more[k]);
      TokensOfSpaced(more, rest);
      SpacedCons(ns, rest);
      TokensOfSpacedNumeral(n, tail);
      var v := Number(NumeralValue(n));
      assert Numerals(ns) == [v] + Numerals(more);
      Associate([v], Numerals(more), Tokens(rest));
    }
  }

  /** The same without a space in front of the first numeral. */
  lemma TokensOfPacked(ns: seq<Numeral>, rest: string)
    requires forall k | 0 <= k < |ns| :: IsNumeral(ns[k])
    requires Follows(rest)
    ensures Tokens(Packed(ns) + rest) == Numerals(ns) + Tokens(rest)
  {
    if |ns| == 0 {
      assert Packed(ns) + rest == rest;
    } else {
      var n, more := ns[0], ns[1..];
      var tail := Spaced(more) + rest;
      assert forall k | 0 <= k < |more| :: IsNumeral(more[k]);
      TokensOfSpaced(more, rest);
      Associate(NumeralText(n), Spaced(more), rest);
      TokensOfNumeral(n, tail);
      var v := Number(NumeralValue(n));
      assert Numerals(ns) == [v] + Numerals(more);
      Associate([v], Numerals(more), Tokens(rest));
    }
  }

  /** A space in front of a command letter adds no token. */
  lemma TokensOfSpaceFirst(t: string)
    requires |t| > 0 && IsCommandLetter(t[0])
    ensures Tokens([' '] + t) == Tokens(t)
  {
    var d := [' '] + t;
    assert d[1..] == t;
    LexSpace(d);
    ClassifyCons(SeparatorText(" "), Lex(t));
    assert CommaCount(" ") == 0;
  }

  /** The tokenizer's general case: a path written as command letters, each
      followed by its numerals (signed, with or without a fraction) separated
      by single spaces, gives exactly those commands and the numerals'
      values, in order. */
  lemma {:induction false} TokensOfPath(cmds: seq<PathCommand>)
    requires WellWritten(cmds)
    ensures Tokens(PathText(cmds)) == PathTokens(cmds)
    decreases |cmds|
  {
    if |cmds| > 0 {
      var c, ns, more := cmds[0].letter, cmds[0].numerals, cmds[1..];
      assert WellWritten(more) by {
        forall i | 0 <= i < |more|
          ensures IsCommandLetter(more[i].letter) && forall k | 0 <= k < |more[i].numerals| :: IsNumeral(more[i].numerals[k])
        {
          assert more[i] == cmds[i + 1];
        }
      }
      assert IsCommandLetter(c) && forall k | 0 <= k < |ns| :: IsNumeral(ns[k]);
      var rest := if |cmds| == 1 then "" else [' '] + PathText(more);
      assert Tokens(rest) == PathTokens(more) by {
        if |more| > 0 {
          TokensOfPath(more);
          TokensOfSpaceFirst(PathText(more));
        }
      }
      var body := if cmds[0].gap then Spaced(ns) else Packed(ns);
      if cmds[0].gap {
        TokensOfSpaced(ns, rest);
      } else {
        TokensOfPacked(ns, rest);
      }
      var d := PathText(cmds);
      Associate([c], body, rest);
      assert d == [c] + (body + rest);
      LexLetter(c, body + rest);
      ClassifyCons(CommandText(c), Lex(body + rest));
      assert Tokens(d) == [Command(c)] + (Numerals(ns) + Tokens(rest));
      Associate([Command(c)], Numerals(ns), PathTokens(more));
    }
  }

  lemma TwoDigitNumeral(w: string)
    requires |w| == 2 && IsDigit(w[0]) && IsDigit(w[1])
    ensures IsNumeral(Numeral(false, w, ""))
    ensures NumeralText(Numeral(false, w, "")) == w
    ensures NumeralValue(Numeral(false, w, "")) == (DigitValue(w[0]) * 10 + DigitValue(w[1])) as real
  {
    var head := w[..1];
    assert head[..0] == "" && head[0] == w[0];
    assert DigitsValue(head) == DigitValue(w[0]);
    assert DigitsValue("") == 0;
  }

  /** The general case at work on "M10 20 L30 40": a move and a line, each
      with its two parameters. */
  lemma TokensExample(d: string)
    requires d == "M10 20 L30 40"
    ensures Tokens(d) == [Command('M'), Number(10.0), Number(20.0), Command('L'), Number(30.0), Number(40.0)]
  {
    var first := PathCommand('M', false, [Numeral(false, "10", ""), Numeral(false, "20", "")]);
    var last := PathCommand('L', false, [Numeral(false, "30", ""), Numeral(false, "40", "")]);
    ExamplePath(d, first, last);
    TokensOfPath([first, last]);
  }

  lemma ExamplePath(d: string, first: PathCommand, last: PathCommand)
    requires d == "M10 20 L30 40"
    requires first == PathCommand('M', false, [Numeral(false, "10", ""), Numeral(false, "20", "")])
    requires last == PathCommand('L', false, [Numeral(false, "30", ""), Numeral(false, "40", "")])
    ensures WellWritten([first, last]) && PathText([first, last]) == d
    ensures PathTokens([first, last]) == [Command('M'), Number(10.0), Number(20.0), Command('L'), Number(30.0), Number(40.0)]
  {
    ExamplePathText(first, last);
    ExamplePathTokens(first, last);
  }

  lemma ExamplePathText(first: PathCommand, last: PathCommand)
    requires first == PathCommand('M', false, [Numeral(false, "10", ""), Numeral(false, "20", "")])
    requires last == PathCommand('L', false, [Numeral(false, "30", ""), Numeral(false, "40", "")])
    ensures WellWritten([first, last]) && PathText([first, last]) == "M10 20 L30 40"
  {
    ExampleCommand(first, "10", "20", 10.0, 20.0);
    ExampleCommand(last, "30", "40", 30.0, 40.0);
    var cmds := [first, last];
    assert cmds[1..] == [last];
    PathTextCons(cmds);
    ExampleWords(PathText([first]), PathText([last]));
  }

  lemma ExampleWords(x: string, y: string)
    requires x == ['M'] + "10" + " " + "20" && y == ['L'] + "30" + " " + "40"
    ensures x + [' '] + y == "M10 20 L30 40"
  {
    assert x == "M10 20";
    assert y == "L30 40";
  }

  /** The text of two or more commands: the first, a space, the rest. */
  lemma PathTextCons(cmds: seq<PathCommand>)
    requires |cmds| >= 2
    ensures PathText(cmds) == PathText([cmds[0]]) + [' '] + PathText(cmds[1..])
  {
    var c := cmds[0];
    var body := if c.gap then Spaced(c.numerals) else Packed(c.numerals);
    assert PathText([c]) == [c.letter] + body + "";
    assert [c.letter] + body + "" == [c.letter] + body;
    Associate([c.letter] + body, [' '], PathText(cmds[1..]));
  }

  lemma ExamplePathTokens(first: PathCommand, last: PathCommand)
    requires first == PathCommand('M', false, [Numeral(false, "10", ""), Numeral(false, "20", "")])
    requires last == PathCommand('L', false, [Numeral(false, "30", ""), Numeral(false, "40", "")])
    requires WellWritten([first, last])
    ensures PathTokens([first, last]) == [Command('M'), Number(10.0), Number(20.0), Command('L'), Number(30.0), Number(40.0)]
  {
    ExampleCommand(first, "10", "20", 10.0, 20.0);
    ExampleCommand(last, "30", "40", 30.0, 40.0);
    var cmds := [first, last];
    assert cmds[1..] == [last];
    assert PathTokens(cmds) == [Command('M')] + Numerals(first.numerals) + PathTokens([last]);
  }

  /** One command of the worked case, with two two-digit parameters of
      values `x` and `y` and no space after the letter. */
  lemma ExampleCommand(cmd: PathCommand, a: string, b: string, x: real, y: real)
    requires IsCommandLetter(cmd.letter) && !cmd.gap && cmd.numerals == [Numeral(false, a, ""), Numeral(false, b, "")]
    requires |a| == 2 && IsDigit(a[0]) && IsDigit(a[1]) && |b| == 2 && IsDigit(b[0]) && IsDigit(b[1])
    requires x == (DigitValue(a[0]) * 10 + DigitValue(a[1])) as real
    requires y == (DigitValue(b[0]) * 10 + DigitValue(b[1])) as real
    ensures WellWritten([cmd])
    ensures PathText([cmd]) == [cmd.letter] + a + " " + b
    ensures Numerals(cmd.numerals) == [Number(x), Number(y)]
    ensures PathTokens([cmd]) == [Command(cmd.letter), Number(x), Number(y)]
  {
    TwoDigitNumeral(a);
    TwoDigitNumeral(b);
    ExampleText(cmd.letter, Numeral(false, a, ""), Numeral(false, b, ""));
    ExampleNumerals(Numeral(false, a, ""), Numeral(false, b, ""));
  }

  lemma ExampleText(c: char, a: Numeral, b: Numeral)
    ensures PathText([PathCommand(c, false, [a, b])]) == [c] + NumeralText(a) + " " + NumeralText(b)
  {
    var x, y := NumeralText(a), NumeralText(b);
    assert [a, b][1..] == [b] && [b][1..] == [];
    assert Spaced([b]) == " " + y + "";
    assert " " + y + "" == " " + y;
    assert Packed([a, b]) == x + (" " + y);
    Associate([c], x, " " + y);
    Associate([c] + x, " ", y);
    assert [c] + (x + (" " + y)) + "" == [c] + (x + (" " + y));
  }

  lemma ExampleNumerals(a: Numeral, b: Numeral)
    requires IsNumeral(a) && IsNumeral(b)
    ensures Numerals([a, b]) == [Number(NumeralValue(a)), Number(NumeralValue(b))]
  {
    assert [a, b][1..] == [b] && [b][1..] == [];
    assert Numerals([b]) == [Number(NumeralValue(b))];
  }

  /** Signs and fractions: "l-1.5 .25" is a relative line to (-1.5, 0.25). */
  lemma SignedExample(d: string)
    requires d == "l-1.5 .25"
    ensures Tokens(d) == [Command('l'), Number(-1.5), Number(0.25)]
  {
    var cmd := PathCommand('l', false, [Numeral(true, "1", "5"), Numeral(false, "", "25")]);
    SignedCommand(cmd);
    TokensOfPath([cmd]);
  }

  lemma SignedCommand(cmd: PathCommand)
    requires cmd == PathCommand('l', false, [Numeral(true, "1", "5"), Numeral(false, "", "25")])
    ensures WellWritten([cmd]) && PathText([cmd]) == "l-1.5 .25"
    ensures PathTokens([cmd]) == [Command('l'), Number(-1.5), Number(0.25)]
  {
    var x, y := cmd.numerals[0], cmd.numerals[1];
    SignedNumerals(x, y);
    ExampleText('l', x, y);
    SignedWords(PathText([cmd]));
    ExampleNumerals(x, y);
    assert [cmd][1..] == [];
    assert PathTokens([cmd]) == [Command('l')] + Numerals(cmd.numerals) + [];
  }

  lemma SignedWords(t: string)
    requires t == ['l'] + "-1.5" + " " + ".25"
    ensures t == "l-1.5 .25"
  {
  }

  lemma SignedNumerals(x: Numeral, y: Numeral)
    requires x == Numeral(true, "1", "5") && y == Numeral(false, "", "25")
    ensures IsNumeral(x) && NumeralText(x) == "-1.5" && NumeralValue(x) == -1.5
    ensures IsNumeral(y) && NumeralText(y) == ".25" && NumeralValue(y) == 0.25
  {
    assert "1"[..0] == "" && "5"[..0] == "" && "25"[..1] == "2" && "2"[..0] == "";
    assert DigitsValue("1") == 1 && DigitsValue("5") == 5 && DigitsValue("2") == 2;
    assert DigitsValue("25") == 25;
    assert Pow10(1) == 10.0 && Pow10(2) == 100.0;
  }

  /** A one-digit number is read as its digit. */
  lemma OneDigit(s: string)
    requires |s| > 0 && IsDigit(s[0]) && (|s| == 1 || (!IsDigit(s[1]) && s[1] != '.' && s[1] != 'e'))
    ensures NumberLength(s) == 1
    ensures NumberValue(s[..1]) == DigitValue(s[0]) as real
  {
    assert DigitRun(s, 1) == 1;
    var t := s[..1];
    assert DigitRun(t, 0) == 1 by {
      assert DigitRun(t, 1) == 1;
    }
    assert t[0..1] == t;
    assert DigitsValue(t) == DigitsValue(t[..0]) * 10 + DigitValue(t[0]);
  }

  lemma LexTwo()
    ensures Lex("2") == [NumberText("2")]
  {
    OneDigit("2");
    assert "2"[..1] == "2" && "2"[1..] == "";
  }

  lemma LexCommaTwo()
    ensures Lex(",2") == [SeparatorText(","), NumberText("2")]
  {
    var d := ",2";
    assert NumberLength(d) == 0 by {
      assert DigitRun(d, 0) == 0;
    }
    assert SeparatorLength(d) == 1 by {
      assert SeparatorLength(d[1..]) == 0;
    }
    assert d[..1] == "," && d[1..] == "2";
    LexTwo();
  }

  lemma LexOneCommaTwo()
    ensures Lex("1,2") == [NumberText("1"), SeparatorText(","), NumberText("2")]
  {
    var d := "1,2";
    OneDigit(d);
    assert d[..1] == "1" && d[1..] == ",2";
    LexCommaTwo();
  }

  /** Worked case: a comma between parameters is dropped. */
  lemma LexCommaExample(d: string)
    requires d == "M1,2"
    ensures Tokens(d) == [Command('M'), Number(1.0), Number(2.0)]
  {
    assert Lex(d) == [CommandText('M'), NumberText("1"), SeparatorText(","), NumberText("2")] by {
      assert d[1..] == "1,2";
      assert NumberLength(d) == 0 by {
        assert DigitRun(d, 0) == 0;
      }
      assert IsCommandLetter(d[0]);
      LexOneCommaTwo();
    }
    ClassifyCommaExample();
  }

  lemma ClassifyCommaExample()
    ensures ClassifyAll([CommandText('M'), NumberText("1"), SeparatorText(","), NumberText("2")])
         == [Command('M'), Number(1.0), Number(2.0)]
  {
    var ls := [CommandText('M'), NumberText("1"), SeparatorText(","), NumberText("2")];
    OneDigit("1");
    OneDigit("2");
    assert "1"[..1] == "1" && "2"[..1] == "2";
    assert CommaCount(",") == 1;
    assert ls[1..][1..][1..] == [NumberText("2")];
  }

  lemma LexCommaCommaTwo()
    ensures Lex(",,2") == [SeparatorText(",,"), NumberText("2")]
  {
    var d := ",,2";
    assert NumberLength(d) == 0 by {
      assert DigitRun(d, 0) == 0;
    }
    assert SeparatorLength(d) == 2 by {
      assert SeparatorLength(d[2..]) == 0;
      assert d[1..][1..] == d[2..];
    }
    assert d[..2] == ",," && d[2..] == "2";
    LexTwo();
  }

  /** Worked case: a run of two commas is not skipped but read as the
      parameter 0, since `ParseFloat` fails on it and its error is ignored. */
  lemma LexDoubleCommaExample()
    ensures Tokens("1,,2") == [Number(1.0), Number(0.0), Number(2.0)]
  {
    var d := "1,,2";
    assert Lex(d) == [NumberText("1"), SeparatorText(",,"), NumberText("2")] by {
      OneDigit(d);
      assert d[..1] == "1" && d[1..] == ",,2";
      LexCommaCommaTwo();
    }
    ClassifyDoubleCommaExample();
  }

  lemma ClassifyDoubleCommaExample()
    ensures ClassifyAll([NumberText("1"), SeparatorText(",,"), NumberText("2")])
         == [Number(1.0), Number(0.0), Number(2.0)]
  {
    var ls := [NumberText("1"), SeparatorText(",,"), NumberText("2")];
    OneDigit("1");
    OneDigit("2");
    assert "1"[..1] == "1" && "2"[..1] == "2";
    assert CommaCount(",,") == 2 by {
      assert ",,"[1..] == ",";
    }
    assert ls[1..][1..] == [NumberText("2")];
  }
}
