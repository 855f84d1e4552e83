/** Expressions of the disable conditions, as text. */
module ExprText {
  import opened Options

  datatype Builtin = Not | And | Or | Equal

  datatype Value = Nothing | Boolean(b: bool) | Int(i: int) | String(s: string) | Function(f: Builtin)

  datatype Expr = Literal(value: Value) | Variable(name: string) | Compound(children: seq<Expr>)

  // ----- characters -----

  predicate IsSpace(c: char) {
    c in {' ', '\t', '\n', 0x0B as char, 0x0C as char, '\r'}
  }

  predicate IsDigit(c: char) {
    '0' <= c <= '9'
  }

  predicate IsAlpha(c: char) {
    'a' <= c <= 'z' || 'A' <= c <= 'Z'
  }

  predicate IsIdentifierChar(c: char) {
    IsAlpha(c) || c == '_' || c == '-' || c == '?'
  }

  /** The character at a position; the text ends with a zero. */
  function At(s: string, i: nat): char {
    if i < |s| then s[i] else 0 as char
  }

  /** White space is the blank and the control characters from the tab to the carriage return. */
  lemma {:induction false} SpaceIs(c: char)
    ensures IsSpace(c) <==> c as int == 32 || 9 <= c as int <= 13
  {
    assert '\t' as int == 9 && '\n' as int == 10 && '\r' as int == 13;
  }

  /** Identifiers consist of ASCII letters, the low line, the hyphen and the question mark. */
  lemma {:induction false} IdentifierIs(c: char)
    ensures IsIdentifierChar(c) <==>
              65 <= c as int <= 90 || 97 <= c as int <= 122 || c as int == 95 || c as int == 45 || c as int == 63
  {
    assert 'A' as int == 65 && 'Z' as int == 90 && 'a' as int == 97 && 'z' as int == 122;
    assert '_' as int == 95 && '-' as int == 45 && '?' as int == 63;
  }

  // ----- numbers -----

  function DigitsLen(s: string): (n: nat)
    ensures n <= |s| && (forall i :: 0 <= i < n ==> IsDigit(s[i])) && (n < |s| ==> !IsDigit(s[n]))
  {
    if s == "" || !IsDigit(s[0]) then 0 else 1 + DigitsLen(s[1..])
  }

  function DigitOf(c: char): nat
    requires IsDigit(c)
  {
    c as int - '0' as int
  }

  function DigitsValue(s: string): nat
    requires forall i :: 0 <= i < |s| ==> IsDigit(s[i])
  {
    if s == "" then 0 else 10 * DigitsValue(s[..|s| - 1]) + DigitOf(s[|s| - 1])
  }

  const LONG_MAX: int := 0x7FFF_FFFF_FFFF_FFFF

  /** Out-of-range numbers become the nearest 64-bit number. */
  function Saturated(v: int): int {
    if v > LONG_MAX then LONG_MAX else if v < -LONG_MAX - 1 then -LONG_MAX - 1 else v
  }

  /** Only the low 32 bits are kept, as a signed number. */
  function ToInt(v: int): int {
    (v + 0x8000_0000) % 0x1_0000_0000 - 0x8000_0000
  }

  /** The number at the start of the text, and the text behind it. */
  function ReadInt(s: string): (r: (int, string)) {
    var negative := At(s, 0) == '-';
    var start := if negative then 1 else 0;
    var n := DigitsLen(s[start..]);
    var magnitude: int := DigitsValue(s[start..][..n]);
    (ToInt(Saturated(if negative then -magnitude else magnitude)), s[start..][n..])
  }

  // ----- the grammar -----

  function SkipSpace(s: string): (r: string)
    ensures |r| <= |s|
  {
    if s != "" && IsSpace(s[0]) then SkipSpace(s[1..]) else s
  }

  function NameLen(s: string): (n: nat)
    ensures n <= |s|
  {
    if s != "" && IsIdentifierChar(s[0]) then 1 + NameLen(s[1..]) else 0
  }

  /** Characters in front of the first quote, or the whole length when there is none. */
  function QuoteAt(s: string): (n: nat)
    ensures n <= |s|
  {
    if s != "" && s[0] != '"' then 1 + QuoteAt(s[1..]) else 0
  }

  /** Text that starts a number. */
  predicate StartsInt(s: string) {
    IsDigit(At(s, 0)) || (At(s, 0) == '-' && IsDigit(At(s, 1)))
  }

  /** The expression at the start of the text, if there is one, and the text behind what was read. */
  function Parse(s: string): (r: (Option<Expr>, string))
    ensures |r.1| <= |s| && (r.0.Some? ==> |r.1| < |s|)
    decreases |s|, 0
  {
    var t := SkipSpace(s);
    if t == "" then (None, t)
    else if t[0] == '#' then
      if At(t, 1) == 't' || At(t, 1) == 'f' then (Some(Literal(Boolean(t[1] == 't'))), t[2..]) else (None, t[1..])
    else if StartsInt(t) then (Some(Literal(Int(ReadInt(t).0))), ReadInt(t).1)
    else if t[0] == '"' then
      var n := QuoteAt(t[1..]);
      if n == |t| - 1 then (Some(Literal(String(""))), t[1..])
      else (Some(Literal(String(t[1..n + 1]))), t[n + 2..])
    else if t[0] == '(' then
      var (children, u) := ParseAll(t[1..]);
      if At(u, 0) == ')' then (Some(Compound(children)), u[1..]) else (None, u)
    else if IsIdentifierChar(t[0]) then (Some(Variable(t[..NameLen(t)])), t[NameLen(t)..])
    else (None, t)
  }

  /** As many expressions as can be read. */
  function ParseAll(s: string): (r: (seq<Expr>, string))
    ensures |r.1| <= |s|
    decreases |s|, 1
  {
    var (e, t) := Parse(s);
    if e.None? then ([], t)
    else
      var (rest, u) := ParseAll(t);
      ([e.value] + rest, u)
  }

  // ----- printing -----

  function Decimal(n: nat): string {
    (if n < 10 then "" else Decimal(n / 10)) + [(n % 10 + '0' as int) as char]
  }

  function PrintInt(i: int): string {
    if i < 0 then "-" + Decimal(-i) else Decimal(i)
  }

  /** The text of an expression in the notation of the grammar. */
  function Print(e: Expr): string {
    match e
    case Literal(Boolean(b)) => if b then "#t" else "#f"
    case Literal(Int(i)) => PrintInt(i)
    case Literal(String(s)) => "\"" + s + "\""
    case Literal(_) => ""
    case Variable(name) => name
    case Compound(children) => "(" + PrintAll(children) + ")"
  }

  function PrintAll(es: seq<Expr>): string {
    if es == [] then "" else if |es| == 1 then Print(es[0]) else Print(es[0]) + " " + PrintAll(es[1..])
  }

  /** Expressions the grammar can express. */
  predicate WellFormed(e: Expr) {
    match e
    case Literal(Boolean(_)) => true
    case Literal(Int(i)) => -0x8000_0000 <= i < 0x8000_0000
    case Literal(String(s)) => '"' !in s && 0 as char !in s
    case Literal(_) => false
    case Variable(name) => name != "" && forall i :: 0 <= i < |name| ==> IsIdentifierChar(name[i])
    case Compound(children) => forall e :: e in children ==> WellFormed(e)
  }

  /** The next character ends every expression, because it goes on neither a name nor a number. */
  predicate Delimited(rest: string) {
    rest == "" || !(IsIdentifierChar(rest[0]) || IsDigit(rest[0]))
  }

  // ----- round trip -----

  lemma {:induction false} DecimalDigits(n: nat)
    ensures Decimal(n) != "" && (forall i :: 0 <= i < |Decimal(n)| ==> IsDigit(Decimal(n)[i]))
    ensures DigitsValue(Decimal(n)) == n
  {
    var init := if n < 10 then "" else Decimal(n / 10);
    if n >= 10 {
      DecimalDigits(n / 10);
    }
    var last := (n % 10 + '0' as int) as char;
    assert Decimal(n) == init + [last];
    assert Decimal(n)[..|Decimal(n)| - 1] == init;
    assert DigitOf(last) == n % 10;
    assert DigitsValue(init) == n / 10;
  }

  lemma {:induction false} DigitsStop(digits: string, rest: string)
    requires forall i :: 0 <= i < |digits| ==> IsDigit(digits[i])
    requires rest == "" || !IsDigit(rest[0])
    ensures DigitsLen(digits + rest) == |digits|
  {
    var s := digits + rest;
    if digits != "" {
      assert s[0] == digits[0];
      assert s[1..] == digits[1..] + rest;
      DigitsStop(digits[1..], rest);
    } else {
      assert s == rest;
    }
  }

  lemma {:induction false} ReadDigits(m: nat, rest: string)
    requires Delimited(rest)
    ensures var digits, s := Decimal(m), Decimal(m) + rest;
            && IsDigit(At(s, 0)) && DigitsLen(s) == |digits| && s[..|digits|] == digits && s[|digits|..] == rest
            && DigitsValue(s[..|digits|]) == m
  {
    DecimalDigits(m);
    DigitsStop(Decimal(m), rest);
    hide Decimal, DigitsLen, DigitsValue;
    var s, digits := Decimal(m) + rest, Decimal(m);
    assert s[0] == digits[0];
    assert s[..|digits|] == digits && s[|digits|..] == rest;
  }

  lemma {:induction false} ReadPrintedNat(m: nat, rest: string)
    requires Delimited(rest)
    ensures ReadInt(Decimal(m) + rest) == (ToInt(Saturated(m)), rest) && StartsInt(Decimal(m) + rest)
  {
    ReadDigits(m, rest);
    hide Decimal, DigitsLen, DigitsValue, Delimited, ToInt, Saturated;
    var s := Decimal(m) + rest;
    assert s[0..] == s;
  }

  lemma {:induction false} ReadPrintedNegative(m: int, rest: string)
    requires m >= 0 && Delimited(rest)
    ensures ReadInt("-" + Decimal(m) + rest) == (ToInt(Saturated(-m)), rest) && StartsInt("-" + Decimal(m) + rest)
  {
    ReadDigits(m, rest);
    hide Decimal, DigitsLen, DigitsValue, Delimited, ToInt, Saturated;
    var s, t := "-" + Decimal(m) + rest, Decimal(m) + rest;
    assert s[1..] == t && At(s, 1) == At(t, 0);
  }

  lemma {:induction false} ReadPrintedInt(i: int, rest: string)
    requires Delimited(rest)
    ensures ReadInt(PrintInt(i) + rest) == (ToInt(Saturated(i)), rest) && StartsInt(PrintInt(i) + rest)
  {
    hide ReadInt, StartsInt;
    if i < 0 {
      ReadPrintedNegative(-i, rest);
    } else {
      ReadPrintedNat(i, rest);
    }
  }

  lemma {:induction false} FitsInt(i: int)
    requires -0x8000_0000 <= i < 0x8000_0000
    ensures ToInt(Saturated(i)) == i
  {
  }

  lemma {:induction false} QuoteStops(text: string, rest: string)
    requires '"' !in text
    ensures QuoteAt(text + "\"" + rest) == |text|
  {
    var s := text + "\"" + rest;
    if text != "" {
      assert text[0] != '"';
      assert s[1..] == text[1..] + "\"" + rest;
      QuoteStops(text[1..], rest);
    }
  }

  lemma {:induction false} NameStops(name: string, rest: string)
    requires forall i :: 0 <= i < |name| ==> IsIdentifierChar(name[i])
    requires Delimited(rest)
    ensures NameLen(name + rest) == |name|
  {
    var s := name + rest;
    if name != "" {
      assert s[0] == name[0];
      assert s[1..] == name[1..] + rest;
      NameStops(name[1..], rest);
    } else {
      assert s == rest;
    }
  }

  /** A number of any size is read as the nearest 64-bit number, of which the low 32 bits are kept with their sign. */
  lemma {:induction false} ParseNumber(v: int, rest: string)
    requires Delimited(rest)
    ensures var (e, left) := Parse(PrintInt(v) + rest);
            && left == rest && e.Some? && e.value.Literal? && e.value.value.Int?
            && Int32Of(v, e.value.value.i)
  {
    ReadPrintedInt(v, rest);
    StartIsNoSpace(PrintInt(v) + rest);
    hide PrintInt, ReadInt, Saturated, ToInt, StartsInt;
    NumberCut(v);
  }

  /** `i` is the low 32 bits, with their sign, of the 64-bit number nearest to `v`. */
  ghost predicate Int32Of(v: int, i: int) {
    var nearest := if v < -0x8000_0000_0000_0000 then -0x8000_0000_0000_0000
                   else if v > 0x7FFF_FFFF_FFFF_FFFF then 0x7FFF_FFFF_FFFF_FFFF else v;
    -0x8000_0000 <= i < 0x8000_0000 && exists k: int :: i + 0x1_0000_0000 * k == nearest
  }

  lemma {:induction false} NumberCut(v: int)
    ensures Int32Of(v, ToInt(Saturated(v)))
  {
    var n := Saturated(v);
    var k := (n + 0x8000_0000) / 0x1_0000_0000;
    assert ToInt(n) + 0x1_0000_0000 * k == n;
  }

  lemma {:induction false} ParsePrintedInt(i: int, rest: string)
    requires -0x8000_0000 <= i < 0x8000_0000 && Delimited(rest)
    ensures Parse(PrintInt(i) + rest) == (Some(Literal(Int(i))), rest)
    ensures PrintInt(i) != "" && !IsSpace(PrintInt(i)[0])
  {
    var s := PrintInt(i) + rest;
    ReadPrintedInt(i, rest);
    FitsInt(i);
    StartIsNoSpace(s);
    PrintIntStarts(i);
    hide ReadInt, PrintInt, ToInt, Saturated;
    assert PrintInt(i)[0] == s[0];
  }

  lemma {:induction false} PrintIntStarts(i: int)
    ensures PrintInt(i) != ""
  {
  }

  lemma {:induction false} ParsePrintedString(text: string, rest: string)
    requires '"' !in text
    ensures Parse("\"" + text + "\"" + rest) == (Some(Literal(String(text))), rest)
  {
    var s := "\"" + text + "\"" + rest;
    assert s[1..] == text + "\"" + rest;
    QuoteStops(text, rest);
    hide QuoteAt;
    assert s[1..|text| + 1] == text && s[|text| + 2..] == rest;
  }

  lemma {:induction false} ParsePrintedName(name: string, rest: string)
    requires name != "" && (forall i :: 0 <= i < |name| ==> IsIdentifierChar(name[i])) && Delimited(rest)
    ensures Parse(name + rest) == (Some(Variable(name)), rest) && !IsSpace(name[0])
  {
    var s := name + rest;
    NameStops(name, rest);
    assert s[0] == name[0] && IsIdentifierChar(name[0]);
    NoIntName(name, rest);
    hide StartsInt, NameLen, ReadInt;
    assert s[..|name|] == name && s[|name|..] == rest;
  }

  lemma {:induction false} ParsePrintedList(text: string, children: seq<Expr>, rest: string)
    requires ParseAll(text + (")" + rest)) == (children, ")" + rest)
    ensures Parse("(" + text + ")" + rest) == (Some(Compound(children)), rest)
  {
    var s := "(" + text + ")" + rest;
    hide ParseAll;
    assert s[1..] == text + (")" + rest);
    assert (")" + rest)[1..] == rest;
  }

  /** Reading a printed expression gives the expression back and leaves exactly what follows it. */
  lemma {:induction false} ParsePrinted(e: Expr, rest: string)
    requires WellFormed(e) && Delimited(rest)
    ensures Parse(Print(e) + rest) == (Some(e), rest)
    ensures Print(e) != "" && !IsSpace(Print(e)[0])
    decreases e, 0
  {
    match e
    case Literal(Boolean(b)) =>
      assert (Print(e) + rest)[2..] == rest;
    case Literal(Int(i)) =>
      hide Parse, PrintInt;
      ParsePrintedInt(i, rest);
    case Literal(String(text)) =>
      hide Parse;
      ParsePrintedString(text, rest);
    case Variable(name) =>
      hide Parse;
      ParsePrintedName(name, rest);
    case Compound(children) =>
      hide Parse, ParseAll, PrintAll;
      ListEnds(")" + rest);
      ParseAllPrinted(children, ")" + rest, ")" + rest);
      ParsePrintedList(PrintAll(children), children, rest);
  }

  lemma {:induction false} StartIsNoSpace(s: string)
    requires StartsInt(s)
    ensures s != "" && !IsSpace(s[0]) && s[0] != '#'
  {
  }

  lemma {:induction false} NoIntName(name: string, rest: string)
    requires name != "" && (forall i :: 0 <= i < |name| ==> IsIdentifierChar(name[i])) && Delimited(rest)
    ensures !StartsInt(name + rest)
  {
    var s := name + rest;
    assert s[0] == name[0];
    assert |name| > 1 ==> s[1] == name[1];
    assert |name| == 1 && rest != "" ==> s[1] == rest[0];
  }

  /** The parts of a compound expression are read back, up to text in which no expression can be read. */
  lemma {:induction false} ParseAllPrinted(es: seq<Expr>, rest: string, left: string)
    requires forall e :: e in es ==> WellFormed(e)
    requires Parse(rest) == (None, left) && (es == [] || Delimited(rest))
    ensures ParseAll(PrintAll(es) + rest) == (es, left)
    decreases es, 1
  {
    hide Parse, ParseAll, Print, Delimited, WellFormed;
    NothingParsed(rest, left);
    if es == [] {
      assert PrintAll(es) + rest == rest;
    } else if |es| == 1 {
      ParsePrinted(es[0], rest);
      ParseAllStep(Print(es[0]) + rest, es[0], rest, [], left);
      assert es == [es[0]] + [];
    } else {
      ParseAllPrinted(es[1..], rest, left);
      ParseMore(es[0], PrintAll(es[1..]) + rest, es[1..], left);
      assert PrintAll(es) + rest == Print(es[0]) + (" " + (PrintAll(es[1..]) + rest));
      assert es == [es[0]] + es[1..];
    }
  }

  lemma {:induction false} ParseMore(e: Expr, next: string, es: seq<Expr>, left: string)
    requires WellFormed(e) && ParseAll(next) == (es, left)
    ensures ParseAll(Print(e) + (" " + next)) == ([e] + es, left)
    decreases e, 1
  {
    SpaceSkipped(next);
    assert Delimited(" " + next);
    hide Parse, ParseAll, Print, Delimited, WellFormed;
    ParsePrinted(e, " " + next);
    ParseAllStep(Print(e) + (" " + next), e, " " + next, es, left);
  }

  lemma {:induction false} NothingParsed(rest: string, left: string)
    requires Parse(rest) == (None, left)
    ensures ParseAll(rest) == ([], left)
  {
  }

  lemma {:induction false} ListEnds(rest: string)
    requires rest != "" && rest[0] == ')'
    ensures Parse(rest) == (None, rest) && ParseAll(rest) == ([], rest)
  {
  }

  lemma {:induction false} ParseAllStep(s: string, e: Expr, t: string, es: seq<Expr>, u: string)
    requires Parse(s) == (Some(e), t) && ParseAll(t) == (es, u)
    ensures ParseAll(s) == ([e] + es, u)
  {
  }

  lemma {:induction false} SpaceSkipped(s: string)
    ensures Parse(" " + s) == Parse(s) && ParseAll(" " + s) == ParseAll(s)
  {
    assert (" " + s)[1..] == s;
  }

  // ----- text that is not printed -----

  /** Without a closing quote the string is empty and what was to be its text is read on. */
  lemma {:induction false} OpenString(text: string)
    requires '"' !in text
    ensures Parse("\"" + text) == (Some(Literal(String(""))), text)
  {
    assert ("\"" + text)[1..] == text;
    NoQuote(text);
  }

  lemma {:induction false} NoQuote(text: string)
    requires '"' !in text
    ensures QuoteAt(text) == |text|
  {
    if text != "" {
      assert text[0] != '"';
      NoQuote(text[1..]);
    }
  }

  /** White space in front of an expression does not matter. */
  lemma {:induction false} SpacesSkipped(gap: string, s: string)
    requires AllSpaces(gap)
    ensures Parse(gap + s) == Parse(s)
  {
    if gap == "" {
      assert gap + s == s;
    } else {
      assert (gap + s)[1..] == gap[1..] + s;
      SpacesSkipped(gap[1..], s);
    }
  }

  // ----- a mark that starts no boolean -----

  predicate AllSpaces(s: string) {
    forall i :: 0 <= i < |s| ==> IsSpace(s[i])
  }

  lemma {:induction false} GapSkipped(gap: string, s: string)
    requires AllSpaces(gap) && s != "" && !IsSpace(s[0])
    ensures SkipSpace(gap + s) == s
  {
    if gap != "" {
      assert (gap + s)[0] == gap[0];
      assert (gap + s)[1..] == gap[1..] + s;
      GapSkipped(gap[1..], s);
    } else {
      assert gap + s == s;
    }
  }

  lemma {:induction false} MarkRefused(gap: string, tail: string)
    requires AllSpaces(gap) && At(tail, 0) != 't' && At(tail, 0) != 'f'
    ensures Parse(gap + "#" + tail) == (None, tail)
  {
    var s := "#" + tail;
    assert gap + "#" + tail == gap + s;
    GapSkipped(gap, s);
    assert At(s, 1) == At(tail, 0) && s[1..] == tail;
  }

  /**
   * A list with a stray mark behind its parts is accepted, without the mark, if and only if the closing parenthesis
   * follows at once; otherwise the whole list is refused.
   */
  lemma {:induction false} StrayMark(es: seq<Expr>, gap: string, tail: string)
    requires (forall e :: e in es ==> WellFormed(e)) && AllSpaces(gap)
    requires At(tail, 0) != 't' && At(tail, 0) != 'f'
    ensures Parse("(" + PrintAll(es) + gap + "#" + tail)
         == if At(tail, 0) == ')' then (Some(Compound(es)), tail[1..]) else (None, tail)
  {
    hide Parse, ParseAll, PrintAll, WellFormed;
    var list := PrintAll(es) + (gap + "#" + tail);
    MarkRefused(gap, tail);
    assert (gap + "#" + tail)[0] == if gap == "" then '#' else gap[0];
    ParseAllPrinted(es, gap + "#" + tail, tail);
    ParseList(list, es, tail);
    assert "(" + PrintAll(es) + gap + "#" + tail == "(" + list;
  }

  /** A list that is not closed is refused, and all of it is gone. */
  lemma {:induction false} OpenList(es: seq<Expr>, gap: string)
    requires (forall e :: e in es ==> WellFormed(e)) && AllSpaces(gap)
    ensures Parse("(" + PrintAll(es) + gap) == (None, "")
  {
    GapIsNothing(gap);
    hide Parse, ParseAll, PrintAll, WellFormed, AllSpaces, Delimited;
    ParseAllPrinted(es, gap, "");
    var list := PrintAll(es) + gap;
    ParseList(list, es, "");
    assert "(" + PrintAll(es) + gap == "(" + list;
  }

  lemma {:induction false} GapIsNothing(gap: string)
    requires AllSpaces(gap)
    ensures Parse(gap) == (None, "") && Delimited(gap)
  {
    SpacesSkipped(gap, "");
    assert gap + "" == gap;
    assert Parse("") == (None, "");
    hide Parse;
  }

  /** Text that goes on with anything else is refused where it stands. */
  lemma {:induction false} NothingStarts(c: char, tail: string)
    requires !IsSpace(c) && !IsDigit(c) && !IsIdentifierChar(c) && c != '#' && c != '"' && c != '('
    ensures Parse([c] + tail) == (None, [c] + tail)
  {
    assert SkipSpace([c] + tail) == [c] + tail;
  }

  lemma {:induction false} ParseList(list: string, es: seq<Expr>, tail: string)
    requires ParseAll(list) == (es, tail)
    ensures Parse("(" + list) == if At(tail, 0) == ')' then (Some(Compound(es)), tail[1..]) else (None, tail)
  {
    hide ParseAll;
    assert ("(" + list)[1..] == list;
  }
}
