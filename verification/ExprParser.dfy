/** The parser: it moves a position through the text. */
module ExprParser {
  import opened Options
  import opened ExprText

  lemma {:induction false} Tail(s: string, pos: nat, n: nat)
    requires pos + n <= |s|
    ensures s[pos..][n..] == s[pos + n..]
  {
  }

  method SkipSpaces(s: string, pos: nat) returns (end: nat)
    requires pos <= |s|
    ensures pos <= end <= |s| && s[end..] == SkipSpace(s[pos..])
    ensures end < |s| ==> !IsSpace(s[end])
  {
    end := pos;
    while end < |s| && IsSpace(s[end])
      invariant pos <= end <= |s| && SkipSpace(s[end..]) == SkipSpace(s[pos..])
    {
      Tail(s, end, 1);
      end := end + 1;
    }
  }

  method ScanDigits(s: string, pos: nat) returns (end: nat, value: nat)
    requires pos <= |s|
    ensures end == pos + DigitsLen(s[pos..]) <= |s| && value == DigitsValue(s[pos..end])
  {
    hide DigitsLen, DigitsValue, DigitOf;
    end, value := pos, 0;
    NoDigits(s, pos);
    while end < |s| && IsDigit(s[end])
      invariant pos <= end <= |s| && (forall i :: pos <= i < end ==> IsDigit(s[i]))
      invariant value == DigitsValue(s[pos..end])
    {
      NextDigit(s, pos, end);
      value := 10 * value + DigitOf(s[end]);
      end := end + 1;
    }
    DigitsEnd(s, pos, end);
  }

  lemma {:induction false} NoDigits(s: string, pos: nat)
    requires pos <= |s|
    ensures DigitsValue(s[pos..pos]) == 0
  {
  }

  lemma {:induction false} NextDigit(s: string, pos: nat, end: nat)
    requires pos <= end < |s| && forall i :: pos <= i <= end ==> IsDigit(s[i])
    ensures DigitsValue(s[pos..end + 1]) == 10 * DigitsValue(s[pos..end]) + DigitOf(s[end])
  {
    assert s[pos..end + 1][..end - pos] == s[pos..end];
  }

  lemma {:induction false} DigitsEnd(s: string, pos: nat, end: nat)
    requires pos <= end <= |s| && (forall i :: pos <= i < end ==> IsDigit(s[i])) && (end < |s| ==> !IsDigit(s[end]))
    ensures end == pos + DigitsLen(s[pos..])
  {
    hide DigitsLen;
    assert s[pos..] == s[pos..end] + s[end..];
    DigitsStop(s[pos..end], s[end..]);
  }

  lemma {:induction false} SomeDigit(s: string)
    requires s != "" && IsDigit(s[0])
    ensures DigitsLen(s) > 0
  {
  }

  /** Reads a number the way `strtol` does. */
  method ReadInteger(s: string, pos: nat) returns (value: int, end: nat)
    requires pos <= |s| && StartsInt(s[pos..])
    ensures pos < end <= |s| && (value, s[end..]) == ReadInt(s[pos..])
  {
    if IsDigit(s[pos]) {
      SomeDigit(s[pos..]);
    }
    hide DigitsLen, DigitsValue, ToInt, Saturated, ReadInt;
    var start := if s[pos] == '-' then pos + 1 else pos;
    var magnitude: int;
    end, magnitude := ScanDigits(s, start);
    NumberAt(s, pos, start, end);
    value := ToInt(Saturated(if s[pos] == '-' then -magnitude else magnitude));
  }

  lemma {:induction false} NumberAt(s: string, pos: nat, start: nat, end: nat)
    requires pos < |s| && start == (if s[pos] == '-' then pos + 1 else pos)
             && end == start + DigitsLen(s[start..]) <= |s|
    ensures var magnitude: int := DigitsValue(s[start..end]);
            ReadInt(s[pos..]) == (ToInt(Saturated(if s[pos] == '-' then -magnitude else magnitude)), s[end..])
  {
    hide DigitsLen, DigitsValue, ToInt, Saturated;
    Tail(s, pos, start - pos);
    Tail(s, start, end - start);
    assert s[start..][..end - start] == s[start..end];
  }

  method ScanName(s: string, pos: nat) returns (end: nat)
    requires pos <= |s|
    ensures pos <= end <= |s| && end == pos + NameLen(s[pos..])
  {
    end := pos;
    while end < |s| && IsIdentifierChar(s[end])
      invariant pos <= end <= |s| && end + NameLen(s[end..]) == pos + NameLen(s[pos..])
    {
      Tail(s, end, 1);
      end := end + 1;
    }
  }

  method FindQuote(s: string, pos: nat) returns (end: nat)
    requires pos <= |s|
    ensures pos <= end <= |s| && end == pos + QuoteAt(s[pos..])
  {
    end := pos;
    while end < |s| && s[end] != '"'
      invariant pos <= end <= |s| && end + QuoteAt(s[end..]) == pos + QuoteAt(s[pos..])
    {
      Tail(s, end, 1);
      end := end + 1;
    }
  }

  method ParseString(s: string, pos: nat) returns (e: Expr, end: nat)
    requires pos < |s| && s[pos] == '"'
    ensures pos < end <= |s| && (Some(e), s[end..]) == Parse(s[pos..])
  {
    var begin := pos + 1;
    Tail(s, pos, 1);
    assert s[begin..begin] == "";
    var quote := FindQuote(s, begin);
    if quote == |s| {
      quote, end := begin, begin;
    } else {
      end := quote + 1;
      Tail(s, pos, end - pos);
      assert s[pos..][1..quote - pos] == s[begin..quote];
    }
    e := Literal(String(s[begin..quote]));
  }

  /** `#t` or `#f`; anything else is refused behind the mark. */
  method ParseBoolean(s: string, pos: nat) returns (e: Option<Expr>, end: nat)
    requires pos < |s| && s[pos] == '#'
    ensures pos < end <= |s| && (e, s[end..]) == Parse(s[pos..])
  {
    Tail(s, pos, 1);
    end := pos + 1;
    if At(s, end) == 't' || At(s, end) == 'f' {
      Tail(s, pos, 2);
      return Some(Literal(Boolean(s[end] == 't'))), end + 1;
    }
    e := None;
  }

  method ParseInteger(s: string, pos: nat) returns (e: Expr, end: nat)
    requires pos < |s| && StartsInt(s[pos..])
    ensures pos < end <= |s| && (Some(e), s[end..]) == Parse(s[pos..])
  {
    StartIsNoSpace(s[pos..]);
    var value;
    value, end := ReadInteger(s, pos);
    hide ReadInt;
    e := Literal(Int(value));
  }

  method ParseVariable(s: string, pos: nat) returns (e: Expr, end: nat)
    requires pos < |s| && IsIdentifierChar(s[pos]) && !StartsInt(s[pos..])
    ensures pos < end <= |s| && (Some(e), s[end..]) == Parse(s[pos..])
  {
    end := ScanName(s, pos);
    Tail(s, pos, end - pos);
    assert s[pos..][..end - pos] == s[pos..end];
    e := Variable(s[pos..end]);
  }

  lemma {:induction false} ParseCompound(s: string, pos: nat, children: seq<Expr>, end: nat)
    requires pos < |s| && s[pos] == '(' && end <= |s| && (children, s[end..]) == ParseAll(s[pos + 1..])
    ensures if At(s, end) == ')' then Parse(s[pos..]) == (Some(Compound(children)), s[end + 1..])
            else Parse(s[pos..]) == (None, s[end..])
  {
    hide ParseAll;
    Tail(s, pos, 1);
    if end < |s| {
      Tail(s, end, 1);
    }
  }

  lemma {:induction false} ParseNothing(s: string, pos: nat)
    requires pos <= |s| && (pos < |s| ==> !IsSpace(s[pos]))
    requires pos < |s| ==> s[pos] !in {'#', '"', '('} && !StartsInt(s[pos..]) && !IsIdentifierChar(s[pos])
    ensures Parse(s[pos..]) == (None, s[pos..])
  {
  }

  /** The expression at a position; on failure the position is where the reading stopped. */
  method ParseOneExpr(s: string, start: nat) returns (e: Option<Expr>, pos: nat)
    requires start <= |s|
    ensures start <= pos <= |s| && (e, s[pos..]) == Parse(s[start..])
    decreases |s| - start, 0
  {
    hide Parse, ParseAll, SkipSpace, IsSpace;
    pos := SkipSpaces(s, start);
    ParseSkips(s[start..]);
    if pos == |s| {
      ParseNothing(s, pos);
      return None, pos;
    }
    if s[pos] == '#' {
      e, pos := ParseBoolean(s, pos);
      return;
    }
    if IsDigit(s[pos]) || (s[pos] == '-' && IsDigit(At(s, pos + 1))) {
      var literal;
      literal, pos := ParseInteger(s, pos);
      return Some(literal), pos;
    }
    if s[pos] == '"' {
      var literal;
      literal, pos := ParseString(s, pos);
      return Some(literal), pos;
    }
    if s[pos] == '(' {
      var children, end := ParseChildren(s, pos + 1);
      ParseCompound(s, pos, children, end);
      if At(s, end) != ')' {
        return None, end;
      }
      return Some(Compound(children)), end + 1;
    }
    if IsIdentifierChar(s[pos]) {
      var name;
      name, pos := ParseVariable(s, pos);
      return Some(name), pos;
    }
    ParseNothing(s, pos);
    return None, pos;
  }

  lemma {:induction false} ParseSkips(s: string)
    ensures Parse(s) == Parse(SkipSpace(s))
  {
    SkipTwice(s);
  }

  lemma {:induction false} SkipTwice(s: string)
    ensures SkipSpace(SkipSpace(s)) == SkipSpace(s)
  {
    if s != "" && IsSpace(s[0]) {
      SkipTwice(s[1..]);
    }
  }

  /** `read` and then what can still be read at `pos` is all that can be read at `start`. */
  ghost predicate Reading(s: string, start: nat, read: seq<Expr>, pos: nat)
    requires start <= |s| && pos <= |s|
  {
    ParseAll(s[start..]) == (read + ParseAll(s[pos..]).0, ParseAll(s[pos..]).1)
  }

  lemma {:induction false} NothingRead(s: string, start: nat)
    requires start <= |s|
    ensures Reading(s, start, [], start)
  {
    var r := ParseAll(s[start..]);
    assert [] + r.0 == r.0;
  }

  lemma {:induction false} NextRead(s: string, start: nat, read: seq<Expr>, pos: nat, e: Option<Expr>, end: nat)
    requires start <= |s| && pos <= |s| && end <= |s| && Reading(s, start, read, pos)
             && (e, s[end..]) == Parse(s[pos..])
    ensures e.Some? ==> Reading(s, start, read + [e.value], end)
    ensures e.None? ==> ParseAll(s[start..]) == (read, s[end..])
  {
    var r := ParseAll(s[pos..]);
    if e.Some? {
      var next := ParseAll(s[end..]);
      ParseAllStep(s[pos..], e.value, s[end..], next.0, next.1);
      assert read + ([e.value] + next.0) == read + [e.value] + next.0;
    } else {
      assert r == ([], s[end..]);
      assert read + [] == read;
    }
  }

  /** The loop over the parts of a compound expression. */
  method ParseChildren(s: string, start: nat) returns (children: seq<Expr>, pos: nat)
    requires start <= |s|
    ensures start <= pos <= |s| && (children, s[pos..]) == ParseAll(s[start..])
    decreases |s| - start, 1
  {
    hide ParseAll, Reading;
    children, pos := [], start;
    NothingRead(s, start);
    while true
      invariant start <= pos <= |s| && Reading(s, start, children, pos)
      decreases |s| - pos
    {
      var next, end := ParseOneExpr(s, pos);
      NextRead(s, start, children, pos, next, end);
      pos := end;
      if next.None? {
        return;
      }
      children := children + [next.value];
    }
  }
}
