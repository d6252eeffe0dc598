// Results and options, and strings as the services handle them: splitting and
// joining on a separator, trimming, and decimal numbers.
module Wrappers {
  datatype Option<+T> = None | Some(value: T)
  datatype Result<+T, +E> = Ok(value: T) | Err(error: E)
  datatype Outcome<+E> = Pass | Fail(error: E)

  type u32 = n: int | 0 <= n < 0x1_0000_0000
  const U32_MAX: u32 := 0xFFFF_FFFF

  // `part` is what stands at these places, in the order of the whole.
  ghost predicate Picks<T>(whole: seq<T>, at: seq<nat>, part: seq<T>) {
    && |part| == |at|
    && (forall i | 0 <= i < |at| :: at[i] < |whole| && part[i] == whole[at[i]])
    && forall i, j | 0 <= i < j < |at| :: at[i] < at[j]
  }

  // One more element is picked or not.
  lemma PicksOneMore<T>(whole: seq<T>, at: seq<nat>, part: seq<T>, x: T)
    requires Picks(whole, at, part)
    ensures Picks(whole + [x], at, part) && Picks(whole + [x], at + [|whole|], part + [x])
  {
  }
}

module Text {
  import opened Wrappers

  // ---- split and join ----

  // The pieces of `s` between occurrences of `sep`; the empty string has one
  // empty piece.
  function Split(s: string, sep: char): (parts: seq<string>)
    ensures |parts| >= 1
  {
    if s == "" then [""]
    else
      var rest := Split(s[1..], sep);
      if s[0] == sep then [""] + rest else [[s[0]] + rest[0]] + rest[1..]
  }

  function Join(parts: seq<string>, sep: char): string {
    if |parts| == 0 then ""
    else if |parts| == 1 then parts[0]
    else parts[0] + [sep] + Join(parts[1..], sep)
  }

  ghost predicate Free(sep: char, parts: seq<string>) {
    forall i | 0 <= i < |parts| :: sep !in parts[i]
  }

  lemma {:induction false} SplitIsFree(s: string, sep: char)
    ensures Free(sep, Split(s, sep))
  {
    if s != "" { SplitIsFree(s[1..], sep); }
  }

  // A piece without the separator is split off whole.
  lemma {:induction false} SplitPiece(head: string, tail: string, sep: char)
    requires sep !in head
    ensures Split(head + [sep] + tail, sep) == [head] + Split(tail, sep)
    ensures Split(head, sep) == [head]
  {
    var whole := head + [sep] + tail;
    if head == "" {
      assert whole[1..] == tail;
    } else {
      assert whole[1..] == head[1..] + [sep] + tail;
      SplitPiece(head[1..], tail, sep);
      assert head == [head[0]] + head[1..];
    }
  }

  lemma {:induction false} SplitJoin(parts: seq<string>, sep: char)
    requires |parts| >= 1 && Free(sep, parts)
    ensures Split(Join(parts, sep), sep) == parts
  {
    if |parts| == 1 {
      SplitPiece(parts[0], "", sep);
    } else {
      SplitPiece(parts[0], Join(parts[1..], sep), sep);
      SplitJoin(parts[1..], sep);
    }
  }

  // What comes before the first separator is determined, and so is the rest.
  lemma FirstSeparator(a: string, v: string, b: string, w: string, sep: char)
    requires sep !in a && sep !in b && a + [sep] + v == b + [sep] + w
    ensures a == b && v == w
  {
    SplitPiece(a, v, sep);
    SplitPiece(b, w, sep);
    assert ([a] + Split(v, sep))[0] == ([b] + Split(w, sep))[0];
    assert (a + [sep] + v)[|a| + 1..] == v && (b + [sep] + w)[|b| + 1..] == w;
  }

  // ---- trimming ----

  // The White_Space property of Unicode.
  predicate IsWhitespace(c: char) {
    || '\U{0009}' <= c <= '\U{000D}' || c == '\U{0020}' || c == '\U{0085}' || c == '\U{00A0}'
    || c == '\U{1680}' || '\U{2000}' <= c <= '\U{200A}' || c == '\U{2028}' || c == '\U{2029}'
    || c == '\U{202F}' || c == '\U{205F}' || c == '\U{3000}'
  }

  function TrimStart(s: string): string {
    if s != "" && IsWhitespace(s[0]) then TrimStart(s[1..]) else s
  }

  function TrimEnd(s: string): string {
    if s != "" && IsWhitespace(s[|s| - 1]) then TrimEnd(s[..|s| - 1]) else s
  }

  function Trim(s: string): string { TrimEnd(TrimStart(s)) }

  predicate Blank(s: string) { Trim(s) == "" }

  // Neither end of the string is white space.
  predicate Trimmed(s: string) {
    s != "" ==> !IsWhitespace(s[0]) && !IsWhitespace(s[|s| - 1])
  }

  ghost predicate White(s: string) {
    forall i | 0 <= i < |s| :: IsWhitespace(s[i])
  }

  lemma {:induction false} TrimStartPart(s: string) returns (k: nat)
    ensures k <= |s| && TrimStart(s) == s[k..] && White(s[..k])
    ensures k < |s| ==> !IsWhitespace(s[k])
  {
    k := 0;
    if s != "" && IsWhitespace(s[0]) {
      k := TrimStartPart(s[1..]);
      assert s[1..][k..] == s[k + 1..] && s[..k + 1] == [s[0]] + s[1..][..k];
      k := k + 1;
    }
  }

  lemma {:induction false} TrimEndPart(s: string) returns (k: nat)
    ensures k <= |s| && TrimEnd(s) == s[..k] && White(s[k..])
    ensures k > 0 ==> !IsWhitespace(s[k - 1])
  {
    k := |s|;
    if s != "" && IsWhitespace(s[|s| - 1]) {
      var front := s[..|s| - 1];
      k := TrimEndPart(front);
      assert front[..k] == s[..k] && s[k..] == front[k..] + [s[|s| - 1]];
    }
  }

  // Trimming takes white space, and nothing else, off both ends.
  lemma TrimParts(s: string) returns (i: nat, j: nat)
    ensures i <= j <= |s| && Trim(s) == s[i..j]
    ensures White(s[..i]) && White(s[j..]) && Trimmed(Trim(s))
  {
    i := TrimStartPart(s);
    var k := TrimEndPart(s[i..]);
    j := i + k;
    assert s[i..][..k] == s[i..j] && s[i..][k..] == s[j..];
  }

  lemma BlankMeans(s: string)
    ensures Blank(s) <==> White(s)
  {
    var i, j := TrimParts(s);
    if i == j {
      assert s == s[..i] + s[j..];
    } else {
      assert !IsWhitespace(s[i]);
    }
  }

  // Exactly the trimmed strings are left alone.
  lemma TrimIsTrimmed(s: string)
    ensures Trimmed(Trim(s))
    ensures forall c | c in Trim(s) :: c in s
    ensures Trim(s) == s <==> Trimmed(s)
  {
    var i, j := TrimParts(s);
    assert i > 0 ==> IsWhitespace(s[0]);
    assert j < |s| ==> IsWhitespace(s[|s| - 1]) by {
      if j < |s| { assert s[j..][|s| - 1 - j] == s[|s| - 1]; }
    }
  }

  // ---- decimal numbers ----

  function DigitChar(d: nat): (c: char)
    requires d < 10
  {
    ('0' as int + d) as char
  }

  function Print(n: nat): string {
    if n < 10 then [DigitChar(n)] else Print(n / 10) + [DigitChar(n % 10)]
  }

  function PrintInt(n: int): string {
    if n < 0 then "-" + Print(-n) else Print(n)
  }

  predicate AllDigits(s: string) {
    forall i | 0 <= i < |s| :: '0' <= s[i] <= '9'
  }

  function Value(s: string): nat
    requires AllDigits(s)
  {
    if s == "" then 0 else Value(s[..|s| - 1]) * 10 + (s[|s| - 1] as int - '0' as int)
  }

  // An unsigned 32-bit number with an optional plus sign; too large a number
  // is no number.
  function ParseU32(s: string): Option<u32> {
    var digits := if s != "" && s[0] == '+' then s[1..] else s;
    if digits != "" && AllDigits(digits) && Value(digits) <= U32_MAX
    then Some(Value(digits)) else None
  }

  // A signed 32-bit number with an optional sign.
  function ParseI32(s: string): Option<int> {
    var negative := s != "" && s[0] == '-';
    var digits := if negative || (s != "" && s[0] == '+') then s[1..] else s;
    if digits == "" || !AllDigits(digits) then None
    else
      var v: int := Value(digits);
      var n := if negative then -v else v;
      if -0x8000_0000 <= n < 0x8000_0000 then Some(n) else None
  }

  lemma {:induction false} ValuePrint(n: nat)
    ensures Print(n) != "" && AllDigits(Print(n)) && Value(Print(n)) == n
  {
    if n >= 10 {
      ValuePrint(n / 10);
      assert Print(n)[..|Print(n)| - 1] == Print(n / 10);
    }
  }

  // A printed number reads back as itself.
  lemma ParsePrint(n: u32)
    ensures ParseU32(Print(n)) == Some(n)
    ensures n < 0x8000_0000 ==> ParseI32(Print(n)) == Some(n)
  {
    ValuePrint(n);
  }

  // With a sign or without, it is read exactly if it is not too large.
  lemma ParseSigned(n: nat)
    ensures ParseU32(Print(n)) == ParseU32("+" + Print(n)) == if n <= U32_MAX then Some(n) else None
    ensures ParseI32(Print(n)) == ParseI32("+" + Print(n)) == if n < 0x8000_0000 then Some(n) else None
    ensures ParseI32("-" + Print(n)) == if n <= 0x8000_0000 then Some(0 - n) else None
    ensures ParseU32("-" + Print(n)) == None
  {
    ValuePrint(n);
    hide Print, Value, ParseU32, ParseI32;
    DigitsParse(Print(n));
  }

  lemma DigitsParse(digits: string)
    requires digits != "" && AllDigits(digits)
    ensures var n := Value(digits);
            && ParseU32(digits) == ParseU32("+" + digits) == (if n <= U32_MAX then Some(n) else None)
            && ParseI32(digits) == ParseI32("+" + digits) == (if n < 0x8000_0000 then Some(n) else None)
            && ParseI32("-" + digits) == (if n <= 0x8000_0000 then Some(0 - n) else None)
            && ParseU32("-" + digits) == None
  {
    hide Value;
    assert '0' <= digits[0] <= '9';
    assert ("+" + digits)[1..] == digits && ("-" + digits)[1..] == digits;
    assert ("-" + digits)[0] == '-' && ("+" + digits)[0] == '+';
  }

  // A string with a stranger in it is no number.
  lemma ParseStranger(s: string, i: nat)
    requires i < |s| && !('0' <= s[i] <= '9') && (i == 0 ==> s[0] != '+' && s[0] != '-')
    ensures ParseU32(s) == None && ParseI32(s) == None
  {
    assert i > 0 ==> s[1..][i - 1] == s[i];
  }
}
