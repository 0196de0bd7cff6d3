/** String helpers shared by the frontend and the backend models: decimal numerals (as JavaScript
    template literals and Java string concatenation print integers), ASCII case mapping, prefix
    and substring tests, and the two trims the source relies on (JavaScript's
    String.prototype.trim and Java's String.trim). */
module Text {

  function DigitChar(d: nat): (c: char)
    requires d < 10
    ensures '0' <= c <= '9'
  {
    ['0', '1', '2', '3', '4', '5', '6', '7', '8', '9'][d]
  }

  function DigitValue(c: char): nat
  {
    if '0' <= c <= '9' then (c as int - '0' as int) as nat else 0
  }

  predicate IsDigits(s: string)
  {
    forall i :: 0 <= i < |s| ==> '0' <= s[i] <= '9'
  }

  /** The shortest decimal numeral of n. */
  function NatToString(n: nat): (s: string)
    ensures 1 <= |s| && IsDigits(s)
    ensures n < 10 <==> |s| == 1
    decreases n
  {
    if n < 10 then [DigitChar(n)] else NatToString(n / 10) + [DigitChar(n % 10)]
  }

  /** An integer as `${n}` and `"" + n` print it: a minus sign before a negative magnitude. */
  function IntToString(i: int): (s: string)
    ensures 1 <= |s|
    ensures i >= 0 <==> s[0] != '-'
  {
    if i >= 0 then NatToString(i) else "-" + NatToString(-i)
  }

  /** Reads a decimal numeral back; the partner of NatToString. */
  function ParseNat(s: string): nat
  {
    if s == [] then 0 else 10 * ParseNat(s[..|s| - 1]) + DigitValue(s[|s| - 1])
  }

  function ParseInt(s: string): int
  {
    if |s| > 0 && s[0] == '-' then -(ParseNat(s[1..]) as int) else ParseNat(s)
  }

  lemma {:induction false} NatToStringRoundTrip(n: nat)
    ensures ParseNat(NatToString(n)) == n
    decreases n
  {
    var s := NatToString(n);
    if n >= 10 {
      NatToStringRoundTrip(n / 10);
      assert s[..|s| - 1] == NatToString(n / 10);
      assert DigitValue(s[|s| - 1]) == n % 10;
    } else {
      assert s[..|s| - 1] == [];
    }
  }

  /** Every printed integer reads back as itself, so the numerals in the formatted labels
      determine the number that was printed. */
  lemma IntToStringRoundTrip(i: int)
    ensures ParseInt(IntToString(i)) == i
  {
    if i >= 0 {
      NatToStringRoundTrip(i);
      assert IntToString(i)[0] != '-';
    } else {
      NatToStringRoundTrip(-i);
      assert IntToString(i)[1..] == NatToString(-i);
    }
  }

  predicate StartsWith(s: string, prefix: string)
  {
    |prefix| <= |s| && s[..|prefix|] == prefix
  }

  /** sub occurs in s starting at position k. */
  predicate OccursAt(s: string, sub: string, k: int)
  {
    0 <= k <= |s| - |sub| && s[k..k + |sub|] == sub
  }

  ghost predicate Contains(s: string, sub: string)
  {
    exists k :: OccursAt(s, sub, k)
  }

  /** A computable form of Contains: the first position at or after k where sub occurs. */
  function IndexOfFrom(s: string, sub: string, k: nat): (r: int)
    requires k <= |s|
    ensures r == -1 || (k <= r && OccursAt(s, sub, r))
    ensures r == -1 <==> forall j :: k <= j ==> !OccursAt(s, sub, j)
    decreases |s| - k
  {
    if |s| - k < |sub| then -1
    else if s[k..k + |sub|] == sub then k
    else IndexOfFrom(s, sub, k + 1)
  }

  /** String.contains: true exactly when sub occurs somewhere in s. */
  function ContainsSub(s: string, sub: string): (r: bool)
    ensures r <==> Contains(s, sub)
  {
    IndexOfFrom(s, sub, 0) != -1
  }

  predicate IsAsciiUpper(c: char) { 'A' <= c <= 'Z' }
  predicate IsAsciiLower(c: char) { 'a' <= c <= 'z' }

  function LowerChar(c: char): (r: char)
    ensures !IsAsciiUpper(r)
    ensures IsAsciiUpper(c) || r == c
  {
    if IsAsciiUpper(c) then (c as int + 32) as char else c
  }

  function UpperChar(c: char): (r: char)
    ensures !IsAsciiLower(r)
    ensures IsAsciiLower(c) || r == c
  {
    if IsAsciiLower(c) then (c as int - 32) as char else c
  }

  function ToLower(s: string): (r: string)
    ensures |r| == |s|
    ensures forall i :: 0 <= i < |s| ==> r[i] == LowerChar(s[i])
  {
    seq(|s|, i requires 0 <= i < |s| => LowerChar(s[i]))
  }

  /** Characters String.prototype.trim removes: the ECMAScript WhiteSpace and LineTerminator sets. */
  predicate IsJsWhitespace(c: char)
  {
    c == ' ' || c == '\t' || c == '\n' || c == '\r' || c == '\U{000B}' || c == '\U{000C}'
    || c == '\U{00A0}' || c == '\U{1680}' || ('\U{2000}' <= c <= '\U{200A}')
    || c == '\U{2028}' || c == '\U{2029}' || c == '\U{202F}' || c == '\U{205F}'
    || c == '\U{3000}' || c == '\U{FEFF}'
  }

  /** `!s.trim()`: the string is empty once leading and trailing whitespace is trimmed. */
  predicate IsJsBlank(s: string)
  {
    forall i :: 0 <= i < |s| ==> IsJsWhitespace(s[i])
  }

  /** What String.trim strips from either end: every character up to and including the space,
      U+0000 to U+0020. Hibernate Validator's @NotBlank accepts a string whose trimmed form is
      not empty. */
  predicate IsTrimmedByJava(c: char)
  {
    c <= ' '
  }

  /** The negation of @NotBlank for a non-null string. */
  predicate IsJavaBlank(s: string)
  {
    forall i :: 0 <= i < |s| ==> IsTrimmedByJava(s[i])
  }

  /** The leading part String.trim removes: r is the suffix of s after it. */
  function TrimStart(s: string): (r: string)
    ensures |r| <= |s| && r == s[|s| - |r|..]
    ensures |r| > 0 ==> !IsTrimmedByJava(r[0])
    ensures forall i :: 0 <= i < |s| - |r| ==> IsTrimmedByJava(s[i])
  {
    if |s| > 0 && IsTrimmedByJava(s[0]) then TrimStart(s[1..]) else s
  }

  /** The trailing part String.trim removes: r is the prefix of s before it. */
  function TrimEnd(s: string): (r: string)
    ensures |r| <= |s| && r == s[..|r|]
    ensures |r| > 0 ==> !IsTrimmedByJava(r[|r| - 1])
    ensures forall i :: |r| <= i < |s| ==> IsTrimmedByJava(s[i])
  {
    if |s| > 0 && IsTrimmedByJava(s[|s| - 1]) then TrimEnd(s[..|s| - 1]) else s
  }

  /** String.trim. */
  function JavaTrim(s: string): string
  {
    TrimEnd(TrimStart(s))
  }

  /** @NotBlank's test `trim().length() > 0` fails exactly on the strings IsJavaBlank names. */
  lemma JavaBlankIsTrimmedEmpty(s: string)
    ensures IsJavaBlank(s) <==> |JavaTrim(s)| == 0
  {
    var t := TrimStart(s);
    if |t| > 0 {
      assert t[0] == s[|s| - |t|];
      assert |TrimEnd(t)| > 0;
    }
  }

  /** String.lastIndexOf(char): the last position holding c, or -1. */
  function LastIndexOf(s: string, c: char): (r: int)
    ensures -1 <= r < |s|
    ensures r >= 0 ==> s[r] == c && forall j :: r < j < |s| ==> s[j] != c
    ensures r == -1 <==> forall j :: 0 <= j < |s| ==> s[j] != c
  {
    if |s| == 0 then -1
    else if s[|s| - 1] == c then |s| - 1
    else LastIndexOf(s[..|s| - 1], c)
  }
}
