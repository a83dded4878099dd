/**
 * The JavaScript string built-ins the application relies on, over
 * `seq<char>`: `includes`, `indexOf`, `split`, `join`, `substring`, a global literal
 * `replace`, `trim`, `startsWith`, `toLowerCase` (ASCII letters) and the
 * decimal rendering of a natural number in a template literal.
 */
module Strings {
  import opened Wrappers

  /** `sub` occurs in `s` starting at position `i`. */
  predicate OccursAt(s: string, sub: string, i: nat) {
    i + |sub| <= |s| && s[i..i + |sub|] == sub
  }

  /** `s.indexOf(sub, from)`, with "not found" as `None`. */
  function IndexOf(s: string, sub: string, from: nat): (r: Option<nat>)
    ensures r.Some? ==> from <= r.value && OccursAt(s, sub, r.value)
    ensures r.Some? ==> forall j :: from <= j < r.value ==> !OccursAt(s, sub, j)
    ensures r.None? ==> forall j: nat :: from <= j ==> !OccursAt(s, sub, j)
    decreases |s| - from
  {
    if from + |sub| > |s| then None
    else if s[from..from + |sub|] == sub then Some(from)
    else IndexOf(s, sub, from + 1)
  }

  /** `indexOf` finds the first occurrence at or after `from`. */
  lemma {:induction false} IndexOfFirst(s: string, sub: string, from: nat, k: nat)
    requires from <= k && OccursAt(s, sub, k)
    requires forall j :: from <= j < k ==> !OccursAt(s, sub, j)
    ensures IndexOf(s, sub, from) == Some(k)
    decreases k - from
  {
    if from < k {
      IndexOfFirst(s, sub, from + 1, k);
    }
  }

  /** `s.includes(sub)`. */
  predicate Contains(s: string, sub: string)
    ensures Contains(s, sub) <==> exists i: nat :: OccursAt(s, sub, i)
  {
    IndexOf(s, sub, 0).Some?
  }

  /** `s.substring(a, b)`: both ends clamped to the string, and swapped when `a > b`. */
  function Substring(s: string, a: nat, b: nat): (r: string)
    ensures a <= b <= |s| ==> r == s[a..b]
    ensures |r| <= |s|
  {
    var x := if a < |s| then a else |s|;
    var y := if b < |s| then b else |s|;
    if x <= y then s[x..y] else s[y..x]
  }

  /** `s.substring(a)`: from `a`, clamped, to the end. */
  function SubstringFrom(s: string, a: nat): (r: string)
    ensures a <= |s| ==> r == s[a..]
    ensures a >= |s| ==> r == ""
  {
    if a < |s| then s[a..] else ""
  }

  /** `s.startsWith(prefix)`. */
  predicate StartsWith(s: string, prefix: string) {
    |prefix| <= |s| && s[..|prefix|] == prefix
  }

  lemma StartsWithHead(s: string, prefix: string)
    requires |prefix| > 0
    ensures StartsWith(s, prefix) ==> |s| > 0 && s[0] == prefix[0]
  {
    if StartsWith(s, prefix) {
      assert s[..|prefix|][0] == s[0];
    }
  }

  /** `parts.join(sep)`. */
  function Join(parts: seq<string>, sep: string): string
    decreases |parts|
  {
    if |parts| == 0 then ""
    else if |parts| == 1 then parts[0]
    else parts[0] + sep + Join(parts[1..], sep)
  }

  /**
   * `s.split(sep)` for a non-empty separator: the pieces between the
   * left-most non-overlapping occurrences of `sep`. Joining them with `sep`
   * gives `s` back, and no piece contains `sep`.
   */
  function Split(s: string, sep: string): (parts: seq<string>)
    requires |sep| > 0
    ensures |parts| >= 1
    ensures Join(parts, sep) == s
    ensures forall p <- parts :: !Contains(p, sep)
    decreases |s|
  {
    match IndexOf(s, sep, 0)
    case None => [s]
    case Some(k) =>
      var rest := Split(s[k + |sep|..], sep);
      assert !Contains(s[..k], sep) by {
        forall j: nat | OccursAt(s[..k], sep, j) ensures false {
          assert s[..k][j..j + |sep|] == s[j..j + |sep|];
          assert OccursAt(s, sep, j);
        }
      }
      assert s == s[..k] + sep + s[k + |sep|..];
      [s[..k]] + rest
  }

  /** A string without the separator is its own only piece. */
  lemma SplitAbsent(s: string, sep: string)
    requires |sep| > 0 && !Contains(s, sep)
    ensures Split(s, sep) == [s]
  {
  }

  /** Splitting on a character cuts at its first occurrence. */
  lemma SplitAtChar(a: string, c: char, b: string)
    requires forall i :: 0 <= i < |a| ==> a[i] != c
    ensures Split(a + [c] + b, [c]) == [a] + Split(b, [c])
  {
    var s := a + [c] + b;
    assert s[|a|..|a| + 1] == [c];
    forall j | 0 <= j < |a|
      ensures !OccursAt(s, [c], j)
    {
      assert s[j] == a[j];
    }
    IndexOfFirst(s, [c], 0, |a|);
    assert s[..|a|] == a && s[|a| + 1..] == b;
  }

  /** `s.replace(/pat/g, rep)` for a literal, non-empty pattern. */
  function ReplaceAll(s: string, pat: string, rep: string): (r: string)
    requires |pat| > 0
    ensures rep == pat ==> r == s
  {
    Join(Split(s, pat), rep)
  }

  /** Replacing a pattern that does not occur leaves the string as it is. */
  lemma ReplaceAbsent(s: string, pat: string, rep: string)
    requires |pat| > 0 && !Contains(s, pat)
    ensures ReplaceAll(s, pat, rep) == s
  {
    assert IndexOf(s, pat, 0).None?;
  }

  /** Replacing the pattern in the pattern itself gives the replacement. */
  lemma ReplaceWhole(pat: string, rep: string)
    requires |pat| > 0
    ensures ReplaceAll(pat, pat, rep) == rep
  {
    assert OccursAt(pat, pat, 0);
    assert IndexOf(pat, pat, 0) == Some(0);
    assert pat[..0] == "" && pat[|pat|..] == "";
    assert IndexOf("", pat, 0).None?;
    assert Split("", pat) == [""];
    assert Split(pat, pat) == [""] + Split("", pat);
    assert Join(["", ""], rep) == "" + rep + Join([""], rep);
  }

  /** An occurrence of a string also is an occurrence of each of its prefixes. */
  lemma ContainsPrefix(s: string, sub: string, prefix: string)
    requires Contains(s, sub) && StartsWith(sub, prefix)
    ensures Contains(s, prefix)
  {
    var i: nat :| OccursAt(s, sub, i);
    assert s[i..i + |prefix|] == sub[..|prefix|];
    assert OccursAt(s, prefix, i);
  }

  /** The characters `String.prototype.trim` removes: ECMAScript WhiteSpace and LineTerminator. */
  predicate IsSpace(c: char) {
    c == ' ' || c == '\t' || c == '\n' || c == '\r' || c == '\U{B}' || c == '\U{C}' ||
    c == '\U{A0}' || c == '\U{1680}' || ('\U{2000}' <= c <= '\U{200A}') ||
    c == '\U{2028}' || c == '\U{2029}' || c == '\U{202F}' || c == '\U{205F}' ||
    c == '\U{3000}' || c == '\U{FEFF}'
  }

  function TrimStart(s: string): string
    decreases |s|
  {
    if |s| > 0 && IsSpace(s[0]) then TrimStart(s[1..]) else s
  }

  function TrimEnd(s: string): string
    decreases |s|
  {
    if |s| > 0 && IsSpace(s[|s| - 1]) then TrimEnd(s[..|s| - 1]) else s
  }

  /** `s.trim()`. */
  function Trim(s: string): string {
    TrimEnd(TrimStart(s))
  }

  /** `!s.trim()`: the string is empty after trimming. */
  predicate IsBlank(s: string) {
    Trim(s) == ""
  }

  lemma {:induction false} TrimStartBlank(s: string)
    ensures TrimStart(s) == "" <==> forall i :: 0 <= i < |s| ==> IsSpace(s[i])
    decreases |s|
  {
    if |s| > 0 && IsSpace(s[0]) {
      TrimStartBlank(s[1..]);
      assert forall i :: 1 <= i < |s| ==> s[i] == s[1..][i - 1];
    }
  }

  lemma {:induction false} TrimEndKeepsHead(s: string)
    requires |s| > 0 && !IsSpace(s[0])
    ensures TrimEnd(s) != ""
    decreases |s|
  {
    if |s| > 1 && IsSpace(s[|s| - 1]) {
      TrimEndKeepsHead(s[..|s| - 1]);
    }
  }

  lemma {:induction false} TrimStartKeepsTail(s: string)
    ensures TrimStart(s) == "" || !IsSpace(TrimStart(s)[0])
    decreases |s|
  {
    if |s| > 0 && IsSpace(s[0]) {
      TrimStartKeepsTail(s[1..]);
    }
  }

  /** A string is blank exactly when every one of its characters is white space. */
  lemma BlankIffAllSpace(s: string)
    ensures IsBlank(s) <==> forall i :: 0 <= i < |s| ==> IsSpace(s[i])
  {
    TrimStartBlank(s);
    TrimStartKeepsTail(s);
    if TrimStart(s) != "" {
      TrimEndKeepsHead(TrimStart(s));
    }
  }

  /** The ASCII part of `toLowerCase`. */
  function LowerChar(c: char): char {
    if 'A' <= c <= 'Z' then (c as int + 32) as char else c
  }

  /** `s.toLowerCase()` on ASCII letters; other characters are kept. */
  function ToLower(s: string): (r: string)
    ensures |r| == |s|
    ensures forall i :: 0 <= i < |r| ==> !('A' <= r[i] <= 'Z')
    ensures forall i :: 0 <= i < |s| && !('A' <= s[i] <= 'Z') ==> r[i] == s[i]
  {
    seq(|s|, i requires 0 <= i < |s| => LowerChar(s[i]))
  }

  function DigitChar(d: nat): char
    requires d < 10
  {
    "0123456789"[d]
  }

  /** The decimal rendering of `n`, as `${n}` writes it. */
  function NatToString(n: nat): (r: string)
    ensures |r| >= 1
    decreases n
  {
    if n < 10 then [DigitChar(n)] else NatToString(n / 10) + [DigitChar(n % 10)]
  }

  // ------------------------------------------------------------------
  // parseInt without a radix
  // ------------------------------------------------------------------

  /** A digit of radix 16 (`hex`) or 10. */
  predicate IsRadixDigit(c: char, hex: bool) {
    ('0' <= c <= '9') || (hex && (('a' <= c <= 'f') || ('A' <= c <= 'F')))
  }

  /** The value of a digit; the parser only asks it about digits. */
  function DigitValue(c: char, hex: bool): (d: nat)
    ensures IsRadixDigit(c, hex) ==> d < (if hex then 16 else 10)
  {
    if '0' <= c <= '9' then c as int - '0' as int
    else if hex && 'a' <= c <= 'f' then c as int - 'a' as int + 10
    else if hex && 'A' <= c <= 'F' then c as int - 'A' as int + 10
    else 0
  }

  /** The length of the longest prefix made of digits. */
  function DigitRun(s: string, hex: bool): (n: nat)
    ensures n <= |s|
    decreases |s|
  {
    if |s| > 0 && IsRadixDigit(s[0], hex) then 1 + DigitRun(s[1..], hex) else 0
  }

  /** The run is made of digits and stops at the first non-digit. */
  lemma {:induction false} DigitRunSpec(s: string, hex: bool)
    ensures forall i :: 0 <= i < DigitRun(s, hex) ==> IsRadixDigit(s[i], hex)
    ensures DigitRun(s, hex) < |s| ==> !IsRadixDigit(s[DigitRun(s, hex)], hex)
    decreases |s|
  {
    if |s| > 0 && IsRadixDigit(s[0], hex) {
      DigitRunSpec(s[1..], hex);
      assert forall i :: 1 <= i < |s| ==> s[i] == s[1..][i - 1];
    }
  }

  /** The value of a string of digits, most significant first. */
  function DigitsValue(s: string, hex: bool): nat
    decreases |s|
  {
    if |s| == 0 then 0
    else if hex then DigitsValue(s[..|s| - 1], hex) * 16 + DigitValue(s[|s| - 1], hex)
    else DigitsValue(s[..|s| - 1], hex) * 10 + DigitValue(s[|s| - 1], hex)
  }

  /**
   * `parseInt(s)`: leading white space is skipped, then an optional sign,
   * then `0x`/`0X` switches to radix 16; the longest run of digits is
   * read, and no digit at all gives NaN.
   */
  function ParseInt(s: string): (r: Option<int>)
  {
    ParseSigned(TrimStart(s))
  }

  /** The optional sign, then the unsigned part. */
  function ParseSigned(t: string): Option<int> {
    var body := if |t| > 0 && (t[0] == '-' || t[0] == '+') then t[1..] else t;
    match ParseUnsigned(body)
    case Some(v) => Some(if |t| > 0 && t[0] == '-' then 0 - v else v)
    case None => None
  }

  /** The radix prefix, then the longest run of digits; none gives NaN. */
  function ParseUnsigned(body: string): Option<int> {
    var hex := |body| >= 2 && body[0] == '0' && (body[1] == 'x' || body[1] == 'X');
    var digits := if hex then body[2..] else body;
    var n := DigitRun(digits, hex);
    if n == 0 then None else Some(DigitsValue(digits[..n], hex))
  }

  /** The decimal rendering is all digits, and reading it back gives the number. */
  lemma {:induction false} NatToStringDigits(n: nat)
    ensures forall i :: 0 <= i < |NatToString(n)| ==> '0' <= NatToString(n)[i] <= '9'
    ensures DigitsValue(NatToString(n), false) == n
    decreases n
  {
    var s := NatToString(n);
    if n < 10 {
      assert s == [DigitChar(n)];
      assert DigitChar(n) as int - '0' as int == n;
      assert s[..0] == [];
    } else {
      NatToStringDigits(n / 10);
      var c := DigitChar(n % 10);
      assert s == NatToString(n / 10) + [c];
      assert s[..|s| - 1] == NatToString(n / 10);
      assert c as int - '0' as int == n % 10;
    }
  }

  /** `parseInt` reads back what `${n}` and `${-n}` write. */
  lemma ParseIntNatToString(n: nat)
    ensures ParseInt(NatToString(n)) == Some(n)
    ensures ParseInt("-" + NatToString(n)) == Some(-(n as int))
  {
    NatToStringUnsigned(n);
    ParsePlain(NatToString(n), n);
    ParseNegative(NatToString(n), n);
  }

  lemma NatToStringUnsigned(n: nat)
    ensures ParseUnsigned(NatToString(n)) == Some(n) && '0' <= NatToString(n)[0] <= '9'
  {
    NatToStringDigits(n);
    UnsignedDecimal(NatToString(n));
  }

  /** Without a sign or leading space, `parseInt` is the unsigned reading. */
  lemma ParsePlain(s: string, v: int)
    requires |s| > 0 && '0' <= s[0] <= '9' && ParseUnsigned(s) == Some(v)
    ensures ParseInt(s) == Some(v)
  {
    TrimStartNonSpace(s);
  }

  /** A leading minus negates the unsigned reading. */
  lemma ParseNegative(s: string, v: int)
    requires ParseUnsigned(s) == Some(v)
    ensures ParseInt("-" + s) == Some(0 - v)
  {
    TrimStartNonSpace("-" + s);
    SignedNegative(s, v);
  }

  lemma SignedNegative(s: string, v: int)
    requires ParseUnsigned(s) == Some(v)
    ensures ParseSigned("-" + s) == Some(0 - v)
  {
    var m := "-" + s;
    assert m[1..] == s;
    SignedMinus(m, v);
  }

  lemma SignedMinus(t: string, v: int)
    requires |t| > 0 && t[0] == '-' && ParseUnsigned(t[1..]) == Some(v)
    ensures ParseSigned(t) == Some(0 - v)
  {
  }

  /** A non-empty string of decimal digits reads as its value. */
  lemma UnsignedDecimal(s: string)
    requires |s| > 0 && forall i :: 0 <= i < |s| ==> '0' <= s[i] <= '9'
    ensures ParseUnsigned(s) == Some(DigitsValue(s, false))
  {
    assert !(|s| >= 2 && (s[1] == 'x' || s[1] == 'X'));
    DigitRunAll(s, false);
    assert s[..|s|] == s;
  }

  lemma TrimStartNonSpace(s: string)
    requires |s| > 0 && !IsSpace(s[0])
    ensures TrimStart(s) == s
  {
  }

  lemma {:induction false} DigitRunAll(s: string, hex: bool)
    requires forall i :: 0 <= i < |s| ==> IsRadixDigit(s[i], hex)
    ensures DigitRun(s, hex) == |s|
    decreases |s|
  {
    if |s| > 0 {
      DigitRunAll(s[1..], hex);
    }
  }

  /** Text without any digit, such as an emptied number field, reads as NaN. */
  lemma ParseIntNoDigits(s: string)
    requires forall i :: 0 <= i < |s| ==> !('0' <= s[i] <= '9')
    ensures ParseInt(s) == None
  {
    TrimStartSuffix(s);
    var t := TrimStart(s);
    var body := if |t| > 0 && (t[0] == '-' || t[0] == '+') then t[1..] else t;
    assert |body| > 0 ==> body[0] in t;
  }

  lemma {:induction false} TrimStartSuffix(s: string)
    ensures forall c :: c in TrimStart(s) ==> c in s
    decreases |s|
  {
    if |s| > 0 && IsSpace(s[0]) {
      TrimStartSuffix(s[1..]);
      assert forall c :: c in s[1..] ==> c in s;
    }
  }

  /** A string without the character `c` does not contain `[c]`. */
  lemma CharAbsent(s: string, c: char)
    requires forall i :: 0 <= i < |s| ==> s[i] != c
    ensures !Contains(s, [c])
  {
    forall j: nat
      ensures !OccursAt(s, [c], j)
    {
      if j + 1 <= |s| {
        assert s[j..j + 1] == [s[j]];
      }
    }
  }
}
