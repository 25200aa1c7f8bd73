/**
 * String primitives of the JavaScript runtime that the application relies on:
 * the character classes its regular expressions use, `trim`, ASCII case
 * mapping, `indexOf`/`lastIndexOf`, `split`, `join`, `parseInt` and the
 * decimal rendering of integers inside template strings.
 */
module TextUtil {

  datatype Option<T> = None | Some(value: T)

  /** A computation that either yields a value or throws an error with a message. */
  datatype Result<T> = Ok(value: T) | Err(error: string)

  /** `\s` and the characters `String.prototype.trim` removes: WhiteSpace and LineTerminator. */
  predicate IsSpace(c: char)
  {
    c == ' ' || c == '\t' || c == '\n' || c == '\r' || c == '\U{000B}' || c == '\U{000C}'
    || c == '\U{00A0}' || c == '\U{1680}' || ('\U{2000}' <= c <= '\U{200A}')
    || c == '\U{2028}' || c == '\U{2029}' || c == '\U{202F}' || c == '\U{205F}'
    || c == '\U{3000}' || c == '\U{FEFF}'
  }

  /** The characters `.` in a regular expression does not match. */
  predicate IsLineTerminator(c: char)
  {
    c == '\n' || c == '\r' || c == '\U{2028}' || c == '\U{2029}'
  }

  predicate IsDigit(c: char) { '0' <= c <= '9' }
  predicate IsUpper(c: char) { 'A' <= c <= 'Z' }
  predicate IsLower(c: char) { 'a' <= c <= 'z' }
  predicate IsAlpha(c: char) { IsUpper(c) || IsLower(c) }

  /** `\w`: ASCII letters, digits and underscore. */
  predicate IsWordChar(c: char) { IsAlpha(c) || IsDigit(c) || c == '_' }

  /** `\b` at position `i` of `s`: exactly one side is a word character. */
  predicate WordBoundary(s: string, i: nat)
    requires i <= |s|
  {
    (i > 0 && IsWordChar(s[i - 1])) != (i < |s| && IsWordChar(s[i]))
  }

  function LowerChar(c: char): char
  {
    if IsUpper(c) then (c as int + 32) as char else c
  }

  function UpperChar(c: char): char
  {
    if IsLower(c) then (c as int - 32) as char else c
  }

  /** `toLowerCase`, on the ASCII letters. */
  function Lower(s: string): (r: string)
    ensures |r| == |s|
    ensures forall i :: 0 <= i < |s| ==> r[i] == LowerChar(s[i])
  {
    if s == [] then [] else [LowerChar(s[0])] + Lower(s[1..])
  }

  /** `toUpperCase`, on the ASCII letters. */
  function Upper(s: string): (r: string)
    ensures |r| == |s|
    ensures forall i :: 0 <= i < |s| ==> r[i] == UpperChar(s[i])
  {
    if s == [] then [] else [UpperChar(s[0])] + Upper(s[1..])
  }

  /** Case-insensitive equality of two strings, as a regular expression with the `i` flag compares them. */
  predicate EqualsIgnoreCase(s: string, t: string)
  {
    Lower(s) == Lower(t)
  }

  function TrimStart(s: string): (r: string)
    ensures |r| <= |s|
    ensures r == [] || !IsSpace(r[0])
  {
    if |s| > 0 && IsSpace(s[0]) then TrimStart(s[1..]) else s
  }

  function TrimEnd(s: string): (r: string)
    ensures |r| <= |s|
    ensures r == [] || !IsSpace(r[|r| - 1])
  {
    if |s| > 0 && IsSpace(s[|s| - 1]) then TrimEnd(s[..|s| - 1]) else s
  }

  /** `trimStart` drops a prefix made of white space. */
  lemma {:induction false} TrimStartSlice(s: string)
    ensures TrimStart(s) == s[|s| - |TrimStart(s)|..]
    ensures forall i :: 0 <= i < |s| - |TrimStart(s)| ==> IsSpace(s[i])
    decreases |s|
  {
    if |s| > 0 && IsSpace(s[0]) {
      TrimStartSlice(s[1..]);
    }
  }

  /** `trimEnd` drops a suffix made of white space. */
  lemma {:induction false} TrimEndSlice(s: string)
    ensures TrimEnd(s) == s[..|TrimEnd(s)|]
    ensures forall i :: |TrimEnd(s)| <= i < |s| ==> IsSpace(s[i])
    decreases |s|
  {
    if |s| > 0 && IsSpace(s[|s| - 1]) {
      TrimEndSlice(s[..|s| - 1]);
    }
  }

  /** `String.prototype.trim`. */
  function Trim(s: string): (r: string)
  {
    TrimEnd(TrimStart(s))
  }

  predicate IsTrimmed(s: string)
  {
    s == [] || (!IsSpace(s[0]) && !IsSpace(s[|s| - 1]))
  }

  lemma TrimStartOfTrimmed(s: string)
    requires s == [] || !IsSpace(s[0])
    ensures TrimStart(s) == s
  {
  }

  lemma TrimEndOfTrimmed(s: string)
    requires s == [] || !IsSpace(s[|s| - 1])
    ensures TrimEnd(s) == s
  {
  }

  /** The result of `trim` has no leading or trailing white space and is a slice of its input. */
  lemma TrimIsTrimmed(s: string)
    ensures IsTrimmed(Trim(s))
    ensures exists i, j :: 0 <= i <= j <= |s| && Trim(s) == s[i..j]
  {
    var a := TrimStart(s);
    var b := TrimEnd(a);
    TrimStartSlice(s);
    TrimEndSlice(a);
    var i := |s| - |a|;
    assert b == s[i..][..|b|];
    assert s[i..][..|b|] == s[i..i + |b|];
    if b != [] {
      assert b[0] == a[0];
    }
  }

  /** `trim` is idempotent. */
  lemma TrimIdempotent(s: string)
    ensures Trim(Trim(s)) == Trim(s)
  {
    var t := Trim(s);
    TrimIsTrimmed(s);
    TrimStartOfTrimmed(t);
    TrimEndOfTrimmed(t);
  }

  /** A string is blank, i.e. its trimmed form is empty, exactly when every character is white space. */
  lemma TrimEmptyIffAllSpace(s: string)
    ensures Trim(s) == [] <==> forall i :: 0 <= i < |s| ==> IsSpace(s[i])
  {
    var a := TrimStart(s);
    TrimStartSlice(s);
    if a != [] {
      assert !IsSpace(a[0]);
      TrimEndSlice(a);
      assert |TrimEnd(a)| >= 1;
      assert s[|s| - |a|] == a[0];
    }
  }

  predicate StartsWith(s: string, p: string)
  {
    |p| <= |s| && s[..|p|] == p
  }

  predicate EndsWith(s: string, p: string)
  {
    |p| <= |s| && s[|s| - |p|..] == p
  }

  /** Whether `t` occurs in `s` at position `i`. */
  predicate OccursAt(s: string, t: string, i: nat)
  {
    i + |t| <= |s| && s[i..i + |t|] == t
  }

  /** `s.indexOf(t, from)`, with -1 for "not found". */
  function IndexOfFrom(s: string, t: string, from: nat): (r: int)
    decreases |s| - from
    ensures r == -1 || (from <= r && OccursAt(s, t, r))
    ensures r == -1 ==> forall k :: from <= k && OccursAt(s, t, k) ==> false
    ensures r >= 0 ==> forall k :: from <= k < r ==> !OccursAt(s, t, k)
  {
    if from + |t| > |s| then -1
    else if s[from..from + |t|] == t then from
    else IndexOfFrom(s, t, from + 1)
  }

  function IndexOf(s: string, t: string): (r: int)
    ensures r == -1 || (0 <= r && OccursAt(s, t, r))
    ensures r == -1 <==> forall k :: !OccursAt(s, t, k)
    ensures r >= 0 ==> forall k :: 0 <= k < r ==> !OccursAt(s, t, k)
  {
    IndexOfFrom(s, t, 0)
  }

  /** `s.includes(t)`. */
  predicate Contains(s: string, t: string)
  {
    IndexOf(s, t) >= 0
  }

  /** `t` does not occur at `j` when its character `i` is missing or different there. */
  lemma NotOccursAt(s: string, t: string, j: nat, i: nat)
    requires i < |t| && (j + i >= |s| || s[j + i] != t[i])
    ensures !OccursAt(s, t, j)
  {
  }

  /** A string that lacks one of the characters of `t` does not contain `t`. */
  lemma MissingCharacter(s: string, t: string, i: nat)
    requires i < |t| && t[i] !in s
    ensures !Contains(s, t)
  {
  }

  /** `s.indexOf(c, from)` for a single character. */
  function IndexOfCharFrom(s: string, c: char, from: nat): (r: int)
    decreases |s| - from
    ensures r == -1 || (from <= r < |s| && s[r] == c)
    ensures r == -1 ==> forall k :: from <= k < |s| ==> s[k] != c
    ensures r >= 0 ==> forall k :: from <= k < r ==> s[k] != c
  {
    if from >= |s| then -1
    else if s[from] == c then from
    else IndexOfCharFrom(s, c, from + 1)
  }

  function IndexOfChar(s: string, c: char): (r: int)
    ensures r == -1 || (0 <= r < |s| && s[r] == c)
    ensures r == -1 <==> forall k :: 0 <= k < |s| ==> s[k] != c
    ensures r >= 0 ==> forall k :: 0 <= k < r ==> s[k] != c
  {
    IndexOfCharFrom(s, c, 0)
  }

  /** `s.lastIndexOf(c)`. */
  function LastIndexOfChar(s: string, c: char): (r: int)
    ensures r == -1 || (0 <= r < |s| && s[r] == c)
    ensures r == -1 <==> forall k :: 0 <= k < |s| ==> s[k] != c
    ensures r >= 0 ==> forall k :: r < k < |s| ==> s[k] != c
  {
    if s == [] then -1
    else if s[|s| - 1] == c then |s| - 1
    else LastIndexOfChar(s[..|s| - 1], c)
  }

  /** `s.substring(0, n)` for `n >= 0`. */
  function Prefix(s: string, n: nat): (r: string)
  {
    if n <= |s| then s[..n] else s
  }

  /** `s.substring(n)` for `n >= 0`. */
  function SuffixFrom(s: string, n: nat): (r: string)
  {
    if n <= |s| then s[n..] else []
  }

  /** `parts.join(sep)`. */
  function Join(parts: seq<string>, sep: string): (r: string)
  {
    if parts == [] then []
    else if |parts| == 1 then parts[0]
    else parts[0] + sep + Join(parts[1..], sep)
  }

  /** A character that occurs once is found by both the first and the last search. */
  lemma OnlyOccurrence(s: string, c: char, i: nat)
    requires i < |s| && s[i] == c && forall k :: 0 <= k < |s| && k != i ==> s[k] != c
    ensures IndexOfChar(s, c) == i && LastIndexOfChar(s, c) == i
  {
  }

  /** `s.split(c)` for a one-character separator: the pieces between occurrences of `c`. */
  function SplitChar(s: string, c: char): (r: seq<string>)
    ensures |r| >= 1
  {
    var i := IndexOfChar(s, c);
    if i < 0 then [s] else [s[..i]] + SplitChar(s[i + 1..], c)
  }

  /** No piece of a split contains the separator. */
  lemma {:induction false} SplitPiecesFree(s: string, c: char)
    ensures forall k :: 0 <= k < |SplitChar(s, c)| ==> c !in SplitChar(s, c)[k]
    decreases |s|
  {
    var i := IndexOfChar(s, c);
    if i >= 0 {
      SplitPiecesFree(s[i + 1..], c);
      assert SplitChar(s, c) == [s[..i]] + SplitChar(s[i + 1..], c);
    }
  }

  lemma AppendThree<T>(a: seq<T>, b: seq<T>, c: seq<T>)
    ensures a + (b + c) == a + b + c
  {
  }

  lemma SplitNone(a: string, c: char)
    requires c !in a
    ensures SplitChar(a, c) == [a]
  {
    assert IndexOfChar(a, c) == -1;
  }

  /** A `c`-free piece followed by `c` is the first piece of the split. */
  lemma SplitCons(a: string, rest: string, c: char)
    requires c !in a
    ensures SplitChar(a + [c] + rest, c) == [a] + SplitChar(rest, c)
  {
    var s := a + [c] + rest;
    assert s[|a|] == c;
    assert forall k :: 0 <= k < |a| ==> s[k] == a[k];
    assert IndexOfChar(s, c) == |a|;
    assert s[..|a|] == a;
    assert s[|a| + 1..] == rest;
  }

  /** The first piece of a split ends at the first separator. */
  lemma SplitAtFirst(s: string, c: char, i: nat)
    requires i == IndexOfChar(s, c)
    ensures SplitChar(s, c) == [s[..i]] + SplitChar(s[i + 1..], c)
  {
  }

  /** Splitting a join of `c`-free pieces on `c` gives the pieces back. */
  lemma {:induction false} SplitJoin(parts: seq<string>, c: char)
    requires |parts| >= 1
    requires forall k :: 0 <= k < |parts| ==> c !in parts[k]
    ensures SplitChar(Join(parts, [c]), c) == parts
  {
    if |parts| > 1 {
      SplitJoin(parts[1..], c);
      SplitCons(parts[0], Join(parts[1..], [c]), c);
      assert [parts[0]] + parts[1..] == parts;
    } else {
      SplitNone(parts[0], c);
    }
  }

  /** `s.split(sep)` for a non-empty literal separator. */
  function SplitString(s: string, sep: string): (r: seq<string>)
    requires |sep| > 0
    ensures |r| >= 1
    decreases |s|
  {
    var i := IndexOf(s, sep);
    if i < 0 then [s] else [s[..i]] + SplitString(s[i + |sep|..], sep)
  }

  /** The length of the run of white space starting at `i`. */
  function SpaceRun(s: string, i: nat): (n: nat)
    requires i <= |s|
    ensures i + n <= |s|
    ensures forall k :: i <= k < i + n ==> IsSpace(s[k])
    ensures i + n == |s| || !IsSpace(s[i + n])
    decreases |s| - i
  {
    if i < |s| && IsSpace(s[i]) then 1 + SpaceRun(s, i + 1) else 0
  }

  /** The length of the run of characters satisfying `sep` starting at `i`. */
  function Run(s: string, i: nat, sep: char -> bool): (n: nat)
    requires i <= |s|
    ensures i + n <= |s|
    ensures forall k :: i <= k < i + n ==> sep(s[k])
    ensures i + n == |s| || !sep(s[i + n])
    decreases |s| - i
  {
    if i < |s| && sep(s[i]) then 1 + Run(s, i + 1, sep) else 0
  }

  /**
   * `s.split(re)` for a regular expression that matches maximal runs of at
   * least `minRun` characters satisfying `sep`, continuing from `from` with
   * the current piece starting at `start`.
   */
  function SplitRunsFrom(s: string, sep: char -> bool, minRun: nat, start: nat, from: nat): (r: seq<string>)
    requires minRun >= 1 && start <= from <= |s|
    ensures |r| >= 1
    decreases |s| - from
  {
    if from == |s| then [s[start..]]
    else
      var n := Run(s, from, sep);
      if n >= minRun then [s[start..from]] + SplitRunsFrom(s, sep, minRun, from + n, from + n)
      else SplitRunsFrom(s, sep, minRun, start, from + 1)
  }

  function SplitRuns(s: string, sep: char -> bool, minRun: nat): (r: seq<string>)
    requires minRun >= 1
    ensures |r| >= 1
  {
    SplitRunsFrom(s, sep, minRun, 0, 0)
  }

  /**
   * `s.split(/\s+/)`: the pieces between maximal runs of white space; a
   * leading or trailing run yields an empty first or last piece and the empty
   * string gives one empty piece.
   */
  function SplitSpaces(s: string): (r: seq<string>)
    ensures |r| >= 1
  {
    SplitRuns(s, IsSpace, 1)
  }

  /** `s.split(/[.!?]+/)`. */
  function SplitSentenceMarks(s: string): (r: seq<string>)
    ensures |r| >= 1
  {
    SplitRuns(s, c => c == '.' || c == '!' || c == '?', 1)
  }

  /** `s.split(/\n\n+/)`. */
  function SplitBlankLines(s: string): (r: seq<string>)
    ensures |r| >= 1
  {
    SplitRuns(s, c => c == '\n', 2)
  }

  /** `a.slice(0, n)`. */
  function Min(a: int, b: int): int { if a <= b then a else b }

  function Max(a: int, b: int): int { if a >= b then a else b }

  function Take<T>(a: seq<T>, n: nat): (r: seq<T>)
    ensures |r| == if n <= |a| then n else |a|
    ensures r == a[..|r|]
  {
    if n <= |a| then a[..n] else a
  }

  /** `a.filter(p)`: the elements satisfying `p`, in their order. */
  function Filter<T>(a: seq<T>, p: T -> bool): (r: seq<T>)
    ensures |r| <= |a|
    ensures forall k :: 0 <= k < |r| ==> r[k] in a && p(r[k])
    ensures forall k :: 0 <= k < |a| && p(a[k]) ==> a[k] in r
    decreases |a|
  {
    if a == [] then [] else (if p(a[0]) then [a[0]] else []) + Filter(a[1..], p)
  }

  lemma {:induction false} FilterAppend<T>(a: seq<T>, b: seq<T>, p: T -> bool)
    ensures Filter(a + b, p) == Filter(a, p) + Filter(b, p)
    decreases |a|
  {
    if a == [] {
      assert a + b == b;
    } else {
      assert (a + b)[1..] == a[1..] + b;
      FilterAppend(a[1..], b, p);
    }
  }

  /** `s.charAt(0)`: the first character, or the empty string. */
  function FirstChar(s: string): (r: string)
  {
    if s == [] then [] else [s[0]]
  }

  function DigitChar(d: nat): (c: char)
    requires d < 10
    ensures IsDigit(c)
  {
    ('0' as int + d) as char
  }

  function DigitValue(c: char): (d: nat)
    requires IsDigit(c)
    ensures d < 10 && DigitChar(d) == c
  {
    c as int - '0' as int
  }

  /** The decimal form of a natural number, as a template string renders it. */
  function NatToString(n: nat): (r: string)
    ensures |r| >= 1
    ensures forall k :: 0 <= k < |r| ==> IsDigit(r[k])
    ensures n >= 10 ==> r[0] != '0'
  {
    if n < 10 then [DigitChar(n)] else NatToString(n / 10) + [DigitChar(n % 10)]
  }

  /** The decimal form of an integer, with a leading minus sign when negative. */
  function IntToString(n: int): (r: string)
  {
    if n < 0 then "-" + NatToString(-n) else NatToString(n)
  }

  /** The value of a non-empty string of decimal digits, most significant first. */
  function DecimalValue(s: string): (v: nat)
    requires forall k :: 0 <= k < |s| ==> IsDigit(s[k])
  {
    if s == [] then 0 else DecimalValue(s[..|s| - 1]) * 10 + DigitValue(s[|s| - 1])
  }

  lemma {:induction false} DecimalOfNatToString(n: nat)
    ensures DecimalValue(NatToString(n)) == n
  {
    if n >= 10 {
      var r := NatToString(n);
      var p := NatToString(n / 10);
      assert r[..|r| - 1] == p;
      DecimalOfNatToString(n / 10);
    }
  }

  /** Distinct numbers have distinct decimal forms. */
  lemma NatToStringInjective()
    ensures forall a: nat, b: nat :: NatToString(a) == NatToString(b) ==> a == b
  {
    forall a: nat, b: nat | NatToString(a) == NatToString(b)
      ensures a == b
    {
      DecimalOfNatToString(a);
      DecimalOfNatToString(b);
    }
  }

  /** The value of character `c` as a digit in radix `radix` (2..36), if it is one. */
  function RadixDigit(c: char, radix: nat): Option<nat>
  {
    var d :=
      if IsDigit(c) then c as int - '0' as int
      else if IsLower(c) then c as int - 'a' as int + 10
      else if IsUpper(c) then c as int - 'A' as int + 10
      else 36;
    if d < radix then Some(d) else None
  }

  /** The length of the longest prefix of `s` made of digits in `radix`. */
  function DigitRun(s: string, radix: nat): (n: nat)
    ensures n <= |s|
    ensures forall k :: 0 <= k < n ==> RadixDigit(s[k], radix).Some?
  {
    if s != [] && RadixDigit(s[0], radix).Some? then 1 + DigitRun(s[1..], radix) else 0
  }

  function RadixValue(s: string, radix: nat): nat
    requires forall k :: 0 <= k < |s| ==> RadixDigit(s[k], radix).Some?
  {
    if s == [] then 0
    else
      var n := |s| - 1;
      assert forall k :: 0 <= k < n ==> s[..n][k] == s[k];
      var high: nat := RadixValue(s[..n], radix);
      var low: nat := RadixDigit(s[n], radix).value;
      Shifted(high, radix) + low
  }

  /** `high` moved up one digit place in radix `radix`. */
  function Shifted(high: nat, radix: nat): nat
  {
    high * radix
  }

  /** The value of the longest run of `radix` digits at the start of `d`, if there is one. */
  function LeadingValue(d: string, radix: nat): Option<nat>
  {
    var n := DigitRun(d, radix);
    if n == 0 then None else Some(RadixValue(d[..n], radix))
  }

  /** An unsigned `parseInt` body: a `0x`/`0X` prefix selects radix 16. */
  function ParseUnsigned(u: string): Option<nat>
  {
    if |u| >= 2 && u[0] == '0' && (u[1] == 'x' || u[1] == 'X') then LeadingValue(u[2..], 16)
    else LeadingValue(u, 10)
  }

  /**
   * `parseInt(s)` without a radix argument: leading white space and one sign
   * are skipped and the longest run of digits is read; `None` stands for `NaN`
   * (no digit at all).
   */
  function ParseInt(s: string): (r: Option<int>)
  {
    var t := TrimStart(s);
    var neg := |t| > 0 && t[0] == '-';
    var body := if |t| > 0 && (t[0] == '-' || t[0] == '+') then t[1..] else t;
    var p := ParseUnsigned(body);
    if p.None? then None else Some(if neg then -(p.value as int) else p.value as int)
  }

  lemma {:induction false} RadixTenIsDecimal(s: string)
    requires forall k :: 0 <= k < |s| ==> IsDigit(s[k])
    ensures forall k :: 0 <= k < |s| ==> RadixDigit(s[k], 10).Some?
    ensures RadixValue(s, 10) == DecimalValue(s)
  {
    if s != [] {
      RadixTenIsDecimal(s[..|s| - 1]);
    }
  }

  /** `parseInt` reads back the decimal form of every natural number. */
  lemma ParseIntOfNatToString(n: nat)
    ensures ParseInt(NatToString(n)) == Some(n)
  {
    var s := NatToString(n);
    assert !IsSpace(s[0]);
    TrimStartOfTrimmed(s);
    assert s[0] != '-' && s[0] != '+';
    assert !(|s| >= 2 && s[0] == '0');
    RadixTenIsDecimal(s);
    DigitRunAll(s, 10);
    assert s[..|s|] == s;
    DecimalOfNatToString(n);
    assert LeadingValue(s, 10) == Some(n);
    assert ParseUnsigned(s) == Some(n);
  }

  lemma {:induction false} DigitRunAll(s: string, radix: nat)
    requires forall k :: 0 <= k < |s| ==> RadixDigit(s[k], radix).Some?
    ensures DigitRun(s, radix) == |s|
  {
    if s != [] {
      DigitRunAll(s[1..], radix);
    }
  }

  /** `s.padStart(2, '0')` for a string of at most two characters. */
  function PadTwo(s: string): (r: string)
  {
    if |s| >= 2 then s else seq(2 - |s|, _ => '0') + s
  }

  // ---------------------------------------------------------------------
  // Global regular-expression replacement
  // ---------------------------------------------------------------------

  /** A match of a pattern that starts at a given position: where it ends and the text that replaces it. */
  datatype Hit = Hit(end: nat, repl: string)

  /** Whether `h` is a non-empty match inside `s` starting at `i`. */
  predicate ValidHit(s: string, i: nat, h: Option<Hit>)
  {
    h.Some? && i < h.value.end <= |s|
  }

  /**
   * `s.replace(re, ...)` with the `g` flag, from position `i` on: `at(s, k)`
   * is the match that starts exactly at `k`, if any. The search tries each
   * position in turn, the leftmost match wins, and the search resumes after
   * its end. Every pattern here has only non-empty matches; anything else
   * `at` reports is treated as no match.
   */
  function ReplaceFrom(s: string, i: nat, at: (string, nat) -> Option<Hit>): (r: string)
    requires i <= |s|
    decreases |s| - i
  {
    if i == |s| then []
    else if ValidHit(s, i, at(s, i)) then at(s, i).value.repl + ReplaceFrom(s, at(s, i).value.end, at)
    else [s[i]] + ReplaceFrom(s, i + 1, at)
  }

  function ReplaceAll(s: string, at: (string, nat) -> Option<Hit>): string
  {
    ReplaceFrom(s, 0, at)
  }

  /** `s.match(re)` with the `g` flag: the number of matches found by the same search. */
  function MatchCountFrom(s: string, i: nat, at: (string, nat) -> Option<Hit>): nat
    requires i <= |s|
    decreases |s| - i
  {
    if i == |s| then 0
    else if ValidHit(s, i, at(s, i)) then 1 + MatchCountFrom(s, at(s, i).value.end, at)
    else MatchCountFrom(s, i + 1, at)
  }

  /** A pattern that matches nowhere leaves the text as it is. */
  lemma {:induction false} ReplaceWithoutHits(s: string, i: nat, at: (string, nat) -> Option<Hit>)
    requires i <= |s|
    requires forall k :: i <= k < |s| ==> !ValidHit(s, k, at(s, k))
    ensures ReplaceFrom(s, i, at) == s[i..]
    decreases |s| - i
  {
    if i < |s| {
      ReplaceWithoutHits(s, i + 1, at);
    }
  }

  /**
   * The text that replaces a match in `String.prototype.replace` when the
   * pattern is a string: `$$` stands for a dollar sign, `$&` for the matched
   * text, `` $` `` for the text before the match and `$'` for the text after
   * it. A string pattern has no capture groups, so every other `$` is kept.
   */
  function Substitute(rep: string, matched: string, before: string, after: string): (r: string)
    decreases |rep|
  {
    if rep == [] then []
    else if rep[0] == '$' && |rep| >= 2 && rep[1] in "$&`'" then
      (if rep[1] == '$' then "$" else if rep[1] == '&' then matched else if rep[1] == '`' then before else after)
      + Substitute(rep[2..], matched, before, after)
    else [rep[0]] + Substitute(rep[1..], matched, before, after)
  }

  /** A replacement without a dollar sign is inserted literally. */
  lemma {:induction false} SubstitutePlain(rep: string, matched: string, before: string, after: string)
    requires '$' !in rep
    ensures Substitute(rep, matched, before, after) == rep
    decreases |rep|
  {
    if rep != [] {
      assert '$' !in rep[1..];
      SubstitutePlain(rep[1..], matched, before, after);
    }
  }

  /** `s.replace(pattern, replacement)` with a string pattern: only the first occurrence is replaced. */
  function ReplaceFirst(s: string, pattern: string, replacement: string): (r: string)
  {
    var k := IndexOf(s, pattern);
    if k < 0 then s
    else s[..k] + Substitute(replacement, pattern, s[..k], s[k + |pattern|..]) + s[k + |pattern|..]
  }

  /**
   * Replacing takes the first occurrence: without one the text is unchanged,
   * and with a dollar-free replacement the text around the first occurrence
   * is kept and the replacement stands in its place.
   */
  lemma ReplaceFirstShape(s: string, pattern: string, replacement: string)
    requires '$' !in replacement
    ensures !Contains(s, pattern) ==> ReplaceFirst(s, pattern, replacement) == s
    ensures Contains(s, pattern) ==>
      var k := IndexOf(s, pattern);
      (forall j :: 0 <= j < k ==> !OccursAt(s, pattern, j))
      && ReplaceFirst(s, pattern, replacement) == s[..k] + replacement + s[k + |pattern|..]
  {
    var k := IndexOf(s, pattern);
    if k >= 0 {
      SubstitutePlain(replacement, pattern, s[..k], s[k + |pattern|..]);
    }
  }

  /** A positive match count starts with a first match, after which the count goes on. */
  lemma {:induction false} MatchCountFirst(s: string, i: nat, at: (string, nat) -> Option<Hit>)
    requires i <= |s| && MatchCountFrom(s, i, at) >= 1
    ensures exists j :: (i <= j < |s| && ValidHit(s, j, at(s, j))
      && MatchCountFrom(s, i, at) == 1 + MatchCountFrom(s, at(s, j).value.end, at))
    decreases |s| - i
  {
    if !ValidHit(s, i, at(s, i)) {
      MatchCountFirst(s, i + 1, at);
    }
  }
}
