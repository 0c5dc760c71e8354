/** The optional-value wrapper used throughout the model. */
module Wrappers {
  datatype Option<T> = None | Some(value: T) {
    /** The carried value, or `default` when there is none. */
    function GetOr(default: T): T {
      match this
      case Some(v) => v
      case None => default
    }
  }
}

/**
 * The JavaScript string primitives the application relies on, stated on
 * `seq<char>`: the whitespace class used by `trim` and by `\s` in regular
 * expressions, `trim`, `split` and `join` with a non-empty separator,
 * `parseInt` without a radix, and the decimal `toString` of a non-negative
 * integer.
 */
module JsStrings {
  import opened Wrappers

  /** ECMAScript LineTerminator: LF, CR, LINE SEPARATOR, PARAGRAPH SEPARATOR. */
  predicate IsLineTerminator(c: char) {
    c == '\n' || c == '\r' || c as int == 0x2028 || c as int == 0x2029
  }

  /**
   * ECMAScript WhiteSpace or LineTerminator: the characters `trim` removes and
   * the class `\s` matches.
   */
  predicate IsSpace(c: char) {
    || IsLineTerminator(c)
    || c == '\t' || c as int == 0x0B || c as int == 0x0C || c == ' '
    || c as int == 0xA0 || c as int == 0xFEFF || c as int == 0x1680
    || (0x2000 <= c as int <= 0x200A)
    || c as int == 0x202F || c as int == 0x205F || c as int == 0x3000
  }

  /** `\d` without the unicode flag: the ASCII digits. */
  predicate IsDigit(c: char) {
    '0' <= c <= '9'
  }

  predicate IsAsciiLetter(c: char) {
    ('a' <= c <= 'z') || ('A' <= c <= 'Z')
  }

  predicate AllSpace(s: string) {
    forall i :: 0 <= i < |s| ==> IsSpace(s[i])
  }

  /** Text with no whitespace character. */
  predicate NoSpace(s: string) {
    forall k :: 0 <= k < |s| ==> !IsSpace(s[k])
  }

  /** Removes leading whitespace. */
  function TrimStart(s: string): (r: string)
    ensures |r| <= |s| && r == s[|s| - |r|..]
    ensures AllSpace(s[..|s| - |r|])
    ensures r == [] || !IsSpace(r[0])
  {
    if s != [] && IsSpace(s[0]) then
      var r := TrimStart(s[1..]);
      assert s[..|s| - |r|] == [s[0]] + s[1..][..|s[1..]| - |r|];
      r
    else s
  }

  /** Removes trailing whitespace. */
  function TrimEnd(s: string): (r: string)
    ensures |r| <= |s| && r == s[..|r|]
    ensures AllSpace(s[|r|..])
    ensures r == [] || !IsSpace(r[|r| - 1])
  {
    if s != [] && IsSpace(s[|s| - 1]) then
      var r := TrimEnd(s[..|s| - 1]);
      assert s[|r|..] == s[..|s| - 1][|r|..] + [s[|s| - 1]];
      r
    else s
  }

  /** `String.prototype.trim`. */
  function Trim(s: string): string {
    TrimEnd(TrimStart(s))
  }

  /** `s.trim() === ''`, the test the application uses for a blank field. */
  predicate IsBlank(s: string) {
    Trim(s) == ""
  }

  /** A blank string is exactly one made of whitespace only. */
  lemma BlankIffAllSpace(s: string)
    ensures IsBlank(s) <==> AllSpace(s)
  {
    var t := TrimStart(s);
    if |t| > 0 {
      assert t[0] == s[|s| - |t|];
    }
    if IsBlank(s) {
      assert t[|TrimEnd(t)|..] == t;
      assert |t| == 0;
      assert s[..|s| - |t|] == s;
    }
  }

  /** Trimming a trimmed string changes nothing. */
  lemma TrimIdempotent(s: string)
    ensures Trim(Trim(s)) == Trim(s)
  {
    var t := Trim(s);
    if t != [] {
      assert TrimStart(t) == t;
      assert TrimEnd(t) == t;
    }
  }

  /** The trimmed form of a non-blank text is not blank either. */
  lemma TrimmedNotBlank(s: string)
    requires !IsBlank(s)
    ensures !IsBlank(Trim(s))
  {
    TrimIdempotent(s);
  }

  /** The result of `Trim` neither starts nor ends with whitespace. */
  lemma TrimEnds(s: string)
    ensures Trim(s) == [] || (!IsSpace(Trim(s)[0]) && !IsSpace(Trim(s)[|Trim(s)| - 1]))
  {
    var a := TrimStart(s);
    var t := TrimEnd(a);
    if t != [] {
      assert t[0] == a[0];
    }
  }

  // ---------------------------------------------------------------- search

  predicate OccursAt(s: string, sep: string, i: int) {
    0 <= i && i + |sep| <= |s| && s[i..i + |sep|] == sep
  }

  predicate Contains(s: string, sep: string) {
    exists i | 0 <= i <= |s| :: OccursAt(s, sep, i)
  }

  /** The first occurrence of `sep` in `s` at or after position `k`. */
  function IndexFrom(s: string, sep: string, k: nat): (r: Option<nat>)
    ensures r.Some? ==> k <= r.value && OccursAt(s, sep, r.value)
    ensures r.Some? ==> forall j :: k <= j < r.value ==> !OccursAt(s, sep, j)
    ensures r.None? ==> forall j :: k <= j ==> !OccursAt(s, sep, j)
    decreases |s| - k
  {
    if k + |sep| > |s| then None
    else if OccursAt(s, sep, k) then Some(k)
    else IndexFrom(s, sep, k + 1)
  }

  /** `String.prototype.indexOf`, with `None` for -1. */
  function IndexOf(s: string, sep: string): Option<nat> {
    IndexFrom(s, sep, 0)
  }

  lemma IndexOfNone(s: string, sep: string)
    requires IndexOf(s, sep).None?
    ensures !Contains(s, sep)
  {
  }

  /** An occurrence inside a prefix is an occurrence in the whole string. */
  lemma OccursInPrefix(s: string, sep: string, i: nat, j: int)
    requires i <= |s| && OccursAt(s[..i], sep, j)
    ensures OccursAt(s, sep, j)
  {
    assert s[..i][j..j + |sep|] == s[j..j + |sep|];
  }

  /** An occurrence inside a suffix is an occurrence in the whole string. */
  lemma OccursInSuffix(s: string, sep: string, i: nat, j: int)
    requires i <= |s| && OccursAt(s[i..], sep, j)
    ensures OccursAt(s, sep, i + j)
  {
    assert s[i..][j..j + |sep|] == s[i + j..i + j + |sep|];
  }

  // ---------------------------------------------------------- split / join

  /**
   * `String.prototype.split` with a non-empty separator: the pieces between
   * successive leftmost non-overlapping occurrences; always at least one piece.
   */
  function Split(s: string, sep: string): (parts: seq<string>)
    requires |sep| > 0
    ensures |parts| >= 1
    ensures |parts[0]| <= |s| && parts[0] == s[..|parts[0]|]
    decreases |s|
  {
    match IndexOf(s, sep)
    case None => [s]
    case Some(i) => [s[..i]] + Split(s[i + |sep|..], sep)
  }

  /** `Array.prototype.join`. */
  function Join(parts: seq<string>, sep: string): string
    decreases |parts|
  {
    if parts == [] then ""
    else if |parts| == 1 then parts[0]
    else parts[0] + sep + Join(parts[1..], sep)
  }

  /** The element at `k`, or `''` when the array is too short. Models `parts[k] || ''`. */
  function Piece(parts: seq<string>, k: nat): string {
    if k < |parts| then parts[k] else ""
  }

  /** Joining the pieces of a split with the same separator gives the string back. */
  lemma {:induction false} JoinSplit(s: string, sep: string)
    requires |sep| > 0
    ensures Join(Split(s, sep), sep) == s
    decreases |s|
  {
    match IndexOf(s, sep)
    case None =>
    case Some(i) =>
      var rest := s[i + |sep|..];
      var p := Split(rest, sep);
      JoinSplit(rest, sep);
      assert Split(s, sep) == [s[..i]] + p;
      assert Join([s[..i]] + p, sep) == s[..i] + sep + Join(p, sep) by {
        assert ([s[..i]] + p)[1..] == p;
      }
      assert s == s[..i] + s[i..i + |sep|] + rest;
  }

  /** No piece of a split contains the separator. */
  lemma {:induction false} SplitPiecesFree(s: string, sep: string)
    requires |sep| > 0
    ensures forall p <- Split(s, sep) :: !Contains(p, sep)
    decreases |s|
  {
    match IndexOf(s, sep)
    case None =>
    case Some(i) =>
      var rest := s[i + |sep|..];
      SplitPiecesFree(rest, sep);
      forall j | OccursAt(s[..i], sep, j) ensures false {
        OccursInPrefix(s, sep, i, j);
      }
  }

  /** A string without the separator splits into itself alone. */
  lemma SplitNoSeparator(s: string, sep: string)
    requires |sep| > 0 && !Contains(s, sep)
    ensures Split(s, sep) == [s]
  {
  }

  /**
   * When the first occurrence of `sep` in `a + sep + b` is the one right after
   * `a`, the split is `a` followed by the split of `b`.
   */
  lemma SplitAfterFirst(a: string, sep: string, b: string)
    requires |sep| > 0
    requires IndexOf(a + sep + b, sep) == Some(|a|)
    ensures Split(a + sep + b, sep) == [a] + Split(b, sep)
  {
    var s := a + sep + b;
    assert s[..|a|] == a;
    assert s[|a| + |sep|..] == b;
  }

  /** A one-character separator that occurs in `a + [c] + b` only between the two parts. */
  lemma SplitOnce(a: string, c: char, b: string)
    requires c !in a && c !in b
    ensures Split(a + [c] + b, [c]) == [a, b]
  {
    var s := a + [c] + b;
    forall j | 0 <= j < |a| ensures !OccursAt(s, [c], j) {
      assert s[j] == a[j];
      assert s[j..j + 1] == [s[j]];
    }
    assert s[|a|..|a| + 1] == [c];
    assert OccursAt(s, [c], |a|);
    assert IndexOf(s, [c]) == Some(|a|);
    SplitAfterFirst(a, [c], b);
    forall j | 0 <= j <= |b| ensures !OccursAt(b, [c], j) {
      if j + 1 <= |b| {
        assert b[j..j + 1] == [b[j]];
      }
    }
    SplitNoSeparator(b, [c]);
  }

  /**
   * No occurrence of `sep` starts inside `p`, even one running on into a
   * separator placed after it: `p` can stand before `sep` in a joined string.
   */
  predicate Separable(p: string, sep: string) {
    forall j :: 0 <= j < |p| ==> !OccursAt(p + sep, sep, j)
  }

  lemma SeparableFree(p: string, sep: string)
    requires |sep| > 0 && Separable(p, sep)
    ensures !Contains(p, sep)
  {
    var q := p + sep;
    forall i | 0 <= i <= |p| ensures !OccursAt(p, sep, i) {
      if i + |sep| <= |p| {
        assert !OccursAt(q, sep, i);
        assert forall k :: i <= k < i + |sep| ==> q[k] == p[k];
        assert q[i..i + |sep|] == p[i..i + |sep|];
      }
    }
  }

  /** Text without the separator's first character is separable. */
  lemma SeparableByFirst(p: string, sep: string)
    requires |sep| > 0 && sep[0] !in p
    ensures Separable(p, sep)
  {
    forall j | 0 <= j < |p| ensures !OccursAt(p + sep, sep, j) {
      assert (p + sep)[j..j + |sep|][0] == p[j];
    }
  }

  /** Text without the separator's second character is separable when that differs from the first. */
  lemma SeparableBySecond(p: string, sep: string)
    requires |sep| >= 2 && sep[1] !in p && sep[0] != sep[1]
    ensures Separable(p, sep)
  {
    forall j | 0 <= j < |p| ensures !OccursAt(p + sep, sep, j) {
      var w := (p + sep)[j..j + |sep|];
      assert w[1] == (p + sep)[j + 1];
      if j + 1 < |p| {
        assert w[1] == p[j + 1];
      } else {
        assert w[1] == sep[0];
      }
    }
  }

  /** After a separable piece the first occurrence of the separator is the one that follows it. */
  lemma FirstAfter(p: string, sep: string, rest: string)
    requires |sep| > 0 && Separable(p, sep)
    ensures IndexOf(p + sep + rest, sep) == Some(|p|)
  {
    var s := p + sep + rest;
    var q := p + sep;
    assert s == q + rest;
    assert s[|p|..|p| + |sep|] == sep;
    forall j | 0 <= j < |p| ensures !OccursAt(s, sep, j) {
      assert !OccursAt(q, sep, j);
      assert forall i :: j <= i < j + |sep| ==> s[i] == q[i];
      assert q[j..j + |sep|] == s[j..j + |sep|];
    }
    var r := IndexOf(s, sep);
    assert OccursAt(s, sep, |p|);
    assert r.Some?;
    assert r.value == |p|;
  }

  /** Splitting a join of separable pieces gives the pieces back. */
  lemma {:induction false} SplitOfJoin(parts: seq<string>, sep: string)
    requires |sep| > 0 && |parts| >= 1
    requires forall k :: 0 <= k < |parts| ==> Separable(parts[k], sep)
    ensures Split(Join(parts, sep), sep) == parts
    decreases |parts|
  {
    var p := parts[0];
    SeparableFree(p, sep);
    if |parts| == 1 {
      SplitNoSeparator(p, sep);
    } else {
      var rest := Join(parts[1..], sep);
      FirstAfter(p, sep, rest);
      SplitAfterFirst(p, sep, rest);
      SplitOfJoin(parts[1..], sep);
      assert [p] + parts[1..] == parts;
    }
  }

  /** Trimming text that neither starts nor ends with whitespace changes nothing. */
  lemma TrimClean(s: string)
    requires s == [] || (!IsSpace(s[0]) && !IsSpace(s[|s| - 1]))
    ensures Trim(s) == s
  {
  }

  /** Trailing whitespace after clean text is trimmed away. */
  lemma TrimTrailingSpace(s: string, c: char)
    requires s != [] && !IsSpace(s[0]) && !IsSpace(s[|s| - 1]) && IsSpace(c)
    ensures Trim(s + [c]) == s
  {
    var t := s + [c];
    assert t[0] == s[0];
    TrimStartClean(t);
    assert t[|t| - 1] == c && t[..|t| - 1] == s;
    TrimEndDrop(t);
    TrimEndClean(s);
  }

  lemma TrimStartClean(t: string)
    requires t != [] && !IsSpace(t[0])
    ensures TrimStart(t) == t
  {
  }

  lemma TrimEndClean(t: string)
    requires t != [] && !IsSpace(t[|t| - 1])
    ensures TrimEnd(t) == t
  {
  }

  lemma TrimEndDrop(t: string)
    requires t != [] && IsSpace(t[|t| - 1])
    ensures TrimEnd(t) == TrimEnd(t[..|t| - 1])
  {
  }

  // ------------------------------------------------------- numbers as text

  /** The value of a digit character in base 10 or 16; -1 when it is none. */
  function DigitValue(c: char, radix: nat): int {
    if '0' <= c <= '9' && (c as int - '0' as int) < radix then c as int - '0' as int
    else if radix == 16 && 'a' <= c <= 'f' then c as int - 'a' as int + 10
    else if radix == 16 && 'A' <= c <= 'F' then c as int - 'A' as int + 10
    else -1
  }

  predicate IsRadixDigit(c: char, radix: nat) {
    DigitValue(c, radix) >= 0
  }

  /** The length of the longest prefix of `s` made of digits of `radix`. */
  function DigitPrefixLength(s: string, radix: nat): (k: nat)
    ensures k <= |s|
    ensures forall i :: 0 <= i < k ==> IsRadixDigit(s[i], radix)
    ensures k < |s| ==> !IsRadixDigit(s[k], radix)
  {
    if s != [] && IsRadixDigit(s[0], radix) then
      var k := DigitPrefixLength(s[1..], radix);
      assert forall i :: 1 <= i < k + 1 ==> s[i] == s[1..][i - 1];
      k + 1
    else 0
  }

  /** The value of a string of digits, most significant first. */
  function DigitsValue(s: string, radix: nat): int
    decreases |s|
  {
    if s == [] then 0
    else DigitsValue(s[..|s| - 1], radix) * radix + DigitValue(s[|s| - 1], radix)
  }

  /**
   * `parseInt(s)` with no radix: leading whitespace skipped, an optional sign,
   * an optional `0x`/`0X` prefix selecting base 16, then the longest run of
   * digits; `None` stands for NaN (no digit at all).
   */
  function ParseInt(s: string): Option<int> {
    var t := TrimStart(s);
    var u := Unsigned(t);
    match DigitRun(RadixBody(u), Radix(u))
    case None => None
    case Some(v) => Some(if t != [] && t[0] == '-' then -v else v)
  }

  /** The text after an optional leading sign. */
  function Unsigned(t: string): string {
    if |t| > 0 && (t[0] == '-' || t[0] == '+') then t[1..] else t
  }

  predicate HexPrefixed(u: string) {
    |u| >= 2 && u[0] == '0' && (u[1] == 'x' || u[1] == 'X')
  }

  function Radix(u: string): nat {
    if HexPrefixed(u) then 16 else 10
  }

  /** The text after an optional `0x` prefix. */
  function RadixBody(u: string): string {
    if HexPrefixed(u) then u[2..] else u
  }

  /** The value of the longest digit prefix of `w`; `None` when there is none. */
  function DigitRun(w: string, radix: nat): Option<int> {
    var k := DigitPrefixLength(w, radix);
    if k == 0 then None else Some(DigitsValue(w[..k], radix))
  }

  /** `parseInt(s) || 0`: the numeric value of an id, NaN read as 0. */
  function IdValue(s: string): int {
    ParseInt(s).GetOr(0)
  }

  function DigitChar(d: nat): char
    requires d < 10
  {
    ('0' as int + d) as char
  }

  /** `Number.prototype.toString()` of a non-negative integer. */
  function NatToString(n: nat): (r: string)
    ensures |r| >= 1
    ensures forall i :: 0 <= i < |r| ==> IsDigit(r[i])
  {
    if n < 10 then [DigitChar(n)] else NatToString(n / 10) + [DigitChar(n % 10)]
  }

  lemma {:induction false} DigitsValueOfNatToString(n: nat)
    ensures DigitsValue(NatToString(n), 10) == n
  {
    if n >= 10 {
      var s := NatToString(n);
      DigitsValueOfNatToString(n / 10);
      assert s[..|s| - 1] == NatToString(n / 10);
    }
  }

  /** A string made only of digits is its own longest digit prefix. */
  lemma {:induction false} AllDigitsPrefix(s: string, radix: nat)
    requires forall i :: 0 <= i < |s| ==> IsRadixDigit(s[i], radix)
    ensures DigitPrefixLength(s, radix) == |s|
    decreases |s|
  {
    if s != [] {
      assert forall i :: 0 <= i < |s[1..]| ==> s[1..][i] == s[i + 1];
      AllDigitsPrefix(s[1..], radix);
    }
  }

  /** `parseInt` of a non-empty run of decimal digits is its decimal value. */
  lemma ParseDigits(s: string)
    requires |s| >= 1 && forall i :: 0 <= i < |s| ==> IsDigit(s[i])
    ensures ParseInt(s) == Some(DigitsValue(s, 10))
  {
    TrimStartClean(s);
    assert !HexPrefixed(s) by {
      if |s| >= 2 {
        assert IsDigit(s[1]);
      }
    }
    ParseIntPlain(s);
    DigitRunAll(s);
  }

  /** Text with no leading whitespace, sign or hex prefix is read as one decimal digit run. */
  lemma ParseIntPlain(s: string)
    requires TrimStart(s) == s && s != [] && s[0] != '-' && s[0] != '+' && !HexPrefixed(s)
    ensures ParseInt(s) == DigitRun(s, 10)
  {
    assert Unsigned(s) == s && Radix(s) == 10 && RadixBody(s) == s;
  }

  /** A non-empty run of decimal digits is one whole digit run. */
  lemma DigitRunAll(s: string)
    requires |s| >= 1 && forall i :: 0 <= i < |s| ==> IsDigit(s[i])
    ensures DigitRun(s, 10) == Some(DigitsValue(s, 10))
  {
    forall i | 0 <= i < |s| ensures IsRadixDigit(s[i], 10) {
      assert IsDigit(s[i]);
    }
    AllDigitsPrefix(s, 10);
    assert s[..|s|] == s;
  }

  /** Reading back a generated id gives the number it was made from. */
  lemma ParseNatToString(n: nat)
    ensures ParseInt(NatToString(n)) == Some(n)
    ensures IdValue(NatToString(n)) == n
  {
    ParseDigits(NatToString(n));
    DigitsValueOfNatToString(n);
  }

  /** Distinct numbers have distinct decimal strings. */
  lemma NatToStringInjective(a: nat, b: nat)
    requires NatToString(a) == NatToString(b)
    ensures a == b
  {
    ParseNatToString(a);
    ParseNatToString(b);
  }
}
