/**
 * The backend's input checks: the username, password and e-mail patterns,
 * the sanitiser applied to free text, and the shape checks on the bodies of
 * the register and login requests. Each pattern is written out as what it
 * matches.
 */
module Validation {
  import opened Wrappers
  import opened JsStrings

  /** `[^\s@]`: neither whitespace nor an at sign. */
  predicate IsPlain(c: char) {
    !IsSpace(c) && c != '@'
  }

  predicate AllPlain(s: string) {
    forall k :: 0 <= k < |s| ==> IsPlain(s[k])
  }

  /**
   * `/^[^\s@]+@[^\s@]+\.[^\s@]+$/`: a non-empty plain run, the at sign at
   * `i`, a non-empty plain run, a dot at `j`, and a non-empty plain run.
   */
  predicate EmailSplit(s: string, i: int, j: int) {
    && 0 < i && i + 1 < j && j + 1 < |s|
    && s[i] == '@' && s[j] == '.'
    && AllPlain(s[..i]) && AllPlain(s[i + 1..j]) && AllPlain(s[j + 1..])
  }

  predicate ValidateEmail(s: string) {
    exists i, j :: 0 < i < j < |s| && EmailSplit(s, i, j)
  }

  /** The at sign at `i` is the only one in `s`. */
  predicate OnlyAtSign(s: string, i: int) {
    0 <= i < |s| && s[i] == '@' && forall k :: 0 <= k < |s| && s[k] == '@' ==> k == i
  }

  /** A dot somewhere other than at either end. */
  predicate InnerDot(d: string) {
    exists j :: 0 < j < |d| - 1 && d[j] == '.'
  }

  /** A slice of plain characters is a plain run. */
  lemma PlainSlice(s: string, lo: int, hi: int)
    requires 0 <= lo <= hi <= |s|
    requires forall k :: lo <= k < hi ==> IsPlain(s[k])
    ensures AllPlain(s[lo..hi])
  {
    forall k | 0 <= k < hi - lo
      ensures IsPlain(s[lo..hi][k])
    {
      assert s[lo..hi][k] == s[lo + k];
    }
  }

  /** Every character of a plain run is plain. */
  lemma PlainOfSlice(s: string, lo: int, hi: int, k: int)
    requires 0 <= lo <= k < hi <= |s|
    requires AllPlain(s[lo..hi])
    ensures IsPlain(s[k])
  {
    assert s[lo..hi][k - lo] == s[k];
  }

  /** The pattern's one reading: the at sign is the only one and nothing is whitespace. */
  lemma EmailSplitShape(s: string, i: int, j: int)
    requires EmailSplit(s, i, j)
    ensures forall k :: 0 <= k < |s| ==> !IsSpace(s[k])
    ensures OnlyAtSign(s, i) && InnerDot(s[i + 1..])
  {
    assert s[..i] == s[0..i] && s[j + 1..] == s[j + 1..|s|];
    forall k | 0 <= k < |s|
      ensures !IsSpace(s[k]) && (s[k] == '@' ==> k == i)
    {
      if k < i {
        PlainOfSlice(s, 0, i, k);
      } else if i < k < j {
        PlainOfSlice(s, i + 1, j, k);
      } else if j < k {
        PlainOfSlice(s, j + 1, |s|, k);
      }
    }
    assert s[i + 1..][j - i - 1] == '.';
  }

  /** The converse reading: a lone at sign and an inner dot after it give the pattern's split. */
  lemma ShapeEmailSplit(s: string, i: int)
    requires forall k :: 0 <= k < |s| ==> !IsSpace(s[k])
    requires 0 < i && OnlyAtSign(s, i) && InnerDot(s[i + 1..])
    ensures ValidateEmail(s)
  {
    var d := s[i + 1..];
    var jd :| 0 < jd < |d| - 1 && d[jd] == '.';
    var j := i + 1 + jd;
    assert s[j] == d[jd];
    assert forall k :: 0 <= k < |s| && k != i ==> IsPlain(s[k]);
    PlainSlice(s, 0, i);
    PlainSlice(s, i + 1, j);
    PlainSlice(s, j + 1, |s|);
    assert s[..i] == s[0..i] && s[j + 1..] == s[j + 1..|s|];
    assert EmailSplit(s, i, j);
  }

  /**
   * An e-mail address passes exactly when it has no whitespace and a single
   * at sign, with something before it, and the part after it has a dot that
   * is neither its first nor its last character.
   */
  lemma ValidateEmailIff(s: string)
    ensures ValidateEmail(s) <==>
      && (forall k :: 0 <= k < |s| ==> !IsSpace(s[k]))
      && exists i :: 0 < i && OnlyAtSign(s, i) && InnerDot(s[i + 1..])
  {
    if ValidateEmail(s) {
      var i, j :| 0 < i < j < |s| && EmailSplit(s, i, j);
      EmailSplitShape(s, i, j);
    }
    if (forall k :: 0 <= k < |s| ==> !IsSpace(s[k])) && exists i :: 0 < i && OnlyAtSign(s, i) && InnerDot(s[i + 1..]) {
      var i :| 0 < i && OnlyAtSign(s, i) && InnerDot(s[i + 1..]);
      ShapeEmailSplit(s, i);
    }
  }

  /** `[A-Za-z\d@$!%*?&]`. */
  predicate IsPasswordChar(c: char) {
    IsAsciiLetter(c) || IsDigit(c) || c in {'@', '$', '!', '%', '*', '?', '&'}
  }

  /** `(?=.*X)`: some character satisfying X, with no line terminator before it. */
  predicate ReachesWithin(s: string, k: int) {
    0 <= k < |s| && forall m :: 0 <= m < k ==> !IsLineTerminator(s[m])
  }

  /** `/^(?=.*[A-Za-z])(?=.*\d)[A-Za-z\d@$!%*?&]{8,}$/`. */
  predicate ValidatePassword(s: string) {
    && (exists k :: 0 <= k < |s| && ReachesWithin(s, k) && IsAsciiLetter(s[k]))
    && (exists k :: 0 <= k < |s| && ReachesWithin(s, k) && IsDigit(s[k]))
    && |s| >= 8
    && forall k :: 0 <= k < |s| ==> IsPasswordChar(s[k])
  }

  /**
   * A password passes exactly when it has at least eight characters, all
   * letters, digits or one of `@$!%*?&`, among them a letter and a digit.
   */
  lemma ValidatePasswordIff(s: string)
    ensures ValidatePassword(s) <==>
      && |s| >= 8
      && (forall k :: 0 <= k < |s| ==> IsPasswordChar(s[k]))
      && (exists k :: 0 <= k < |s| && IsAsciiLetter(s[k]))
      && (exists k :: 0 <= k < |s| && IsDigit(s[k]))
  {
    if (forall k :: 0 <= k < |s| ==> IsPasswordChar(s[k])) {
      assert forall m :: 0 <= m < |s| ==> !IsLineTerminator(s[m]) by {
        forall m | 0 <= m < |s| ensures !IsLineTerminator(s[m]) { assert IsPasswordChar(s[m]); }
      }
      if exists k :: 0 <= k < |s| && IsAsciiLetter(s[k]) {
        var k :| 0 <= k < |s| && IsAsciiLetter(s[k]);
        assert ReachesWithin(s, k);
      }
      if exists k :: 0 <= k < |s| && IsDigit(s[k]) {
        var k :| 0 <= k < |s| && IsDigit(s[k]);
        assert ReachesWithin(s, k);
      }
    }
  }

  /** `[a-zA-Z0-9_]`. */
  predicate IsWordChar(c: char) {
    IsAsciiLetter(c) || IsDigit(c) || c == '_'
  }

  /** `/^[a-zA-Z0-9_]{3,20}$/`. */
  predicate ValidateUsername(s: string) {
    3 <= |s| <= 20 && forall k :: 0 <= k < |s| ==> IsWordChar(s[k])
  }

  /** `replace(/[<>]/g, '')`: every angle bracket dropped, the rest kept in order. */
  function RemoveAngles(t: string): (r: string)
    ensures |r| <= |t|
    ensures forall c :: c in r <==> c in t && c != '<' && c != '>'
  {
    if t == [] then []
    else (if t[0] == '<' || t[0] == '>' then [] else [t[0]]) + RemoveAngles(t[1..])
  }

  /** `input.trim().replace(/[<>]/g, '')`. */
  function SanitizeInput(input: string): (r: string)
    ensures '<' !in r && '>' !in r
    ensures |r| <= |input|
    ensures forall c :: c in r <==> c in Trim(input) && c != '<' && c != '>'
  {
    RemoveAngles(Trim(input))
  }

  /** Text without angle brackets passes the bracket filter unchanged. */
  lemma {:induction false} RemoveAnglesNoBrackets(t: string)
    requires '<' !in t && '>' !in t
    ensures RemoveAngles(t) == t
  {
    if t != [] {
      assert '<' !in t[1..] && '>' !in t[1..];
      RemoveAnglesNoBrackets(t[1..]);
      assert [t[0]] + t[1..] == t;
    }
  }

  /** The filter works piece by piece. */
  lemma {:induction false} RemoveAnglesConcat(a: string, b: string)
    ensures RemoveAngles(a + b) == RemoveAngles(a) + RemoveAngles(b)
  {
    if a != [] {
      assert (a + b)[1..] == a[1..] + b;
      RemoveAnglesConcat(a[1..], b);
    } else {
      assert a + b == b;
    }
  }

  /**
   * Trimming happens before the brackets go, so whitespace behind a bracket
   * survives: sanitising is not idempotent.
   */
  lemma SanitizeNotIdempotent()
    ensures SanitizeInput("< a") == " a"
    ensures SanitizeInput(" a") == "a"
  {
    assert !IsSpace('<') && !IsSpace('a');
    assert TrimStart("< a") == "< a";
    assert TrimEnd("< a") == "< a";
    assert RemoveAngles("< a") == RemoveAngles("<") + RemoveAngles(" a") by {
      assert "< a" == "<" + " a";
      RemoveAnglesConcat("<", " a");
    }
    RemoveAnglesNoBrackets(" a");
    assert TrimStart(" a") == "a" by {
      assert " a"[1..] == "a";
    }
    assert TrimEnd("a") == "a";
    RemoveAnglesNoBrackets("a");
  }

  /** Text already trimmed and free of brackets is its own sanitised form. */
  lemma SanitizeFixedPoint(s: string)
    requires Trim(s) == s && '<' !in s && '>' !in s
    ensures SanitizeInput(s) == s
  {
    RemoveAnglesNoBrackets(s);
  }

  /** Every valid username passes the sanitiser unchanged. */
  lemma SanitizeKeepsUsername(s: string)
    requires ValidateUsername(s)
    ensures SanitizeInput(s) == s
  {
    assert !IsSpace(s[0]);
    assert TrimStart(s) == s;
    assert !IsSpace(s[|s| - 1]);
    assert TrimEnd(s) == s;
    assert '<' !in s && '>' !in s by {
      forall k | 0 <= k < |s| ensures s[k] != '<' && s[k] != '>' { assert IsWordChar(s[k]); }
    }
    SanitizeFixedPoint(s);
  }

  /** A request body as the server receives it, after JSON decoding. */
  datatype JsValue =
    | Undefined
    | Null
    | Bool(b: bool)
    | Number(n: int)
    | Str(s: string)
    | Arr(items: seq<JsValue>)
    | Obj(fields: map<string, JsValue>)

  /** `!data`: the falsy values. Only the whole-number part of numbers is modelled. */
  predicate Falsy(v: JsValue) {
    v.Undefined? || v.Null? || v == Bool(false) || v == Number(0) || v == Str("")
  }

  /** `typeof data === 'object'`: objects, arrays and `null`. */
  predicate IsObjectType(v: JsValue) {
    v.Null? || v.Arr? || v.Obj?
  }

  /** Reading a property of an object or array; an own key is the only way to get a string. */
  function Property(v: JsValue, key: string): (r: JsValue)
    ensures r.Str? ==> v.Obj? && key in v.fields && v.fields[key] == r
  {
    if v.Obj? && key in v.fields then v.fields[key] else Undefined
  }

  /** `typeof v === 'string'` together with a test on the string. */
  predicate StringWhere(v: JsValue, test: string -> bool) {
    v.Str? && test(v.s)
  }

  /** `validateRegisterRequest`. */
  predicate ValidateRegisterRequest(data: JsValue) {
    && !Falsy(data) && IsObjectType(data)
    && StringWhere(Property(data, "username"), ValidateUsername)
    && StringWhere(Property(data, "email"), ValidateEmail)
    && StringWhere(Property(data, "password"), ValidatePassword)
  }

  /** `validateLoginRequest`: only a non-empty password is asked for. */
  predicate ValidateLoginRequest(data: JsValue) {
    && !Falsy(data) && IsObjectType(data)
    && StringWhere(Property(data, "email"), ValidateEmail)
    && Property(data, "password").Str? && |Property(data, "password").s| > 0
  }

  /**
   * A register body passes exactly when it is an object whose `username`,
   * `email` and `password` are strings passing their checks; arrays and
   * every other kind of value fail.
   */
  lemma RegisterRequestIff(data: JsValue)
    ensures ValidateRegisterRequest(data) <==>
      && data.Obj?
      && "username" in data.fields && data.fields["username"].Str? && ValidateUsername(data.fields["username"].s)
      && "email" in data.fields && data.fields["email"].Str? && ValidateEmail(data.fields["email"].s)
      && "password" in data.fields && data.fields["password"].Str? && ValidatePassword(data.fields["password"].s)
  {
  }

  /** A login body passes exactly when it is an object with a passing `email` and a non-empty `password` string. */
  lemma LoginRequestIff(data: JsValue)
    ensures ValidateLoginRequest(data) <==>
      && data.Obj?
      && "email" in data.fields && data.fields["email"].Str? && ValidateEmail(data.fields["email"].s)
      && "password" in data.fields && data.fields["password"].Str? && data.fields["password"].s != ""
  {
  }

  /** Every body the register check accepts, the login check accepts too; the converse fails. */
  lemma RegisterImpliesLogin(data: JsValue)
    ensures ValidateRegisterRequest(data) ==> ValidateLoginRequest(data)
  {
  }

  lemma LoginDoesNotImplyRegister()
    ensures var body := Obj(map["email" := Str("a@b.c"), "password" := Str("x")]);
      ValidateLoginRequest(body) && !ValidateRegisterRequest(body)
  {
    var body := Obj(map["email" := Str("a@b.c"), "password" := Str("x")]);
    assert EmailSplit("a@b.c", 1, 3) by {
      assert "a@b.c"[..1] == "a" && "a@b.c"[2..3] == "b" && "a@b.c"[4..] == "c";
    }
    assert Property(body, "username") == Undefined;
  }
}
