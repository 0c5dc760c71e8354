/**
 * The string side of PDF export: the standalone HTML document sent to the
 * renderer, the lookup of the resume element with its fallbacks, and the
 * download file name read back out of the document's title.
 */
module PdfExport {
  import opened Wrappers
  import opened JsStrings

  /** A line break and `n` spaces: how the template starts each of its lines. */
  function Indent(n: nat): (r: string)
    ensures |r| == n + 1 && r[0] == '\n'
    ensures forall i :: 1 <= i < |r| ==> r[i] == ' '
  {
    "\n" + seq(n, _ => ' ')
  }

  /** Lines of the template, each given by its indentation and its text. */
  function IndentedLines(lines: seq<(nat, string)>): string
    decreases |lines|
  {
    if lines == [] then "" else Indent(lines[0].0) + lines[0].1 + IndentedLines(lines[1..])
  }

  /** The document up to the title. */
  const DocumentHeadLines: seq<(nat, string)> := [
    (6, "<!DOCTYPE html>"), (6, "<html lang=\"en\">"), (8, "<head>"), (10, "<meta charset=\"UTF-8\" />"),
    (10, "<meta name=\"viewport\"" + " content=\"width=device-width," + " initial-scale=1.0\" />"),
    (10, "")]
  function DocumentHead(): string { IndentedLines(DocumentHeadLines) }

  const TitleOpen := "<title>"
  const TitleClose := " - Resume</title>"

  /** From the title to the collected styles. */
  function StyleOpen(): string { Indent(10) + "<style>" + Indent(12) }

  /** The fixed A4 rules written after the collected styles, up to the end of the style element. */
  const PdfOverridesLines: seq<(nat, string)> := [
    (2, ""),
    (12, "/* PDF-specific overrides for A4 sizing */"),
    (12, "@page {"),
    (14, "margin: 0;"),
    (14, "size: A4;"),
    (12, "}"),
    (12, "body {"),
    (14, "background: white !important;"),
    (14, "-webkit-print-color-adjust: exact !important;"),
    (14, "print-color-adjust: exact !important;"),
    (14, "margin: 0 !important;"),
    (14, "padding: 0 !important;"),
    (12, "}"),
    (12, ".a4-container {"),
    (14, "width: 210mm !important;"),
    (14, "height: 297mm !important;"),
    (14, "box-shadow: none !important;"),
    (14, "border-radius: 0 !important;"),
    (14, "margin: 0 !important;"),
    (14, "padding: 0 !important;"),
    (14, "overflow: visible !important;"),
    (12, "}"),
    (12, ".resume-template, #resume-content {"),
    (14, "width: 100% !important;"),
    (14, "height: 100% !important;"),
    (14, "margin: 0 !important;"),
    (14, "padding: 0 !important;"),
    (14, "box-shadow: none !important;"),
    (14, "border-radius: 0 !important;"),
    (12, "}"),
    (12, "/* Remove any conflicting styles */"),
    (12, ".a4-page, .shadow-lg, .rounded-lg {"),
    (14, "box-shadow: none !important;"),
    (14, "border-radius: 0 !important;"),
    (12, "}"),
    (10, "")
  ]
  function PdfOverrides(): string { IndentedLines(PdfOverridesLines) }

  /** From the end of the style element to the content. */
  function StyleClose(): string { "</style>" + Indent(8) + "</head>" + Indent(8) + "<body>" + Indent(10) }

  /** After the content. */
  function DocumentTail(): string { Indent(8) + "</body>" + Indent(6) + "</html>" + Indent(4) }

  /** The template around any head and any overrides, with the name, the styles and the content put in. */
  function Assemble(head: string, personName: string, styles: string, overrides: string, contentHtml: string): string {
    head + TitleOpen + personName + TitleClose + StyleOpen() + styles + overrides
      + StyleClose() + contentHtml + DocumentTail()
  }

  /** `createPDFHTML(contentHTML, personName, styles)`. */
  function CreatePdfHtml(contentHtml: string, personName: string, styles: string): string {
    Assemble(DocumentHead(), personName, styles, PdfOverrides(), contentHtml)
  }

  /** The indentation is white space. */
  lemma IndentIsSpace(n: nat)
    ensures AllSpace(Indent(n))
  {
  }

  /** A slice of a slice is a slice of the whole. */
  lemma SliceOfSlice(x: string, i: nat, j: nat, k: nat, l: nat)
    requires i <= j <= |x| && k <= l <= j - i
    ensures x[i..j][k..l] == x[i + k..i + l]
  {
    var u, v := x[i..j][k..l], x[i + k..i + l];
    forall m | 0 <= m < |u|
      ensures u[m] == v[m]
    {
      assert u[m] == x[i..j][k + m] == x[i + k + m];
    }
  }

  /** A prefix of the text that is two pieces holds the first piece, then the second. */
  lemma Peel(doc: string, q: string, p: string)
    requires |q| + |p| <= |doc| && doc[..|q| + |p|] == q + p
    ensures doc[..|q|] == q && doc[|q|..|q| + |p|] == p
  {
    assert (q + p)[..|q|] == q && (q + p)[|q|..] == p;
    SliceOfSlice(doc, 0, |q| + |p|, 0, |q|);
    SliceOfSlice(doc, 0, |q| + |p|, |q|, |q| + |p|);
  }

  /**
   * The layout of the document: after the title come the opening of the style
   * element, the collected styles, the overrides and the closing of the style
   * element; then the content alone fills the body. Where the tags sit in the
   * fixed pieces is stated by the shape lemmas above.
   */
  lemma AssembleLayout(head: string, personName: string, styles: string, overrides: string, contentHtml: string)
    ensures var doc := Assemble(head, personName, styles, overrides, contentHtml);
      var a := |head + TitleOpen + personName + TitleClose|;
      var o := a + |StyleOpen()| + |styles|;
      var c := o + |overrides|;
      var e := c + |StyleClose()| + |contentHtml|;
      && |doc| == e + |DocumentTail()|
      && doc[..a] == head + TitleOpen + personName + TitleClose
      && doc[a..a + |StyleOpen()|] == StyleOpen()
      && doc[a + |StyleOpen()|..o] == styles
      && doc[o..c] == overrides
      && doc[c..c + |StyleClose()|] == StyleClose()
      && doc[c + |StyleClose()|..e] == contentHtml
      && doc[e..|doc|] == DocumentTail()
  {
    var doc := Assemble(head, personName, styles, overrides, contentHtml);
    var q1 := head + TitleOpen + personName + TitleClose;
    var q2 := q1 + StyleOpen();
    var q3 := q2 + styles;
    var q4 := q3 + overrides;
    var q5 := q4 + StyleClose();
    var q6 := q5 + contentHtml;
    assert doc == q6 + DocumentTail();
    assert doc[..|q6| + |DocumentTail()|] == q6 + DocumentTail();
    Peel(doc, q6, DocumentTail());
    Peel(doc, q5, contentHtml);
    Peel(doc, q4, StyleClose());
    Peel(doc, q3, overrides);
    Peel(doc, q2, styles);
    Peel(doc, q1, StyleOpen());
  }

  /**
   * The lazy capture `(.*?)` started at `b`: the fewest characters, none a
   * line terminator, after which the closing text follows. `k` characters
   * have been tried.
   */
  function LazyCapture(s: string, b: nat, k: nat): (r: Option<nat>)
    requires b <= |s|
    ensures r.Some? ==> k <= r.value && b + r.value <= |s| && OccursAt(s, TitleClose, b + r.value)
    decreases |s| - (b + k)
  {
    if b + k > |s| then None
    else if OccursAt(s, TitleClose, b + k) then Some(k)
    else if b + k < |s| && !IsLineTerminator(s[b + k]) then LazyCapture(s, b, k + 1)
    else None
  }

  /** The first match of `/<title>(.*?) - Resume<\/title>/` starting at or after `i`: its captured text. */
  function TitleFrom(s: string, i: nat): (r: Option<string>)
    decreases |s| - i
  {
    if i + |TitleOpen| > |s| then None
    else if OccursAt(s, TitleOpen, i) && LazyCapture(s, i + |TitleOpen|, 0).Some? then
      var k := LazyCapture(s, i + |TitleOpen|, 0).value;
      Some(s[i + |TitleOpen|..i + |TitleOpen| + k])
    else TitleFrom(s, i + 1)
  }

  function TitleMatch(html: string): Option<string> {
    TitleFrom(html, 0)
  }

  /** The name used when none is found. */
  const DefaultName := "resume"
  /** What follows the name in the download's file name. */
  const FileSuffix := "_resume.pdf"

  /** `nameMatch ? nameMatch[1] : 'resume'`. */
  function MatchedName(html: string): string {
    match TitleMatch(html)
    case Some(n) => n
    case None => DefaultName
  }

  /** `replace(/\s+/g, '_')`: each maximal run of whitespace becomes one underscore. */
  function ReplaceSpaceRuns(s: string): (r: string)
    ensures |r| <= |s|
    ensures NoSpace(r)
    decreases |s|
  {
    if s == [] then []
    else if IsSpace(s[0]) then
      var t := TrimStart(s);
      assert t == [] || t[0] == s[|s| - |t|];
      "_" + ReplaceSpaceRuns(t)
    else [s[0]] + ReplaceSpaceRuns(s[1..])
  }

  /** The download name: the name with its whitespace runs replaced, then `_resume.pdf`. */
  function Filename(html: string): string {
    ReplaceSpaceRuns(MatchedName(html)) + FileSuffix
  }

  /** Text without whitespace is left alone. */
  lemma {:induction false} ReplaceNoSpace(s: string)
    requires NoSpace(s)
    ensures ReplaceSpaceRuns(s) == s
    decreases |s|
  {
    if s != [] {
      ReplaceNoSpace(s[1..]);
      assert [s[0]] + s[1..] == s;
    }
  }

  /** Text without whitespace in front of the rest passes through and the rest is rewritten. */
  lemma {:induction false} ReplaceAfterWord(a: string, b: string)
    requires NoSpace(a)
    ensures ReplaceSpaceRuns(a + b) == a + ReplaceSpaceRuns(b)
    decreases |a|
  {
    if a == [] {
      assert a + b == b;
    } else {
      NoSpaceTail(a);
      ReplaceWordStep(a, b);
      ReplaceAfterWord(a[1..], b);
      assert [a[0]] + (a[1..] + ReplaceSpaceRuns(b)) == a + ReplaceSpaceRuns(b);
    }
  }

  lemma NoSpaceTail(a: string)
    requires a != [] && NoSpace(a)
    ensures !IsSpace(a[0]) && NoSpace(a[1..])
  {
    forall k | 0 <= k < |a| - 1 ensures !IsSpace(a[1..][k]) { assert a[1..][k] == a[k + 1]; }
  }

  /** A leading non-space character is copied and the rest replaced. */
  lemma ReplaceWordStep(a: string, b: string)
    requires a != [] && !IsSpace(a[0])
    ensures ReplaceSpaceRuns(a + b) == [a[0]] + ReplaceSpaceRuns(a[1..] + b)
  {
    assert (a + b)[0] == a[0] && (a + b)[1..] == a[1..] + b;
  }

  /** Trimming a whitespace run off the front of text that does not start with whitespace. */
  lemma TrimStartRun(w: string, b: string)
    requires |w| > 0 && AllSpace(w)
    requires b == [] || !IsSpace(b[0])
    ensures TrimStart(w + b) == b
  {
    var s := w + b;
    var t := TrimStart(s);
    var n := |s| - |t|;
    assert forall j :: 0 <= j < n ==> IsSpace(s[j]) by {
      assert forall j :: 0 <= j < n ==> s[j] == s[..n][j];
    }
    assert b != [] ==> s[|w|] == b[0];
    assert t != [] ==> t[0] == s[n];
    assert n == |w|;
    assert s[|w|..] == b;
  }

  /** A leading whitespace run becomes one underscore in front of the rest. */
  lemma ReplaceLeadingRun(w: string, b: string)
    requires |w| > 0 && AllSpace(w)
    requires b == [] || !IsSpace(b[0])
    ensures ReplaceSpaceRuns(w + b) == "_" + ReplaceSpaceRuns(b)
  {
    assert (w + b)[0] == w[0];
    TrimStartRun(w, b);
  }

  /** One whitespace run between two words becomes one underscore. */
  lemma ReplaceOneRun(a: string, w: string, b: string)
    requires NoSpace(a)
    requires |w| > 0 && AllSpace(w)
    requires NoSpace(b)
    ensures ReplaceSpaceRuns(a + w + b) == a + "_" + b
  {
    var wb := w + b;
    assert a + w + b == a + wb;
    ReplaceAfterWord(a, wb);
    ReplaceRunBeforeWord(w, b);
    assert a + ("_" + b) == a + "_" + b;
  }

  /** A whitespace run and then a word: one underscore and the word. */
  lemma ReplaceRunBeforeWord(w: string, b: string)
    requires |w| > 0 && AllSpace(w)
    requires NoSpace(b)
    ensures ReplaceSpaceRuns(w + b) == "_" + b
  {
    assert b == [] || !IsSpace(b[0]);
    ReplaceLeadingRun(w, b);
    ReplaceNoSpace(b);
  }

  /** The default name has no whitespace, so it is left alone. */
  lemma DefaultNameUnchanged()
    ensures ReplaceSpaceRuns(DefaultName) == DefaultName
  {
    assert NoSpace(DefaultName) by {
      forall k | 0 <= k < |DefaultName|
        ensures !IsSpace(DefaultName[k])
      {
      }
    }
    ReplaceNoSpace(DefaultName);
  }

  /** An empty request body has no title, so the file is named after the default. */
  lemma FilenameWithoutTitle(html: string)
    requires TitleMatch(html) == None
    ensures Filename(html) == DefaultName + FileSuffix
  {
    DefaultNameUnchanged();
  }

  lemma EmptyDocumentFilename()
    ensures Filename("") == DefaultName + FileSuffix
  {
    FilenameWithoutTitle("");
  }

  /** No `<` directly followed by `t`: no tag starting with `t` begins in the text. */
  predicate NoTitleStart(s: string) {
    forall i :: 0 <= i < |s| - 1 ==> !(s[i] == '<' && s[i + 1] == 't')
  }

  /** Text that starts no `<t` tag and does not end in a `<` that could start one after it. */
  predicate SafeText(s: string) {
    NoTitleStart(s) && s != [] && s[|s| - 1] != '<'
  }

  lemma {:induction false} SafeAppend(x: string, y: string)
    requires SafeText(x) && SafeText(y)
    ensures SafeText(x + y)
  {
    var s := x + y;
    forall i | 0 <= i < |s| - 1
      ensures !(s[i] == '<' && s[i + 1] == 't')
    {
      if i < |x| - 1 {
        assert s[i] == x[i] && s[i + 1] == x[i + 1];
      } else if i == |x| - 1 {
        assert s[i] == x[|x| - 1];
      } else {
        assert s[i] == y[i - |x|] && s[i + 1] == y[i - |x| + 1];
      }
    }
  }

  /** A line's text is safe when it is empty or safe text. */
  predicate SafeLine(text: string) {
    text == [] || SafeText(text)
  }

  /** An indented line is safe when its text is. */
  lemma SafeIndentedLine(n: nat, text: string)
    requires SafeLine(text)
    ensures SafeText(Indent(n) + text)
  {
    var ind := Indent(n);
    assert SafeText(ind) by {
      forall i | 0 <= i < |ind| - 1
        ensures !(ind[i] == '<' && ind[i + 1] == 't')
      {
        assert i == 0 || ind[i] == ' ';
      }
    }
    if text == [] {
      assert ind + text == ind;
    } else {
      SafeAppend(ind, text);
    }
  }

  /** Lines whose texts are each safe run together into safe text. */
  lemma {:induction false} SafeLines(lines: seq<(nat, string)>)
    requires lines != []
    requires forall k :: 0 <= k < |lines| ==> SafeLine(lines[k].1)
    ensures SafeText(IndentedLines(lines))
    decreases |lines|
  {
    SafeIndentedLine(lines[0].0, lines[0].1);
    if |lines| == 1 {
      assert IndentedLines(lines[1..]) == "";
      assert IndentedLines(lines) == Indent(lines[0].0) + lines[0].1;
    } else {
      SafeLines(lines[1..]);
      SafeAppend(Indent(lines[0].0) + lines[0].1, IndentedLines(lines[1..]));
    }
  }

  /** The texts of the head's lines, each safe. */
  lemma HeadLinesSafe(k: nat)
    requires k < |DocumentHeadLines|
    ensures SafeLine(DocumentHeadLines[k].1)
  {
    if k == 0 {
    } else if k == 1 {
    } else if k == 2 {
    } else if k == 3 {
    } else if k == 4 {
      ViewportSafe();
    }
  }

  /** The viewport line, checked in three parts. */
  lemma ViewportSafe()
    ensures SafeText(DocumentHeadLines[4].1)
  {
    var name, content, scale := "<meta name=\"viewport\"", " content=\"width=device-width,", " initial-scale=1.0\" />";
    assert SafeText(name) && SafeText(content) && SafeText(scale);
    SafeAppend(name, content);
    SafeAppend(name + content, scale);
  }

  /** The template's head holds no `<title>` of its own, not even across its end. */
  lemma HeadHasNoTitle()
    ensures SafeText(DocumentHead())
  {
    forall k | 0 <= k < |DocumentHeadLines|
      ensures SafeLine(DocumentHeadLines[k].1)
    {
      HeadLinesSafe(k);
    }
    SafeLines(DocumentHeadLines);
  }

  /** An occurrence starts with the first character of the text found and ends with its last. */
  lemma OccursAtEnds(s: string, t: string, i: int)
    ensures OccursAt(s, t, i) && |t| > 0 ==> s[i] == t[0] && s[i + |t| - 1] == t[|t| - 1]
    ensures OccursAt(s, t, i) && |t| > 1 ==> s[i + 1] == t[1]
  {
    if OccursAt(s, t, i) && |t| > 0 {
      assert s[i..i + |t|][0] == s[i];
      assert s[i..i + |t|][|t| - 1] == s[i + |t| - 1];
      if |t| > 1 {
        assert s[i..i + |t|][1] == s[i + 1];
      }
    }
  }

  /** No match starts inside a head that starts no `<t` tag. */
  lemma {:induction false} SkipHead(s: string, head: string, i: nat)
    requires SafeText(head)
    requires |head| <= |s| && s[..|head|] == head
    requires i <= |head|
    ensures TitleFrom(s, i) == TitleFrom(s, |head|)
    decreases |head| - i
  {
    if i < |head| {
      OccursAtEnds(s, TitleOpen, i);
      assert s[i] == s[..|head|][i];
      assert i < |head| - 1 ==> s[i + 1] == s[..|head|][i + 1];
      assert !OccursAt(s, TitleOpen, i);
      SkipHead(s, head, i + 1);
    }
  }

  /** Only the title's own `>` is a `>` in the closing text. */
  lemma CloseEndsOnce()
    ensures forall m :: 0 <= m < |TitleClose| - 1 ==> TitleClose[m] != '>'
    ensures TitleClose[|TitleClose| - 1] == '>'
  {
  }

  /**
   * A name the title pattern reads back whole: no line break, which the
   * pattern's `.` does not cross, and no closing text of its own, where the
   * lazy capture would stop early.
   */
  predicate FitsTitle(name: string) {
    (forall m :: 0 <= m < |name| ==> !IsLineTerminator(name[m])) && !Contains(name, TitleClose)
  }

  /** A closing text found inside the name is an occurrence in the name. */
  lemma CloseInsideName(s: string, b: nat, name: string, k: nat)
    requires b + |name| + |TitleClose| <= |s|
    requires s[b..b + |name| + |TitleClose|] == name + TitleClose
    requires k + |TitleClose| <= |name|
    ensures OccursAt(s, TitleClose, b + k) ==> OccursAt(name, TitleClose, k)
  {
    SliceOfSlice(s, b, b + |name| + |TitleClose|, k, k + |TitleClose|);
    assert (name + TitleClose)[k..k + |TitleClose|] == name[k..k + |TitleClose|];
  }

  /**
   * No closing text starts in the name and runs into the closing text that
   * follows it: its `>` would fall on a character of the closing text that
   * is not `>`.
   */
  lemma NoCloseAcross(s: string, b: nat, name: string, k: nat)
    requires b + |name| + |TitleClose| <= |s|
    requires s[b..b + |name| + |TitleClose|] == name + TitleClose
    requires k < |name| < k + |TitleClose|
    ensures !OccursAt(s, TitleClose, b + k)
  {
    var window := s[b..b + |name| + |TitleClose|];
    var m := k + |TitleClose| - 1 - |name|;
    CloseEndsOnce();
    OccursAtEnds(s, TitleClose, b + k);
    assert s[b + k + |TitleClose| - 1] == window[|name| + m] == TitleClose[m];
  }

  /** The closing text follows the name. */
  lemma CloseAfterName(s: string, b: nat, name: string)
    requires b + |name| + |TitleClose| <= |s|
    requires s[b..b + |name| + |TitleClose|] == name + TitleClose
    ensures OccursAt(s, TitleClose, b + |name|)
  {
    SliceOfSlice(s, b, b + |name| + |TitleClose|, |name|, |name| + |TitleClose|);
    assert (name + TitleClose)[|name|..] == TitleClose;
  }

  /** Within the title, the capture keeps going until the closing text that follows the name. */
  lemma {:induction false} CaptureName(s: string, b: nat, name: string, k: nat)
    requires b + |name| + |TitleClose| <= |s|
    requires s[b..b + |name| + |TitleClose|] == name + TitleClose
    requires FitsTitle(name)
    requires k <= |name|
    ensures LazyCapture(s, b, k) == Some(|name|)
    decreases |name| - k
  {
    var window := s[b..b + |name| + |TitleClose|];
    CloseAfterName(s, b, name);
    if k < |name| {
      if k + |TitleClose| <= |name| {
        CloseInsideName(s, b, name, k);
      } else {
        NoCloseAcross(s, b, name, k);
      }
      assert !OccursAt(s, TitleClose, b + k);
      assert s[b + k] == window[k] == name[k];
      CaptureName(s, b, name, k + 1);
    }
  }

  /** A match at `i` whose capture ends after `k` characters gives those characters. */
  lemma TitleFound(s: string, i: nat, k: nat)
    requires OccursAt(s, TitleOpen, i)
    requires LazyCapture(s, i + |TitleOpen|, 0) == Some(k)
    ensures TitleFrom(s, i) == Some(s[i + |TitleOpen|..i + |TitleOpen| + k])
  {
  }

  /**
   * Reading the title back out of text that opens with a safe head and the
   * title element gives the person's name, provided the name has no line
   * break and does not itself contain the closing text.
   */
  lemma TitleAfterHead(s: string, head: string, personName: string)
    requires SafeText(head)
    requires FitsTitle(personName)
    requires var lead := head + TitleOpen + personName + TitleClose;
      |lead| <= |s| && s[..|lead|] == lead
    ensures TitleMatch(s) == Some(personName)
  {
    var b := |head| + |TitleOpen|;
    LeadSlices(s, head, personName);
    SkipHead(s, head, 0);
    CaptureName(s, b, personName, 0);
    TitleFound(s, |head|, |personName|);
  }

  /** The pieces of a document that starts with a head, the title's opening, a name and its closing. */
  lemma LeadSlices(s: string, head: string, personName: string)
    requires var lead := head + TitleOpen + personName + TitleClose;
      |lead| <= |s| && s[..|lead|] == lead
    ensures |head| <= |s| && s[..|head|] == head
    ensures OccursAt(s, TitleOpen, |head|)
    ensures var b := |head| + |TitleOpen|;
      && b + |personName| + |TitleClose| <= |s|
      && s[b..b + |personName| + |TitleClose|] == personName + TitleClose
      && s[b..b + |personName|] == personName
  {
    var lead := head + TitleOpen + personName + TitleClose;
    var a, b := |lead|, |head| + |TitleOpen|;
    assert lead[..|head|] == head;
    assert lead[|head|..b] == TitleOpen;
    assert lead[b..a] == personName + TitleClose;
    SliceOfSlice(s, 0, a, 0, |head|);
    SliceOfSlice(s, 0, a, |head|, b);
    assert lead[b..b + |personName|] == personName;
    SliceOfSlice(s, 0, a, b, a);
    SliceOfSlice(s, 0, a, b, b + |personName|);
  }

  /** The same for the whole template around any safe head. */
  lemma AssembleTitleRoundTrip(head: string, personName: string, styles: string, overrides: string, contentHtml: string)
    requires SafeText(head)
    requires FitsTitle(personName)
    ensures TitleMatch(Assemble(head, personName, styles, overrides, contentHtml)) == Some(personName)
  {
    AssembleLayout(head, personName, styles, overrides, contentHtml);
    TitleAfterHead(Assemble(head, personName, styles, overrides, contentHtml), head, personName);
  }

  /** A document whose title holds a name is downloaded under that name. */
  lemma FilenameOfTitle(html: string, personName: string)
    requires TitleMatch(html) == Some(personName)
    ensures Filename(html) == ReplaceSpaceRuns(personName) + FileSuffix
  {
  }

  /**
   * The generated document's title gives back the person's name, under the
   * same conditions on the name, and the download is named after it.
   */
  lemma TitleRoundTrip(contentHtml: string, personName: string, styles: string)
    requires FitsTitle(personName)
    ensures TitleMatch(CreatePdfHtml(contentHtml, personName, styles)) == Some(personName)
    ensures Filename(CreatePdfHtml(contentHtml, personName, styles)) == ReplaceSpaceRuns(personName) + FileSuffix
  {
    HeadHasNoTitle();
    AssembleTitleRoundTrip(DocumentHead(), personName, styles, PdfOverrides(), contentHtml);
    FilenameOfTitle(CreatePdfHtml(contentHtml, personName, styles), personName);
  }

  /** A rendered element: only its markup is needed. */
  datatype Element = Element(outerHtml: string)

  /**
   * The element lookups `extractResumeHTML` makes, in its order: by id,
   * by class, and inside the preview container (absent, or present with or
   * without a matching descendant).
   */
  datatype Page = Page(
    resumeContent: Option<Element>,
    resumeTemplate: Option<Element>,
    previewMatch: Option<Option<Element>>,
    styleSheets: seq<Option<seq<string>>>,
    nameText: Option<string>)

  /** The element chosen: the first lookup that finds one. */
  function FindResumeElement(page: Page): Option<Element> {
    if page.resumeContent.Some? then page.resumeContent
    else if page.resumeTemplate.Some? then page.resumeTemplate
    else if page.previewMatch.Some? then page.previewMatch.value
    else None
  }

  /** One sheet's text: its rules run together, or nothing when its rules cannot be read. */
  function SheetText(sheet: Option<seq<string>>): string {
    match sheet
    case Some(rules) => Join(rules, "")
    case None => ""
  }

  /** Every sheet's text, one sheet per line. */
  function CollectStyles(sheets: seq<Option<seq<string>>>): string {
    Join(seq(|sheets|, k requires 0 <= k < |sheets| => SheetText(sheets[k])), "\n")
  }

  /**
   * `nameElement?.textContent?.trim() || 'resume'`: never empty, and with no
   * white space at either end, so trimming it again changes nothing (`TrimClean`).
   */
  function PersonName(nameText: Option<string>): (r: string)
    ensures r != ""
    ensures !IsSpace(r[0]) && !IsSpace(r[|r| - 1])
  {
    if nameText.Some? && Trim(nameText.value) != "" then
      TrimEnds(nameText.value);
      Trim(nameText.value)
    else
      DefaultName
  }

  /** Trimming the name used once more changes nothing. */
  lemma PersonNameTrimmed(nameText: Option<string>)
    ensures Trim(PersonName(nameText)) == PersonName(nameText)
  {
    TrimClean(PersonName(nameText));
  }

  /** `extractResumeHTML`: the empty string when no element is found, otherwise the whole document. */
  function ExtractResumeHtml(page: Page): string {
    match FindResumeElement(page)
    case None => ""
    case Some(e) => CreatePdfHtml(e.outerHtml, PersonName(page.nameText), CollectStyles(page.styleSheets))
  }

  /** Nothing is found exactly when every lookup comes back empty. */
  lemma NotFoundIff(page: Page)
    ensures FindResumeElement(page).None? <==>
      page.resumeContent.None? && page.resumeTemplate.None? && (page.previewMatch.None? || page.previewMatch.value.None?)
  {
  }

  /**
   * From page to file name: when the element is found and the name element's
   * trimmed text has no line break and no closing text, the download is named
   * after it, and without a name element it is `resume_resume.pdf`; when no
   * element is found the document is empty and the name is the default too.
   */
  lemma ExportedFilename(page: Page)
    requires FitsTitle(PersonName(page.nameText))
    ensures FindResumeElement(page).Some? ==>
      Filename(ExtractResumeHtml(page)) == ReplaceSpaceRuns(PersonName(page.nameText)) + FileSuffix
    ensures FindResumeElement(page).None? ==> Filename(ExtractResumeHtml(page)) == DefaultName + FileSuffix
  {
    NotFoundFilename(page);
    FoundFilename(page);
  }

  /** Without an element the document is empty and the name is the default. */
  lemma NotFoundFilename(page: Page)
    ensures FindResumeElement(page).None? ==> Filename(ExtractResumeHtml(page)) == DefaultName + FileSuffix
  {
    if FindResumeElement(page).None? {
      NotFoundHtml(page);
      EmptyDocumentFilename();
    }
  }

  /** The found element's document carries the name element's text in its title. */
  lemma FoundFilename(page: Page)
    requires FitsTitle(PersonName(page.nameText))
    ensures FindResumeElement(page).Some? ==>
      Filename(ExtractResumeHtml(page)) == ReplaceSpaceRuns(PersonName(page.nameText)) + FileSuffix
  {
    if FindResumeElement(page).Some? {
      var e := FindResumeElement(page).value;
      FoundHtml(page);
      TitleRoundTrip(e.outerHtml, PersonName(page.nameText), CollectStyles(page.styleSheets));
    }
  }

  lemma FoundHtml(page: Page)
    requires FindResumeElement(page).Some?
    ensures ExtractResumeHtml(page) ==
      CreatePdfHtml(FindResumeElement(page).value.outerHtml, PersonName(page.nameText), CollectStyles(page.styleSheets))
  {
  }

  lemma NotFoundHtml(page: Page)
    requires FindResumeElement(page).None?
    ensures ExtractResumeHtml(page) == ""
  {
  }

  /** The default name reads back whole from a title. */
  lemma DefaultNameFits()
    ensures FitsTitle(DefaultName)
    ensures ReplaceSpaceRuns(DefaultName) == DefaultName
  {
    DefaultNameUnchanged();
    forall i | 0 <= i <= |DefaultName|
      ensures !OccursAt(DefaultName, TitleClose, i)
    {
    }
  }

  /** Without a name element the download is `resume_resume.pdf`. */
  lemma DefaultFilename(page: Page)
    requires page.nameText.None?
    ensures Filename(ExtractResumeHtml(page)) == DefaultName + FileSuffix
  {
    PersonNameAbsent(page.nameText);
    DefaultNameFits();
    if FindResumeElement(page).Some? {
      FoundFilename(page);
    } else {
      NotFoundFilename(page);
    }
  }

  lemma PersonNameAbsent(nameText: Option<string>)
    requires nameText.None?
    ensures PersonName(nameText) == DefaultName
  {
  }
}
