/** Announcement bodies with an official document: the header printer and its parser. */
module Announcements {
  import opened Text

  const Marker := "[DOCUMENTO_OFICIAL]"
  const Closing := "[/DOCUMENTO_OFICIAL]"
  const UrlLabel := "Ligação: "
  const SourceLabel := "Fonte: "
  const ReviewedLabel := "Revisto em: "

  datatype Document = Document(url: string, source: string, reviewedOn: string)

  /** The submitted form; an empty URL means that there is no document. */
  datatype Form = Form(body: string, url: string, source: string, reviewedOn: string)

  /** The lines of a header with three given lines between the markers. */
  function HeaderLines(a: string, b: string, c: string): seq<string> { [Marker, a, b, c, Closing] }

  /** documentBody. */
  function Print(f: Form): string
  {
    if f.url == "" then f.body
    else Join(HeaderLines(UrlLabel + f.url, SourceLabel + f.source, ReviewedLabel + f.reviewedOn), '\n') + "\n\n" + f.body
  }

  /** strings.SplitN(s, "\n\n", 2), None when there is no empty line. */
  function SplitAtBlank(s: string): Option<(string, string)>
  {
    if |s| < 2 then None
    else if s[0] == '\n' && s[1] == '\n' then Some(("", s[2..]))
    else
      match SplitAtBlank(s[1..])
      case None => None
      case Some(parts) => Some(([s[0]] + parts.0, parts.1))
  }

  /** The document of three lines, if it is acceptable; valid stands for the check of the URL. */
  function ReadLines(a: string, b: string, c: string, valid: string -> bool): Option<Document>
  {
    var d := Document(TrimPrefix(a, UrlLabel), TrimPrefix(b, SourceLabel), TrimPrefix(c, ReviewedLabel));
    if !valid(d.url) || d.source == "" || d.reviewedOn == "" then None else Some(d)
  }

  /** parseOfficialDocument. */
  function Parse(text: string, valid: string -> bool): (string, Option<Document>)
  {
    match SplitAtBlank(text)
    case None => (text, None)
    case Some(parts) =>
      var lines := Split(parts.0, '\n');
      if |lines| != 5 || lines[0] != Marker || lines[4] != Closing then (text, None)
      else
        match ReadLines(lines[1], lines[2], lines[3], valid)
        case None => (text, None)
        case Some(d) => (parts.1, Some(d))
  }

  // ----- the first empty line -----

  lemma {:induction false} SplitAtBlankJoins(s: string)
    requires SplitAtBlank(s).Some?
    ensures s == SplitAtBlank(s).value.0 + "\n\n" + SplitAtBlank(s).value.1
  {
    if s[0] == '\n' && s[1] == '\n' {
      assert s == "" + "\n\n" + s[2..];
    } else {
      SplitAtBlankJoins(s[1..]);
      assert s == [s[0]] + s[1..];
    }
  }

  /** A line before a line that is not empty is part of the head. */
  lemma {:induction false} LinePasses(line: string, rest: string)
    requires '\n' !in line && rest != "" && rest[0] != '\n'
    ensures SplitAtBlank(line + "\n" + rest) ==
            (match SplitAtBlank(rest) case None => None case Some(parts) => Some((line + "\n" + parts.0, parts.1)))
  {
    var s := line + "\n" + rest;
    if line == "" {
      assert s[1..] == rest;
      match SplitAtBlank(rest)
      case None =>
      case Some(parts) => assert line + "\n" + parts.0 == [s[0]] + parts.0;
    } else {
      assert s[1..] == line[1..] + "\n" + rest;
      LinePasses(line[1..], rest);
      match SplitAtBlank(rest)
      case None =>
      case Some(parts) => assert line + "\n" + parts.0 == [s[0]] + (line[1..] + "\n" + parts.0);
    }
  }

  lemma {:induction false} LineEnds(line: string, rest: string)
    requires '\n' !in line
    ensures SplitAtBlank(line + "\n\n" + rest) == Some((line, rest))
  {
    var s := line + "\n\n" + rest;
    if line == "" {
      assert s[2..] == rest;
    } else {
      assert s[1..] == line[1..] + "\n\n" + rest;
      LineEnds(line[1..], rest);
      assert line == [s[0]] + line[1..];
    }
  }

  /** Lines that are not empty, followed by an empty one, are split off whole, whatever follows. */
  lemma {:induction false} LinesSplit(lines: seq<string>, rest: string)
    requires |lines| >= 1 && forall i :: 0 <= i < |lines| ==> lines[i] != "" && '\n' !in lines[i]
    ensures SplitAtBlank(Join(lines, '\n') + "\n\n" + rest) == Some((Join(lines, '\n'), rest))
  {
    if |lines| == 1 {
      LineEnds(lines[0], rest);
    } else {
      LinesSplit(lines[1..], rest);
      var tail := Join(lines[1..], '\n');
      assert tail != "" && tail[0] == lines[1][0];
      LinePasses(lines[0], tail + "\n\n" + rest);
      assert Join(lines, '\n') + "\n\n" + rest == lines[0] + "\n" + (tail + "\n\n" + rest);
    }
  }

  lemma TrimLabel(mark: string, s: string)
    ensures TrimPrefix(mark + s, mark) == s
  {
    assert (mark + s)[..|mark|] == mark && (mark + s)[|mark|..] == s;
  }

  // ----- what parses -----

  /** The text starts with a header: five lines between the markers that make an acceptable document, and an empty one. */
  ghost predicate StartsWithHeader(text: string, valid: string -> bool)
  {
    exists a, b, c, rest :: IsHeader(text, a, b, c, rest, valid)
  }

  ghost predicate IsHeader(text: string, a: string, b: string, c: string, rest: string, valid: string -> bool)
  {
    && '\n' !in a && '\n' !in b && '\n' !in c && ReadLines(a, b, c, valid).Some?
    && text == Join(HeaderLines(a, b, c), '\n') + "\n\n" + rest
  }

  lemma MarkersAreLines()
    ensures '\n' !in Marker && '\n' !in Closing && Marker != "" && Closing != ""
  {
  }

  lemma HeaderParses(text: string, a: string, b: string, c: string, rest: string, valid: string -> bool)
    requires !valid("") && IsHeader(text, a, b, c, rest, valid)
    ensures Parse(text, valid) == (rest, ReadLines(a, b, c, valid))
  {
    MarkersAreLines();
    var lines := HeaderLines(a, b, c);
    LabelledLine(a, UrlLabel);
    LabelledLine(b, SourceLabel);
    LabelledLine(c, ReviewedLabel);
    assert forall i :: 0 <= i < 5 ==> lines[i] != "" && '\n' !in lines[i];
    LinesSplit(lines, rest);
    SplitJoin(lines, '\n');
    hide Join, Split, SplitAtBlank, TrimPrefix;
  }

  lemma LabelledLine(a: string, mark: string)
    ensures a == "" ==> TrimPrefix(a, mark) == ""
  {
  }

  lemma ParsedIsHeader(text: string, valid: string -> bool)
    requires Parse(text, valid).1.Some?
    ensures StartsWithHeader(text, valid)
  {
    var parts := SplitAtBlank(text).value;
    SplitAtBlankJoins(text);
    var lines := Split(parts.0, '\n');
    assert lines == HeaderLines(lines[1], lines[2], lines[3]);
    hide Join, Split, SplitAtBlank, ReadLines;
    assert IsHeader(text, lines[1], lines[2], lines[3], parts.1, valid);
  }

  /** A document is found exactly in the texts that start with a well-formed header; every other text comes back whole. */
  lemma DocumentIff(text: string, valid: string -> bool)
    requires !valid("")
    ensures Parse(text, valid).1.Some? <==> StartsWithHeader(text, valid)
    ensures !StartsWithHeader(text, valid) ==> Parse(text, valid) == (text, None)
  {
    if StartsWithHeader(text, valid) {
      var a, b, c, rest :| IsHeader(text, a, b, c, rest, valid);
      hide SplitAtBlank, Parse, IsHeader;
      HeaderParses(text, a, b, c, rest, valid);
      HeaderReads(text, a, b, c, rest, valid);
    } else if Parse(text, valid).1.Some? {
      ParsedIsHeader(text, valid);
    }
  }

  lemma HeaderReads(text: string, a: string, b: string, c: string, rest: string, valid: string -> bool)
    requires IsHeader(text, a, b, c, rest, valid)
    ensures ReadLines(a, b, c, valid).Some?
  {
  }

  // ----- round trip -----

  function Submitted(f: Form): (string, Option<Document>)
  {
    (f.body, if f.url == "" then None else Some(Document(f.url, f.source, f.reviewedOn)))
  }

  /** A form whose document fields are single lines, not empty, with a valid URL. */
  predicate Publishable(f: Form, valid: string -> bool)
  {
    valid(f.url) && f.source != "" && f.reviewedOn != "" && '\n' !in f.url && '\n' !in f.source && '\n' !in f.reviewedOn
  }

  lemma PublishableRoundTrip(f: Form, valid: string -> bool)
    requires !valid("") && Publishable(f, valid)
    ensures Parse(Print(f), valid) == Submitted(f)
  {
    var a, b, c := UrlLabel + f.url, SourceLabel + f.source, ReviewedLabel + f.reviewedOn;
    TrimLabel(UrlLabel, f.url);
    TrimLabel(SourceLabel, f.source);
    TrimLabel(ReviewedLabel, f.reviewedOn);
    LabelsAreLines();
    assert '\n' !in a && '\n' !in b && '\n' !in c;
    hide Join, SplitAtBlank, Parse, TrimPrefix;
    HeaderParses(Print(f), a, b, c, f.body, valid);
  }

  /** The text of an announcement with a document. */
  function DocumentText(url: string, source: string, reviewedOn: string, body: string): string
  {
    "[DOCUMENTO_OFICIAL]" + ("\n" + ("Ligação: " + url + ("\n" + ("Fonte: " + source + ("\n" + ("Revisto em: " + reviewedOn
    + ("\n" + "[/DOCUMENTO_OFICIAL]"))))))) + "\n\n" + body
  }

  /** It is what is stored, and it is read back as the document and the body. */
  lemma TextRoundTrip(url: string, source: string, reviewedOn: string, body: string, valid: string -> bool)
    requires !valid("") && Publishable(Form(body, url, source, reviewedOn), valid)
    ensures Print(Form(body, url, source, reviewedOn)) == DocumentText(url, source, reviewedOn, body)
    ensures Parse(DocumentText(url, source, reviewedOn, body), valid) == (body, Some(Document(url, source, reviewedOn)))
  {
    hide Parse, Publishable, Print, DocumentText;
    PublishableRoundTrip(Form(body, url, source, reviewedOn), valid);
    PublishableUrl(Form(body, url, source, reviewedOn), valid);
    PrintedText(url, source, reviewedOn, body);
  }

  lemma PublishableUrl(f: Form, valid: string -> bool)
    requires !valid("") && Publishable(f, valid)
    ensures f.url != ""
  {
  }

  lemma PrintedText(url: string, source: string, reviewedOn: string, body: string)
    requires url != ""
    ensures Print(Form(body, url, source, reviewedOn)) == DocumentText(url, source, reviewedOn, body)
  {
    hide Join;
    FiveLines(Marker, UrlLabel + url, SourceLabel + source, ReviewedLabel + reviewedOn, Closing);
  }

  lemma FiveLines(a: string, b: string, c: string, d: string, e: string)
    ensures Join([a, b, c, d, e], '\n') == a + ("\n" + (b + ("\n" + (c + ("\n" + (d + ("\n" + e)))))))
  {
    assert [a, b, c, d, e][1..] == [b, c, d, e] && [b, c, d, e][1..] == [c, d, e] && [c, d, e][1..] == [d, e] && [d, e][1..] == [e];
    assert Join([d, e], '\n') == d + ['\n'] + e;
    assert Join([c, d, e], '\n') == c + ['\n'] + (d + ['\n'] + e);
    assert Join([b, c, d, e], '\n') == b + ['\n'] + (c + ['\n'] + (d + ['\n'] + e));
  }

  lemma LabelsAreLines()
    ensures '\n' !in UrlLabel && '\n' !in SourceLabel && '\n' !in ReviewedLabel
  {
  }

  /** Every document that parses has single-line fields and passed the checks. */
  lemma ParsedIsPublishable(text: string, valid: string -> bool)
    requires Parse(text, valid).1.Some?
    ensures var d := Parse(text, valid).1.value; Publishable(Form("", d.url, d.source, d.reviewedOn), valid)
  {
    var lines := Split(SplitAtBlank(text).value.0, '\n');
    assert '\n' !in lines[1] && '\n' !in lines[2] && '\n' !in lines[3];
    hide Split, SplitAtBlank;
  }

  /**
   * The body and the document come back as submitted exactly when there is a document and its fields are publishable,
   * or there is none and the body does not itself start with a header. The body is otherwise arbitrary.
   */
  lemma RoundTripIff(f: Form, valid: string -> bool)
    requires !valid("")
    ensures Parse(Print(f), valid) == Submitted(f) <==>
            (if f.url == "" then !StartsWithHeader(f.body, valid) else Publishable(f, valid))
  {
    if f.url == "" {
      DocumentIff(f.body, valid);
      hide Parse, StartsWithHeader;
    } else if Publishable(f, valid) {
      PublishableRoundTrip(f, valid);
    } else {
      if Parse(Print(f), valid).1.Some? { ParsedIsPublishable(Print(f), valid); }
      hide Parse, Print;
    }
  }

  /** The exception is real: a body that starts with a printed document is read as a document nobody submitted. */
  lemma BodyMayForgeADocument(f: Form, valid: string -> bool)
    requires !valid("") && Publishable(f, valid)
    ensures var forged := Form(Print(f), "", "", "");
            Parse(Print(forged), valid) == Submitted(f) && Submitted(f) != Submitted(forged)
  {
    PublishableRoundTrip(f, valid);
    hide Parse;
  }

  /** So is the other one: a source of two lines passes the length check, but the whole text comes back without a document. */
  lemma LineBreakLosesTheDocument(f: Form, x: string, y: string, valid: string -> bool)
    requires !valid("") && valid(f.url) && '\n' !in f.url && '\n' !in f.reviewedOn
    requires f.source == x + "\n" + y && '\n' !in x && '\n' !in y && y != ""
    ensures Parse(Print(f), valid) == (Print(f), None) && Parse(Print(f), valid) != Submitted(f)
  {
    var lines := SixLines(f, x, y);
    LabelsAreLines();
    MarkersAreLines();
    assert forall i :: 0 <= i < 6 ==> lines[i] != "" && '\n' !in lines[i];
    PrintedWithBreak(f, x, y);
    LinesSplit(lines, f.body);
    SplitJoin(lines, '\n');
    hide Join, Split, SplitAtBlank, Print;
  }

  function SixLines(f: Form, x: string, y: string): seq<string>
  {
    [Marker, UrlLabel + f.url, SourceLabel + x, y, ReviewedLabel + f.reviewedOn, Closing]
  }

  lemma PrintedWithBreak(f: Form, x: string, y: string)
    requires f.url != "" && f.source == x + "\n" + y
    ensures Print(f) == Join(SixLines(f, x, y), '\n') + "\n\n" + f.body
  {
    var b, c := SourceLabel + f.source, [ReviewedLabel + f.reviewedOn, Closing];
    assert b == (SourceLabel + x) + "\n" + y;
    JoinBreak(SourceLabel + x, y, c);
    JoinAfter([Marker, UrlLabel + f.url], [b] + c, [SourceLabel + x, y] + c);
    assert HeaderLines(UrlLabel + f.url, b, c[0]) == [Marker, UrlLabel + f.url] + ([b] + c);
    assert SixLines(f, x, y) == [Marker, UrlLabel + f.url] + ([SourceLabel + x, y] + c);
    hide Join;
  }

  lemma JoinBreak(x: string, y: string, rest: seq<string>)
    requires rest != []
    ensures Join([x + "\n" + y] + rest, '\n') == Join([x, y] + rest, '\n')
  {
    assert ([x + "\n" + y] + rest)[1..] == rest && ([y] + rest)[1..] == rest && ([x, y] + rest)[1..] == [y] + rest;
  }

  lemma {:induction false} JoinAfter(head: seq<string>, a: seq<string>, b: seq<string>)
    requires a != [] && b != [] && Join(a, '\n') == Join(b, '\n')
    ensures Join(head + a, '\n') == Join(head + b, '\n')
  {
    if head == [] {
      assert head + a == a && head + b == b;
    } else {
      JoinAfter(head[1..], a, b);
      assert (head + a)[1..] == head[1..] + a && (head + b)[1..] == head[1..] + b;
    }
  }
}
