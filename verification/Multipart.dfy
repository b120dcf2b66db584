/**
 * `mp` of red-team-live/run.ts prints multipart/form-data bodies. The parser here follows
 * section 5.1.1 of RFC 2046 and section 4 of RFC 7578 and knows nothing of the printer.
 *
 * An octet is the character with its code; header strings are already encoded.
 */
module Multipart {
  import opened Common
  import opened Text

  /** Empty and absent filenames and types are printed alike. */
  datatype Part = Part(name: string, data: string, contentType: Option<string>, filename: Option<string>)

  const CRLF := "\r\n"

  // ----- the printer -----

  function Given(s: Option<string>): bool { s.Some? && s.value != "" }

  function FieldLine(name: string, value: string): string { name + ":" + (" " + value) }

  function Param(key: string, value: string): string { "; " + (key + "=\"" + (value + "\"")) }

  /** The disposition header without its line end. */
  function Disposition(p: Part): string {
    FieldLine("Content-Disposition", "form-data" + (Param("name", p.name) + FileParam(p)))
  }

  function FileParam(p: Part): string {
    if Given(p.filename) then Param("filename", p.filename.value) else ""
  }

  function TypeLine(p: Part): string {
    if Given(p.contentType) then FieldLine("Content-Type", p.contentType.value) + CRLF else ""
  }

  /** Headers of a part, each with its line end. */
  function Headers(p: Part): string {
    Disposition(p) + CRLF + TypeLine(p)
  }

  function Printed(parts: seq<Part>, boundary: string): string {
    if parts == [] then "--" + boundary + "--" + CRLF
    else "--" + boundary + CRLF + Headers(parts[0]) + CRLF + parts[0].data + CRLF + Printed(parts[1..], boundary)
  }

  /** The octets of a body with one part, its headers apart. */
  lemma OnePartPrinted(p: Part, b: string)
    ensures Printed([p], b) ==
        "--" + b + "\r\n" + (Disposition(p) + "\r\n" + TypeLine(p)) + "\r\n" + p.data + "\r\n"
        + ("--" + b + "--" + "\r\n")
  {
    assert [p][1..] == [];
  }

  lemma ParamPrinted(v: string)
    ensures Param("name", v) == "; name=\"" + v + "\"" && Param("filename", v) == "; filename=\"" + v + "\""
  {
    assert "; " + ("name" + "=\"") == "; name=\"" && "; " + ("filename" + "=\"") == "; filename=\"";
    Regroup("; ", "name" + "=\"", v + "\"");
    Regroup("; name=\"", v, "\"");
    Regroup("; ", "filename" + "=\"", v + "\"");
    Regroup("; filename=\"", v, "\"");
  }

  lemma LinePrinted(v: string)
    ensures FieldLine("Content-Disposition", v) == "Content-Disposition: " + v
    ensures FieldLine("Content-Type", v) == "Content-Type: " + v
  {
    assert "Content-Disposition" + ":" + " " == "Content-Disposition: ";
    assert "Content-Type" + ":" + " " == "Content-Type: ";
    Regroup("Content-Disposition" + ":", " ", v);
    Regroup("Content-Type" + ":", " ", v);
  }

  /** The headers, written out: a name, and a file name and a type when they are given and not empty. */
  lemma HeadersPrinted(p: Part)
    ensures Disposition(p) == "Content-Disposition: " + ("form-data" + (("; name=\"" + p.name + "\"") +
      (if p.filename.None? || p.filename == Some("") then "" else "; filename=\"" + p.filename.value + "\"")))
    ensures TypeLine(p) ==
      if p.contentType.None? || p.contentType == Some("") then "" else "Content-Type: " + p.contentType.value + "\r\n"
  {
    hide Param, FieldLine;
    ParamPrinted(p.name);
    if p.filename.Some? { ParamPrinted(p.filename.value); }
    if p.contentType.Some? { LinePrinted(p.contentType.value); }
    LinePrinted("form-data" + (Param("name", p.name) + FileParam(p)));
  }

  // ----- the parser -----

  /** The delimiter line without what follows it: CRLF, two dashes, the boundary. */
  function Delimiter(boundary: string): string { CRLF + "--" + boundary }

  function SkipBlanks(s: string): (r: string)
    ensures |r| <= |s|
  {
    if s != "" && (s[0] == ' ' || s[0] == '\t') then SkipBlanks(s[1..]) else s
  }

  /** One line, and the text behind its line end; the last line may have none. */
  function ReadLine(s: string): (r: (string, string))
    ensures s != "" ==> |r.1| < |s|
  {
    match Find(s, CRLF)
    case Some(k) => (s[..k], s[k + 2..])
    case None => (s, "")
  }

  /** The header lines up to the blank line or the end, and the text behind. */
  function ReadHeaders(s: string): (seq<string>, string)
    decreases |s|
  {
    if s == "" then ([], "")
    else
      var (line, rest) := ReadLine(s);
      if line == "" then ([], rest)
      else
        var (lines, data) := ReadHeaders(rest);
        ([line] + lines, data)
  }

  /** The value of a header field; one blank may follow the colon. */
  function Field(lines: seq<string>, name: string): Option<string> {
    if lines == [] then None
    else
      match Find(lines[0], ":")
      case Some(k) =>
        if !EqualIgnoreCase(lines[0][..k], name) then Field(lines[1..], name)
        else
          var value := lines[0][k + 1..];
          Some(if Starts(value, " ") then value[1..] else value)
      case None => Field(lines[1..], name)
  }

  /** Parameters: a semicolon, blanks, a name, an equals sign and a quoted value, each. */
  function Params(s: string): Option<seq<(string, string)>>
    decreases |s|
  {
    if s == "" then Some([])
    else if s[0] != ';' then None
    else
      var t := SkipBlanks(s[1..]);
      match Find(t, "=\"")
      case None => None
      case Some(i) =>
        var u := t[i + 2..];
        match Find(u, "\"")
        case None => None
        case Some(j) =>
          match Params(u[j + 1..])
          case Some(more) => Some([(t[..i], u[..j])] + more)
          case None => None
  }

  function Lookup(params: seq<(string, string)>, key: string): Option<string> {
    if params == [] then None
    else if EqualIgnoreCase(params[0].0, key) then Some(params[0].1)
    else Lookup(params[1..], key)
  }

  /** A part of a form: it must be `form-data` and have a name. */
  function ParsePart(content: string): Option<Part> {
    var (lines, data) := ReadHeaders(content);
    match Field(lines, "Content-Disposition")
    case None => None
    case Some(value) =>
      if !Starts(value, "form-data") then None
      else
        match Params(value[9..])
        case None => None
        case Some(params) =>
          match Lookup(params, "name")
          case None => None
          case Some(name) => Some(Part(name, data, Field(lines, "Content-Type"), Lookup(params, "filename")))
  }

  datatype Next = Closed | Malformed | Found(part: Part, rest: string)

  /** What follows a delimiter: the close mark, or a part and what is behind its end delimiter. */
  function NextPart(s: string, boundary: string): (r: Next)
    ensures r.Found? ==> |r.rest| < |s|
  {
    if Starts(s, "--") then Closed
    else
      var t := SkipBlanks(s);
      if !Starts(t, CRLF) then Malformed
      else
        match Find(t[2..], Delimiter(boundary))
        case None => Malformed
        case Some(k) =>
          match ParsePart(t[2..][..k])
          case None => Malformed
          case Some(p) => Found(p, t[2..][k + |Delimiter(boundary)|..])
  }

  /** The parts behind a delimiter, up to the closing one. */
  function ParseParts(s: string, boundary: string): Option<seq<Part>>
    decreases |s|
  {
    match NextPart(s, boundary)
    case Closed => Some([])
    case Malformed => None
    case Found(p, rest) =>
      match ParseParts(rest, boundary)
      case None => None
      case Some(ps) => Some([p] + ps)
  }

  /** A delimiter counts at the start of the body too; what precedes the first one is preamble. */
  function Parse(body: string, boundary: string): Option<seq<Part>> {
    var s := CRLF + body;
    match Find(s, Delimiter(boundary))
    case None => None
    case Some(k) => ParseParts(s[k + |Delimiter(boundary)|..], boundary)
  }

  // ----- what the parser makes of printed headers -----

  /** Header strings without line breaks or quotes; a type may have quotes. */
  predicate Clean(p: Part) {
    && '\r' !in p.name && '"' !in p.name
    && (p.filename.Some? ==> '\r' !in p.filename.value && '"' !in p.filename.value)
    && (p.contentType.Some? ==> '\r' !in p.contentType.value)
  }

  /** The part as a reader sees it: what is empty is not there. */
  function Normal(p: Part): Part {
    Part(p.name, p.data, if p.contentType == Some("") then None else p.contentType,
        if p.filename == Some("") then None else p.filename)
  }

  lemma LineRead(line: string, rest: string)
    requires '\r' !in line
    ensures ReadLine(line + CRLF + rest) == (line, rest)
  {
    FindPast(line, CRLF, rest);
    var s := line + CRLF + rest;
    assert s[..|line|] == line && s[|line| + 2..] == rest;
  }

  lemma ParamShape(key: string, value: string, rest: string)
    ensures var s := Param(key, value) + rest; s[0] == ';' && s[1..] == " " + (key + "=\"" + (value + "\"" + rest))
  {
  }

  lemma OneBlank(t: string)
    requires t != "" && t[0] != ' ' && t[0] != '\t'
    ensures SkipBlanks(" " + t) == t
  {
    assert (" " + t)[1..] == t;
    assert SkipBlanks(t) == t;
  }

  lemma Pieces(a: string, d: string, rest: string)
    ensures var s := a + d + rest; s[..|a|] == a && s[|a| + |d|..] == rest
  {
  }

  lemma ParamRead(key: string, value: string, rest: string)
    requires key != "" && key[0] != ' ' && key[0] != '\t' && '=' !in key && '"' !in value
    requires Params(rest).Some?
    ensures Params(Param(key, value) + rest) == Some([(key, value)] + Params(rest).value)
  {
    var u := value + "\"" + rest;
    var t := key + "=\"" + u;
    ParamShape(key, value, rest);
    OneBlank(t);
    FindPast(key, "=\"", u);
    Pieces(key, "=\"", u);
    FindPast(value, "\"", rest);
    Pieces(value, "\"", rest);
  }

  lemma ParamsRead(p: Part)
    requires Clean(p)
    ensures Params(Param("name", p.name) + FileParam(p)).Some?
    ensures var ps := Params(Param("name", p.name) + FileParam(p)).value;
      Lookup(ps, "name") == Some(p.name) && Lookup(ps, "filename") == Normal(p).filename
  {
    if Given(p.filename) {
      ParamRead("filename", p.filename.value, "");
      assert FileParam(p) + "" == FileParam(p);
    }
    ParamRead("name", p.name, FileParam(p));
  }

  lemma FieldRead(name: string, value: string, lines: seq<string>, wanted: string)
    requires ':' !in name
    ensures Field([FieldLine(name, value)] + lines, wanted) ==
        if EqualIgnoreCase(name, wanted) then Some(value) else Field(lines, wanted)
  {
    var line := FieldLine(name, value);
    var all := [line] + lines;
    FindPast(name, ":", " " + value);
    assert line[..|name|] == name && line[|name| + 1..] == " " + value;
    assert (" " + value)[1..] == value && (" " + value)[..1] == " ";
    assert all[0] == line && all[1..] == lines;
  }

  function HeaderLines(p: Part): seq<string> {
    [Disposition(p)] + if Given(p.contentType) then [FieldLine("Content-Type", p.contentType.value)] else []
  }

  lemma FieldsRead(p: Part)
    ensures Field(HeaderLines(p), "Content-Disposition") == Some("form-data" + (Param("name", p.name) + FileParam(p)))
    ensures Field(HeaderLines(p), "Content-Type") == Normal(p).contentType
  {
    var d := "form-data" + (Param("name", p.name) + FileParam(p));
    var more := if Given(p.contentType) then [FieldLine("Content-Type", p.contentType.value)] else [];
    FieldRead("Content-Disposition", d, more, "Content-Disposition");
    FieldRead("Content-Disposition", d, more, "Content-Type");
    if Given(p.contentType) {
      FieldRead("Content-Type", p.contentType.value, [], "Content-Type");
      assert more + [] == more;
    }
  }

  lemma NoReturnInLine(name: string, value: string)
    requires '\r' !in name && '\r' !in value
    ensures '\r' !in FieldLine(name, value)
  {
  }

  lemma NoReturnInParam(key: string, value: string)
    requires '\r' !in key && '\r' !in value
    ensures '\r' !in Param(key, value)
  {
  }

  lemma NoReturn(p: Part)
    requires Clean(p)
    ensures '\r' !in Disposition(p)
    ensures Given(p.contentType) ==> '\r' !in FieldLine("Content-Type", p.contentType.value)
  {
    hide FieldLine, Param;
    NoReturnInParam("name", p.name);
    if Given(p.filename) { NoReturnInParam("filename", p.filename.value); }
    NoReturnInLine("Content-Disposition", "form-data" + (Param("name", p.name) + FileParam(p)));
    if Given(p.contentType) { NoReturnInLine("Content-Type", p.contentType.value); }
  }

  /** Headers read back, whether a blank line and data follow them or nothing does. */
  lemma HeadersRead(p: Part, after: string)
    requires Clean(p)
    requires after == "" || Starts(after, CRLF)
    ensures ReadHeaders(Headers(p) + after) == (HeaderLines(p), if after == "" then "" else after[2..])
  {
    NoReturn(p);
    var rest := TypeLine(p) + after;
    assert Headers(p) + after == Disposition(p) + CRLF + rest;
    LineRead(Disposition(p), rest);
    AfterRead(after);
    if Given(p.contentType) {
      var line := FieldLine("Content-Type", p.contentType.value);
      assert rest == line + CRLF + after;
      LineRead(line, after);
      assert [line] + [] == [line];
    } else {
      assert rest == after;
    }
  }

  lemma AfterRead(after: string)
    requires after == "" || Starts(after, CRLF)
    ensures ReadHeaders(after) == ([], if after == "" then "" else after[2..])
  {
    if after != "" {
      LineRead("", after[2..]);
      assert after == "" + CRLF + after[2..];
    }
  }

  lemma PartRead(p: Part, after: string)
    requires Clean(p)
    requires after == "" || Starts(after, CRLF)
    ensures ParsePart(Headers(p) + after) == Some(Normal(p).(data := if after == "" then "" else after[2..]))
  {
    HeadersRead(p, after);
    FieldsRead(p);
    ParamsRead(p);
    var v := "form-data" + (Param("name", p.name) + FileParam(p));
    assert v[..9] == "form-data" && v[9..] == Param("name", p.name) + FileParam(p);
  }

  // ----- delimiters -----

  /** A delimiter cannot overlap itself: its first character does not come again in it. */
  lemma NoSelfOverlap(boundary: string, k: nat)
    requires '\r' !in boundary && 0 < k < |Delimiter(boundary)|
    ensures Delimiter(boundary)[0] == '\r' && Delimiter(boundary)[k] != '\r'
  {
  }

  /** In printed headers a CR is never two places before a dash, whatever follows them. */
  lemma HeaderChars(p: Part, after: string, i: nat)
    requires Clean(p) && Starts(after, "\r") && i < |Headers(p)|
    ensures var s := Headers(p) + after;
      s[i] != '\r' || (i + 2 < |s| && s[i + 2] != '-')
  {
    NoReturn(p);
    var s, n := Headers(p) + after, |Disposition(p)|;
    assert after[0] == '\r';
    if i < n {
      assert s[i] == Disposition(p)[i];
    } else if Given(p.contentType) {
      var line := FieldLine("Content-Type", p.contentType.value);
      assert Headers(p) == Disposition(p) + CRLF + (line + CRLF);
      assert i < n + 2 || i >= n + 2 + |line| || s[i] == line[i - n - 2];
      assert s[n + 2] == line[0] == 'C' && s[n + 4 + |line|] == after[0];
    } else {
      assert s[n + 2] == after[0];
    }
  }

  lemma HeadersHideNone(p: Part, after: string, boundary: string, i: nat)
    requires Clean(p) && Starts(after, "\r") && i < |Headers(p)|
    ensures !At(Headers(p) + after, Delimiter(boundary), i)
  {
    var s, d := Headers(p) + after, Delimiter(boundary);
    HeaderChars(p, after, i);
    assert d[0] == '\r' && d[2] == '-';
    assert i + |d| <= |s| ==> s[i..i + |d|][0] == s[i] && s[i..i + |d|][2] == s[i + 2];
  }

  /** No delimiter starts in `e` when none is in `e`, though one follows at once. */
  lemma NoneAcrossTheEnd(e: string, tail: string, boundary: string, i: nat)
    requires '\r' !in boundary && i < |e|
    ensures var d := Delimiter(boundary); At(e + (d + tail), d, i) <==> At(e, d, i)
  {
    var d := Delimiter(boundary);
    var s := e + (d + tail);
    if i + |d| <= |e| {
      assert s[i..i + |d|] == e[i..i + |d|];
    } else {
      var k := |e| - i;
      NoSelfOverlap(boundary, k);
      assert s[i + k] == d[0];
      assert i + |d| <= |s| ==> s[i..i + |d|][k] == s[i + k];
    }
  }

  /** The place of the first `d` in `e`, or the end of `e`. */
  function Cut(e: string, d: string): (k: nat)
    ensures k <= |e|
  {
    match Find(e, d) case Some(k) => k case None => |e|
  }

  lemma FindAtTheEnd(e: string, tail: string, boundary: string)
    requires '\r' !in boundary
    ensures var d := Delimiter(boundary); Find(e + (d + tail), d) == Some(Cut(e, d))
  {
    var d := Delimiter(boundary);
    var t := e + (d + tail);
    var k := Cut(e, d);
    forall i: nat | i < k ensures !At(t, d, i) {
      NotBefore(e, d, i);
      NoneAcrossTheEnd(e, tail, boundary, i);
    }
    if Find(e, d).Some? {
      FirstIsAt(e, d);
      NoneAcrossTheEnd(e, tail, boundary, k);
    } else {
      assert t[|e|..|e| + |d|] == d;
    }
    FindIs(t, d, k);
  }

  lemma AtBehind(h: string, t: string, d: string, i: nat)
    ensures At(h + t, d, |h| + i) <==> At(t, d, i)
  {
    assert i + |d| <= |t| ==> (h + t)[|h| + i..|h| + i + |d|] == t[i..i + |d|];
  }

  /** A search goes on behind a text in which nothing starts. */
  lemma FindBehind(s: string, h: string, t: string, d: string)
    requires s == h + t && Find(t, d).Some? && forall i: nat :: i < |h| ==> !At(s, d, i)
    ensures Find(s, d) == Some(|h| + Find(t, d).value)
  {
    var k := Find(t, d).value;
    forall i: nat | i < |h| + k ensures !At(s, d, i) {
      if i >= |h| {
        NotBefore(t, d, i - |h|);
        AtBehind(h, t, d, i - |h|);
      }
    }
    FirstIsAt(t, d);
    AtBehind(h, t, d, k);
    FindIs(s, d, |h| + k);
  }

  /**
   * The first delimiter behind the headers: the one printed after the data, unless the data,
   * with the line end before it, already holds one.
   */
  lemma FirstDelimiter(p: Part, tail: string, boundary: string)
    requires Clean(p) && '\r' !in boundary
    ensures var d, e := Delimiter(boundary), CRLF + p.data;
      Find(Headers(p) + (e + (d + tail)), d)
      == Some(|Headers(p)| + Cut(e, d))
  {
    var t := CRLF + p.data + (Delimiter(boundary) + tail);
    assert Starts(t, "\r");
    FindAtTheEnd(CRLF + p.data, tail, boundary);
    forall i: nat | i < |Headers(p)| ensures !At(Headers(p) + t, Delimiter(boundary), i) {
      HeadersHideNone(p, t, boundary, i);
    }
    FindBehind(Headers(p) + t, Headers(p), t, Delimiter(boundary));
  }

  // ----- the round trip -----

  /** The data holds no delimiter, nor does it with the blank line before it. */
  predicate Quiet(p: Part, boundary: string) { Find(CRLF + p.data, Delimiter(boundary)).None? }

  /** That is: no delimiter is in the data, and the data does not start with the dashes and the boundary. */
  lemma QuietMeans(p: Part, boundary: string)
    ensures Quiet(p, boundary) <==> Find(p.data, Delimiter(boundary)).None? && !Starts(p.data, "--" + boundary)
  {
    var d, e := Delimiter(boundary), CRLF + p.data;
    AtTheStart(p.data, "--" + boundary);
    assert d == CRLF + ("--" + boundary);
    if Starts(p.data, "--" + boundary) {
      MustBeFound(e, d, 0);
    } else if Find(p.data, d).Some? {
      FirstIsAt(p.data, d);
      AtBehind(CRLF, p.data, d, Find(p.data, d).value);
      MustBeFound(e, d, 2 + Find(p.data, d).value);
    } else if Find(e, d).Some? {
      FirstIsAt(e, d);
      NoDelimiterAt(p.data, boundary, Find(e, d).value);
    }
  }

  lemma AtTheStart(data: string, dashes: string)
    ensures At(CRLF + data, CRLF + dashes, 0) <==> Starts(data, dashes)
  {
    var e, d := CRLF + data, CRLF + dashes;
    assert e[2..] == data && d[2..] == dashes;
    assert |d| <= |e| ==> e[..|d|] == CRLF + data[..|dashes|] && e[..|d|][2..] == data[..|dashes|];
  }

  lemma NoDelimiterAt(data: string, boundary: string, i: nat)
    requires Find(data, Delimiter(boundary)).None? && !Starts(data, "--" + boundary)
    ensures !At(CRLF + data, Delimiter(boundary), i)
  {
    var d, e := Delimiter(boundary), CRLF + data;
    if i == 0 {
      AtTheStart(data, "--" + boundary);
      assert d == CRLF + ("--" + boundary);
    } else if i == 1 {
      assert e[1] != d[0];
      assert 1 + |d| <= |e| ==> e[1..1 + |d|][0] == e[1];
    } else {
      AtBehind(CRLF, data, d, i - 2);
      NotBefore(data, d, i - 2);
    }
  }

  /** What the printer puts behind the first delimiter. */
  function Behind(parts: seq<Part>, boundary: string): string {
    if parts == [] then "--" + CRLF
    else CRLF + (Headers(parts[0]) + ((CRLF + parts[0].data) + (Delimiter(boundary) + Behind(parts[1..], boundary))))
  }

  lemma {:induction false} PrintedIsBehind(parts: seq<Part>, boundary: string)
    ensures CRLF + Printed(parts, boundary) == Delimiter(boundary) + Behind(parts, boundary)
    decreases |parts|
  {
    hide Headers;
    if parts != [] {
      var h, data, rest := Headers(parts[0]), parts[0].data, Printed(parts[1..], boundary);
      PrintedIsBehind(parts[1..], boundary);
      Shuffle("--" + boundary, h, data, rest);
    }
  }

  lemma Shuffle(b: string, h: string, data: string, rest: string)
    ensures CRLF + (b + CRLF + h + CRLF + data + CRLF + rest) ==
        CRLF + b + (CRLF + (h + ((CRLF + data) + (CRLF + rest))))
  {
  }

  function Normals(parts: seq<Part>): seq<Part> {
    if parts == [] then [] else [Normal(parts[0])] + Normals(parts[1..])
  }

  /** The first part comes back whole. */
  lemma WholePart(parts: seq<Part>, boundary: string)
    requires parts != [] && Clean(parts[0]) && '\r' !in boundary && Quiet(parts[0], boundary)
    ensures NextPart(Behind(parts, boundary), boundary) == Found(Normal(parts[0]), Behind(parts[1..], boundary))
  {
    hide Find, ParsePart;
    var p, d := parts[0], Delimiter(boundary);
    var tail := Behind(parts[1..], boundary);
    var e := CRLF + p.data;
    FirstDelimiter(p, tail, boundary);
    WholeRead(p);
    AfterCut(Headers(p), e, d, tail);
    assert e[..|e|] == e;
    Step(Behind(parts, boundary), Headers(p), e, d + tail, boundary, |e|);
  }

  lemma WholeRead(p: Part)
    requires Clean(p)
    ensures ParsePart(Headers(p) + (CRLF + p.data)) == Some(Normal(p))
  {
    PartRead(p, CRLF + p.data);
    assert (CRLF + p.data)[2..] == p.data;
    assert Normal(p).(data := p.data) == Normal(p);
  }

  /** Or it comes back with less data. */
  lemma CutPart(parts: seq<Part>, boundary: string)
    requires parts != [] && Clean(parts[0]) && '\r' !in boundary && !Quiet(parts[0], boundary)
    ensures var r := NextPart(Behind(parts, boundary), boundary);
      r.Found? && r.part.data != parts[0].data
  {
    hide Find, ParsePart;
    var p, d := parts[0], Delimiter(boundary);
    var tail := Behind(parts[1..], boundary);
    var e := CRLF + p.data;
    FirstDelimiter(p, tail, boundary);
    ShortRead(p, boundary);
    Step(Behind(parts, boundary), Headers(p), e, d + tail, boundary, Cut(e, d));
  }

  lemma ShortRead(p: Part, boundary: string)
    requires Clean(p) && !Quiet(p, boundary)
    ensures var e := CRLF + p.data;
      var r := ParsePart(Headers(p) + e[..Cut(e, Delimiter(boundary))]);
      r.Some? && r.value.data != p.data
  {
    var e := CRLF + p.data;
    CutIsShort(p, boundary);
    PartRead(p, e[..Cut(e, Delimiter(boundary))]);
  }

  /** Where a delimiter cuts the data short, what is left is no data or a line end and less data. */
  lemma CutIsShort(p: Part, boundary: string)
    requires !Quiet(p, boundary)
    ensures var e := CRLF + p.data;
      var k := Cut(e, Delimiter(boundary));
      && k < |e| && (k == 0 ==> p.data != "")
      && (k > 0 ==> Starts(e[..k], CRLF) && |e[..k][2..]| < |p.data|)
  {
    var d, e := Delimiter(boundary), CRLF + p.data;
    FirstIsAt(e, d);
    var k := Cut(e, d);
    assert e[k..k + |d|][0] == e[k] && e[1] == '\n';
    assert k > 0 ==> e[..k][..2] == CRLF;
  }

  /** A line end right behind the delimiter opens a part; the next delimiter ends it. */
  lemma Step(s: string, h: string, e: string, rest: string, boundary: string, k: nat)
    requires s == CRLF + (h + (e + rest)) && k <= |e|
    requires Find(h + (e + rest), Delimiter(boundary)) == Some(|h| + k)
    ensures NextPart(s, boundary) ==
      match ParsePart(h + e[..k])
      case Some(p) => Found(p, (h + (e + rest))[|h| + k + |Delimiter(boundary)|..])
      case None => Malformed
  {
    hide Find, ParsePart;
    CutAt(h, e, rest, k);
    assert s[0] == '\r' && s[2..] == h + (e + rest) && s[..2] == CRLF;
    assert SkipBlanks(s) == s;
  }

  lemma CutAt(h: string, e: string, rest: string, k: nat)
    requires k <= |e|
    ensures (h + (e + rest))[..|h| + k] == h + e[..k]
  {
  }

  lemma AfterCut(h: string, e: string, d: string, tail: string)
    ensures (h + (e + (d + tail)))[|h| + |e| + |d|..] == tail
  {
  }

  /**
   * The parser recovers exactly the parts printed, for any boundary without CR and any clean
   * parts, if and only if no data holds a delimiter or begins like one.
   */
  lemma {:induction false} BehindReadBack(parts: seq<Part>, boundary: string)
    requires '\r' !in boundary && forall p :: p in parts ==> Clean(p)
    ensures ParseParts(Behind(parts, boundary), boundary) == Some(Normals(parts))
       <==> forall p :: p in parts ==> Quiet(p, boundary)
    decreases |parts|
  {
    if parts == [] {
      assert Starts("--" + CRLF, "--");
    } else {
      var p, ps := parts[0], parts[1..];
      assert parts == [p] + ps;
      if Quiet(p, boundary) {
        WholePart(parts, boundary);
        BehindReadBack(ps, boundary);
        assert ([Normal(p)] + Normals(ps))[1..] == Normals(ps);
        OneMore(Normal(p), ParseParts(Behind(ps, boundary), boundary), Normals(ps));
      } else {
        CutPart(parts, boundary);
        assert Normals(parts)[0].data == p.data;
      }
    }
  }

  lemma OneMore(p: Part, r: Option<seq<Part>>, ps: seq<Part>)
    ensures (match r case Some(qs) => Some([p] + qs) case None => None) == Some([p] + ps) <==> r == Some(ps)
  {
    if r.Some? && [p] + r.value == [p] + ps {
      assert r.value == ([p] + r.value)[1..] && ps == ([p] + ps)[1..];
    }
  }

  lemma ReadUndoesPrint(parts: seq<Part>, boundary: string)
    requires '\r' !in boundary && forall p :: p in parts ==> Clean(p)
    ensures Parse(Printed(parts, boundary), boundary) == Some(Normals(parts))
       <==> forall p :: p in parts ==> Find(p.data, Delimiter(boundary)).None? && !Starts(p.data, "--" + boundary)
  {
    var d := Delimiter(boundary);
    var s := CRLF + Printed(parts, boundary);
    PrintedIsBehind(parts, boundary);
    assert s[..|d|] == d && s[|d|..] == Behind(parts, boundary);
    assert Find(s, d) == Some(0);
    BehindReadBack(parts, boundary);
    forall p | p in parts
      ensures Quiet(p, boundary) <==> Find(p.data, d).None? && !Starts(p.data, "--" + boundary)
    {
      QuietMeans(p, boundary);
    }
  }

  /** Data that begins like a delimiter is lost: the blank line before it makes it one. */
  lemma DashesAreLost()
    ensures var p := Part("a", "--B", None, None);
      Parse(Printed([p], "B"), "B") != Some([p])
  {
    hide Parse, Printed, Find;
    var p := Part("a", "--B", None, None);
    ReadUndoesPrint([p], "B");
    assert p in [p] && Starts(p.data, "--" + "B");
    assert Normals([p]) == [p];
  }

  // ----- mp itself -----

  lemma ConcatThree(chunks: seq<string>, a: string, b: string, c: string)
    ensures Concat(chunks + [a, b, c]) == Concat(chunks) + (a + b + c)
  {
    ConcatSnoc(chunks, a);
    ConcatSnoc(chunks + [a], b);
    ConcatSnoc(chunks + [a] + [b], c);
    assert chunks + [a, b, c] == chunks + [a] + [b] + [c];
  }

  method Mp(parts: seq<Part>, boundary: string) returns (body: string)
    ensures body == Printed(parts, boundary)
  {
    var chunks: seq<string> := [];
    var i := 0;
    assert parts[0..] == parts;
    while i < |parts|
      invariant 0 <= i <= |parts|
      invariant Concat(chunks) + Printed(parts[i..], boundary) == Printed(parts, boundary)
    {
      var p := parts[i];
      var head := "--" + boundary + CRLF + (Disposition(p) + CRLF + TypeLine(p)) + CRLF;
      ConcatThree(chunks, head, p.data, CRLF);
      assert parts[i..][1..] == parts[i + 1..];
      Regroup(Concat(chunks), head + p.data + CRLF, Printed(parts[i + 1..], boundary));
      chunks := chunks + [head, p.data, CRLF];
      i := i + 1;
    }
    var last := "--" + boundary + "--" + CRLF;
    ConcatSnoc(chunks, last);
    return Concat(chunks + [last]);
  }
}
