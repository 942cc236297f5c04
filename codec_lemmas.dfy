/** What the codec of src/request.rs promises: the error of each malformed
    request line, how header lines and the body are read back, and the shape of
    a serialised response. */
module CodecLemmas {
  import opened Wrappers
  import opened Strings
  import opened Codec

  // ---------------------------------------------------------------------------
  // Requests as text

  /** One header line as a client writes it. */
  function FieldLine(f: (string, string)): string
  {
    f.0 + ":" + f.1
  }

  function FieldLines(fields: seq<(string, string)>): (ls: seq<string>)
    ensures |ls| == |fields|
    ensures forall k :: 0 <= k < |fields| ==> ls[k] == FieldLine(fields[k])
  {
    if fields == [] then [] else [FieldLine(fields[0])] + FieldLines(fields[1..])
  }

  predicate WellFormedField(f: (string, string))
  {
    IsHeaderName(f.0) && IsHeaderValue(f.1)
  }

  /** The header map of a list of fields, defined from the last field back:
      the last field with a given (lowercased) name is the one that stays. */
  function FieldsMap(fields: seq<(string, string)>): map<string, string>
  {
    if fields == [] then map[]
    else
      var last := fields[|fields| - 1];
      FieldsMap(fields[..|fields| - 1])[LowerAscii(last.0) := last.1]
  }

  /** A request: a request line of the method, the target and any further
      words (such as a version), then CRLF-terminated header lines, an empty
      line and the body. */
  function RequestText(head: seq<string>, fields: seq<(string, string)>, body: string): string
  {
    Spaced(head) + CRLF + CrlfTerminated(FieldLines(fields)) + CRLF + body
  }

  // ---------------------------------------------------------------------------
  // Helpers for lines and words

  /** Visible ASCII holds no whitespace, so a target that parses is one word. */
  lemma UriIsWord(uri: string)
    requires UriParses(uri)
    ensures IsWord(uri)
  {
  }

  lemma MethodWords()
    ensures IsWord("GET") && IsWord("POST")
  {
    assert forall j :: 0 <= j < 3 ==> "GET"[j] in {'G', 'E', 'T'};
    assert forall j :: 0 <= j < 4 ==> "POST"[j] in {'P', 'O', 'S', 'T'};
  }

  /** A request line of a known method, a target that parses and further
      words. */
  predicate GoodHead(head: seq<string>)
  {
    && |head| >= 2
    && (head[0] == "GET" || head[0] == "POST")
    && UriParses(head[1])
    && forall k :: 2 <= k < |head| ==> IsWord(head[k])
  }

  lemma GoodHeadWords(head: seq<string>)
    requires GoodHead(head)
    ensures forall k :: 0 <= k < |head| ==> IsWord(head[k])
  {
    forall k | 0 <= k < |head| ensures IsWord(head[k]) {
      if k == 0 {
        MethodWords();
      } else if k == 1 {
        UriIsWord(head[1]);
      }
    }
  }

  lemma RequestLineWords(head: seq<string>)
    requires forall k :: 0 <= k < |head| ==> IsWord(head[k])
    ensures Words(Spaced(head)) == head
    ensures '\n' !in Spaced(head)
  {
    WordsSpaced(head);
    SpacedNoNewline(head);
  }

  lemma WordNoNewline(w: string)
    requires IsWord(w)
    ensures '\n' !in w
  {
    assert forall j :: 0 <= j < |w| ==> w[j] != '\n';
  }

  lemma {:induction false} SpacedNoNewline(ws: seq<string>)
    requires forall k :: 0 <= k < |ws| ==> IsWord(ws[k])
    ensures '\n' !in Spaced(ws)
  {
    if |ws| == 1 {
      WordNoNewline(ws[0]);
    } else if |ws| > 1 {
      WordNoNewline(ws[0]);
      SpacedNoNewline(ws[1..]);
      assert Spaced(ws) == ws[0] + " " + Spaced(ws[1..]);
    }
  }

  /** The body lines of a body without a line feed glue back to the body. */
  lemma BodyLines(body: string)
    requires '\n' !in body
    ensures Concat([""] + Lines(body)) == body
  {
    if body == [] {
      assert [""] + Lines(body) == [""];
    } else {
      assert Lines(body) == [body];
      var ls := [""] + [body];
      assert ls[1..] == [body] && [body][1..] == [];
      assert Concat(ls) == "" + Concat([body]);
      assert Concat([body]) == body + "";
    }
  }

  /** The first empty line of `hs + rest` is the first line of `rest`. */
  lemma {:induction false} BodyStartAfter(hs: seq<string>, rest: seq<string>)
    requires forall k :: 0 <= k < |hs| ==> hs[k] != ""
    requires |rest| > 0 && rest[0] == ""
    ensures BodyStart(hs + rest) == |hs|
  {
    if hs != [] {
      TailAppend(hs, rest);
      BodyStartAfter(hs[1..], rest);
    }
  }

  /** A header line splits at its first colon only: the rest, colons and all,
      is the value. */
  lemma ParseFieldLine(name: string, value: string)
    requires IsHeaderName(name) && IsHeaderValue(value)
    ensures ParseHeaderLine(name + ":" + value) == Field(name, value)
  {
    NameChars(name);
    var s := name + ":" + value;
    IndexOfAfterPrefix(name, ':', value);
    assert s[..|name|] == name && s[|name| + 1..] == value;
  }

  /** Appending a field line to header lines that parse updates the map at the
      field's lowercased name: a later header replaces an earlier one. */
  lemma {:induction false} HeaderMapSnoc(acc: map<string, string>, hs: seq<string>, line: string)
    requires HeadersDefined(hs) && HeaderMap(acc, hs).Ok?
    requires ParseHeaderLine(line).Field?
    ensures HeadersDefined(hs + [line])
    ensures HeaderMap(acc, hs + [line])
      == Ok(HeaderMap(acc, hs).value[LowerAscii(ParseHeaderLine(line).name) := ParseHeaderLine(line).value])
    decreases |hs|
  {
    if hs == [] {
      assert hs + [line] == [line];
      assert [line][1..] == [];
    } else {
      TailAppend(hs, [line]);
      var p := ParseHeaderLine(hs[0]);
      HeaderMapSnoc(acc[LowerAscii(p.name) := p.value], hs[1..], line);
    }
  }

  lemma FieldLinesSnoc(fields: seq<(string, string)>)
    requires fields != []
    ensures FieldLines(fields) == FieldLines(fields[..|fields| - 1]) + [FieldLine(fields[|fields| - 1])]
  {
    var a := FieldLines(fields);
    var b := FieldLines(fields[..|fields| - 1]) + [FieldLine(fields[|fields| - 1])];
    assert |a| == |b|;
    forall k | 0 <= k < |a|
      ensures a[k] == b[k]
    {
      if k < |fields| - 1 {
        assert fields[..|fields| - 1][k] == fields[k];
      }
    }
  }

  lemma {:induction false} FieldsHeaderMap(fields: seq<(string, string)>)
    requires forall k :: 0 <= k < |fields| ==> WellFormedField(fields[k])
    ensures HeadersDefined(FieldLines(fields))
    ensures HeaderMap(map[], FieldLines(fields)) == Ok(FieldsMap(fields))
  {
    if fields != [] {
      var init := fields[..|fields| - 1];
      var last := fields[|fields| - 1];
      assert forall k :: 0 <= k < |init| ==> init[k] == fields[k];
      FieldsHeaderMap(init);
      var lines := FieldLines(init);
      FieldLinesSnoc(fields);
      ParseFieldLine(last.0, last.1);
      HeaderMapSnoc(map[], lines, FieldLine(last));
    }
  }

  lemma NameChars(s: string)
    requires IsHeaderName(s)
    ensures ':' !in s && '\n' !in s && s != ""
  {
    assert forall i :: 0 <= i < |s| ==> s[i] != ':' && s[i] != '\n';
  }

  lemma ValueChars(s: string)
    requires IsHeaderValue(s)
    ensures '\n' !in s
  {
    assert forall i :: 0 <= i < |s| ==> s[i] != '\n';
  }

  lemma FieldLinesClean(fields: seq<(string, string)>)
    requires forall k :: 0 <= k < |fields| ==> WellFormedField(fields[k])
    ensures forall k :: 0 <= k < |fields| ==> '\n' !in FieldLines(fields)[k] && FieldLines(fields)[k] != ""
  {
    forall k | 0 <= k < |fields|
      ensures '\n' !in FieldLines(fields)[k] && FieldLines(fields)[k] != ""
    {
      NameChars(fields[k].0);
      ValueChars(fields[k].1);
    }
  }

  lemma RegroupFrame(first: string, mid: string, body: string)
    ensures first + CRLF + mid + CRLF + body == first + "\r\n" + (mid + ("" + "\r\n" + body))
  {
  }

  /** A first line, CRLF-terminated lines, an empty line and a body read back
      as those lines and then the body's own lines. */
  lemma FramedLines(first: string, ls: seq<string>, body: string)
    requires '\n' !in first
    requires forall k :: 0 <= k < |ls| ==> '\n' !in ls[k]
    ensures Lines(first + CRLF + CrlfTerminated(ls) + CRLF + body) == [first] + ls + [""] + Lines(body)
  {
    var mid := CrlfTerminated(ls);
    var tail := "" + "\r\n" + body;
    RegroupFrame(first, mid, body);
    FirstLine(first, mid + tail);
    LinesOfCrlfTerminated(ls, tail);
    FirstLine("", body);
    Regroup4([first], ls, [""], Lines(body));
  }

  lemma Regroup4<T>(a: seq<T>, b: seq<T>, c: seq<T>, d: seq<T>)
    ensures a + (b + (c + d)) == a + b + c + d
  {
  }

  // ---------------------------------------------------------------------------
  // deserialize_request

  /** The lines after a well-formed request line: header fields, an empty
      line, and a body without line feeds. */
  lemma FramedParts(b: Builder, fields: seq<(string, string)>, body: string)
    requires b.ok
    requires forall k :: 0 <= k < |fields| ==> WellFormedField(fields[k])
    requires '\n' !in body
    ensures PartsDefined(b, FieldLines(fields) + ([""] + Lines(body)))
    ensures Parts(b, FieldLines(fields) + ([""] + Lines(body))) == Ok(Request(b.httpMethod, b.uri, FieldsMap(fields), body))
  {
    var fl := FieldLines(fields);
    var rest := [""] + Lines(body);
    var lines := fl + rest;
    var h := FieldsMap(fields);
    assert BodyStart(lines) == |fl| by {
      FieldLinesClean(fields);
      BodyStartAfter(fl, rest);
    }
    assert lines[..|fl|] == fl;
    assert Concat(lines[|fl|..]) == body by {
      assert lines[|fl|..] == rest;
      BodyLines(body);
    }
    assert HeadersDefined(fl) && HeaderMap(map[], fl) == Ok(h) by {
      FieldsHeaderMap(fields);
    }
    PartsOk(b, lines, h);
  }

  /** The lines of a request text: its request line, its field lines, an
      empty line and the body's own lines. */
  lemma RequestTextLines(head: seq<string>, fields: seq<(string, string)>, body: string)
    requires forall k :: 0 <= k < |head| ==> IsWord(head[k])
    requires forall k :: 0 <= k < |fields| ==> WellFormedField(fields[k])
    ensures Lines(RequestText(head, fields, body)) != []
    ensures Words(Lines(RequestText(head, fields, body))[0]) == head
    ensures Lines(RequestText(head, fields, body))[1..] == FieldLines(fields) + ([""] + Lines(body))
  {
    var first := Spaced(head);
    var fl := FieldLines(fields);
    RequestLineWords(head);
    FieldLinesClean(fields);
    FramedLines(first, fl, body);
    Regroup4([first], fl, [""], Lines(body));
  }

  /** A well-formed GET or POST request decodes to its method, its target, the
      map of its header fields and its body; words after the target, such as
      the version, are never looked at. */
  lemma DecodeRequestText(head: seq<string>, fields: seq<(string, string)>, body: string)
    requires GoodHead(head)
    requires forall k :: 0 <= k < |fields| ==> WellFormedField(fields[k])
    requires '\n' !in body
    ensures DecodeDefined(RequestText(head, fields, body))
    ensures DeserializeRequest(RequestText(head, fields, body))
      == Ok(Request(if head[0] == "GET" then Get else Post, head[1], FieldsMap(fields), body))
  {
    GoodHeadWords(head);
    RequestTextLines(head, fields, body);
    DecodeFramed(RequestText(head, fields, body), head, fields, body);
  }

  lemma DecodeFramed(text: string, head: seq<string>, fields: seq<(string, string)>, body: string)
    requires GoodHead(head)
    requires forall k :: 0 <= k < |fields| ==> WellFormedField(fields[k])
    requires '\n' !in body
    requires Lines(text) != [] && Words(Lines(text)[0]) == head
    requires Lines(text)[1..] == FieldLines(fields) + ([""] + Lines(body))
    ensures DecodeDefined(text)
    ensures DeserializeRequest(text) == Ok(Request(if head[0] == "GET" then Get else Post, head[1], FieldsMap(fields), body))
  {
    FramedParts(NewBuilder(if head[0] == "GET" then Get else Post, head[1]), fields, body);
    FramedParts(NewBuilder(Get, head[1]), fields, body);
  }

  /** Only the empty text has no lines: it alone fails with "Invalid HTTP Request". */
  lemma DecodeEmpty(text: string)
    requires DecodeDefined(text)
    ensures DeserializeRequest(text) == Err(INVALID_REQUEST) <==> text == ""
  {
    var r := DeserializeRequest(text);
    if text != "" {
      var head := Words(Lines(text)[0]);
      if |head| >= 2 && head[0] != "GET" && head[0] != "POST" {
        assert UnsupportedMethod(head[0])[0] == 'U';
      }
    }
  }

  /** A first line with no word fails with "Invalid HTTP Method". */
  lemma DecodeNoMethod(text: string)
    requires DecodeDefined(text) && text != ""
    ensures DeserializeRequest(text) == Err(INVALID_METHOD) <==> AllWhitespace(Lines(text)[0])
  {
    var head := Words(Lines(text)[0]);
    WordsEmpty(Lines(text)[0]);
    if |head| >= 2 && head[0] != "GET" && head[0] != "POST" {
      assert UnsupportedMethod(head[0])[0] == 'U';
    }
  }

  /** A first line with one word fails with "Invalid HTTP URI". */
  lemma DecodeNoUri(text: string)
    requires DecodeDefined(text) && text != ""
    ensures DeserializeRequest(text) == Err(INVALID_URI) <==> |Words(Lines(text)[0])| == 1
  {
    var head := Words(Lines(text)[0]);
    if |head| >= 2 && head[0] != "GET" && head[0] != "POST" {
      assert UnsupportedMethod(head[0])[0] == 'U';
    }
  }

  /** Any method word other than exactly `GET` and `POST` is refused with an
      error that carries the word. */
  lemma DecodeOtherMethod(head: seq<string>, rest: string)
    requires |head| >= 2 && head[0] != "GET" && head[0] != "POST"
    requires forall k :: 0 <= k < |head| ==> IsWord(head[k])
    ensures DecodeDefined(Spaced(head) + CRLF + rest)
    ensures DeserializeRequest(Spaced(head) + CRLF + rest) == Err(UnsupportedMethod(head[0]))
  {
    RequestLineWords(head);
    FirstLine(Spaced(head), rest);
    DecodeOtherHead(Spaced(head) + CRLF + rest, head);
  }

  lemma DecodeOtherHead(text: string, head: seq<string>)
    requires |head| >= 2 && head[0] != "GET" && head[0] != "POST"
    requires Lines(text) != [] && Words(Lines(text)[0]) == head
    ensures DecodeDefined(text)
    ensures DeserializeRequest(text) == Err(UnsupportedMethod(head[0]))
  {
  }

  /** Method names are case-sensitive. */
  lemma LowercaseGetIsUnsupported(uri: string, rest: string)
    requires IsWord(uri)
    ensures DecodeDefined("get " + uri + CRLF + rest)
    ensures DeserializeRequest("get " + uri + CRLF + rest) == Err("Unsupported HTTP Method: get")
  {
    var head := ["get", uri];
    assert forall j :: 0 <= j < 3 ==> "get"[j] in {'g', 'e', 't'};
    assert Spaced(head) == "get " + uri by {
      assert head[1..] == [uri];
    }
    DecodeOtherMethod(head, rest);
  }

  /** A target the URI parser refuses leaves the builder without headers. */
  lemma PartsMissingHeaders(m: Method, uri: string, lines: seq<string>)
    requires PartsDefined(NewBuilder(m, uri), lines)
    ensures Parts(NewBuilder(m, uri), lines) == Err(MISSING_HEADERS) <==> !UriParses(uri)
  {
  }

  /** With no empty line every line after the request line is a header and
      the body is empty: decoding fails only on a bad header line. */
  lemma NoBlankLine(b: Builder, lines: seq<string>)
    requires b.ok && "" !in lines && HeadersDefined(lines)
    ensures PartsDefined(b, lines)
    ensures HeaderMap(map[], lines).Ok? ==>
      Parts(b, lines) == Ok(Request(b.httpMethod, b.uri, HeaderMap(map[], lines).value, ""))
    ensures HeaderMap(map[], lines).Err? ==> Parts(b, lines) == Err(HeaderMap(map[], lines).error)
  {
    NoEmptyLine(lines);
    assert lines[..|lines|] == lines;
    assert lines[|lines|..] == [];
  }

  lemma {:induction false} NoEmptyLine(ls: seq<string>)
    requires forall k :: 0 <= k < |ls| ==> ls[k] != ""
    ensures BodyStart(ls) == |ls|
  {
    if ls != [] {
      NoEmptyLine(ls[1..]);
    }
  }

  // ---------------------------------------------------------------------------
  // serialize_response

  /** The three digits of a status line read back as a number. */
  function ReadStatus(t: string): Option<int>
  {
    if |t| == 3 && (forall i :: 0 <= i < 3 ==> '0' <= t[i] <= '9') then
      Some((t[0] as int - '0' as int) * 100 + (t[1] as int - '0' as int) * 10 + (t[2] as int - '0' as int))
    else None
  }

  lemma ReadStatusText(c: StatusCode)
    ensures ReadStatus(StatusText(c)) == Some(c)
  {
  }

  lemma WordsCons(w: string, rest: string)
    requires IsWord(w)
    ensures Words(w + " " + rest) == [w] + Words(rest)
  {
    var s := w + (" " + rest);
    assert w + " " + rest == s;
    WordsOfWord(w, " " + rest);
    assert s[..|w|] == w && s[|w|..] == " " + rest;
    assert (" " + rest)[1..] == rest;
  }

  /** The status line starts with the version and then the status code, which
      reads back as the response's code. */
  lemma StatusLineWords(r: Response)
    ensures |Words(StatusLine(r))| >= 2
    ensures Words(StatusLine(r))[0] == VersionText(r.version)
    ensures ReadStatus(Words(StatusLine(r))[1]) == Some(r.status)
  {
    var v, c := VersionText(r.version), StatusText(r.status);
    assert forall i :: 0 <= i < |v| ==> !IsWhitespace(v[i]);
    assert forall i :: 0 <= i < |c| ==> !IsWhitespace(c[i]);
    assert StatusLine(r) == v + " " + (c + " " + Reason(r.status));
    WordsCons(v, c + " " + Reason(r.status));
    WordsCons(c, Reason(r.status));
    ReadStatusText(r.status);
  }

  lemma HeaderLinesClean(hs: seq<(FieldName, FieldText)>)
    ensures forall k :: 0 <= k < |hs| ==> '\n' !in HeaderLines(hs)[k]
  {
    forall k | 0 <= k < |hs| ensures '\n' !in HeaderLines(hs)[k] {
      NameChars(hs[k].0);
      assert forall i :: 0 <= i < |hs[k].1| ==> hs[k].1[i] != '\n';
    }
  }

  /** The lines of a serialised response: the status line, one `name: value`
      line per header in order, an empty line, and then the body's own lines. */
  lemma SerializeLines(r: Response)
    requires '\n' !in Reason(r.status)
    ensures Lines(SerializeResponse(r)) == [StatusLine(r)] + HeaderLines(r.headers) + [""] + Lines(r.body)
  {
    HeaderLinesClean(r.headers);
    FramedLines(StatusLine(r), HeaderLines(r.headers), r.body);
  }

  /** The reasons of the codes the server sends hold no line feed. */
  lemma ServerReasons(c: StatusCode)
    requires c in {200, 400, 404, 500}
    ensures '\n' !in Reason(c)
  {
  }

  /** The body ends the serialised response unchanged. */
  lemma SerializeEndsWithBody(r: Response)
    ensures |SerializeResponse(r)| >= |r.body|
    ensures SerializeResponse(r)[|SerializeResponse(r)| - |r.body|..] == r.body
  {
  }

  /** A code with no canonical phrase is given the text "400" as its reason. */
  lemma ReasonFallback(c: StatusCode)
    ensures CanonicalReason(c).None? ==> Reason(c) == "400"
    ensures CanonicalReason(c).Some? ==> Reason(c) == CanonicalReason(c).value
  {
  }
}
