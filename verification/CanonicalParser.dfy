/**
  The canonical request is unambiguous: a parser undoes the printer, so two
  requests that print alike agree in method, path, query, signed headers and
  payload hash. The blank line after the header block is the delimiter.
 */
module CanonicalParser {
  import opened Wrappers
  import opened Strings
  import opened SigV4

  datatype Entry = Entry(name: string, value: string)

  datatype CanonicalRequest = CanonicalRequest(
    httpMethod: string, uri: string, query: string, headers: seq<Entry>, payloadHash: string)

  // ------------------------------------------------------------ the printer

  function EntryNames(entries: seq<Entry>): seq<string> {
    seq(|entries|, i requires 0 <= i < |entries| => entries[i].name)
  }

  function EntryBlock(entries: seq<Entry>): string {
    if entries == [] then ""
    else
      var e := entries[|entries| - 1];
      EntryBlock(entries[..|entries| - 1]) + Line(e.name, e.value)
  }

  function Print(c: CanonicalRequest): string {
    CanonicalText(c.httpMethod, c.uri, c.query,
      CanonicalHeaders(Join(EntryNames(c.headers), ';'), EntryBlock(c.headers)), c.payloadHash)
  }

  // ------------------------------------------------------------- the parser

  /** The entry before and after the first colon, if there is one. */
  function ParseLine(line: string): Option<Entry> {
    if line == "" then None
    else if line[0] == ':' then Some(Entry("", line[1..]))
    else
      match ParseLine(line[1..])
      case None => None
      case Some(e) => Some(Entry([line[0]] + e.name, e.value))
  }

  /** The entries before the first blank line, and the lines after it. */
  function ParseBlock(lines: seq<string>): Option<(seq<Entry>, seq<string>)> {
    if lines == [] then None
    else if lines[0] == "" then Some(([], lines[1..]))
    else
      match (ParseLine(lines[0]), ParseBlock(lines[1..]))
      case (Some(e), Some((entries, rest))) => Some(([e] + entries, rest))
      case _ => None
  }

  function Parse(text: string): Option<CanonicalRequest> {
    var lines := Split(text, '\n');
    if |lines| < 3 then None
    else
      match ParseBlock(lines[3..])
      case Some((entries, rest)) =>
        if |rest| != 2 then None
        else Some(CanonicalRequest(lines[0], lines[1], lines[2], entries, rest[1]))
      case None => None
  }

  // ------------------------------------------------------------ round trip

  ghost predicate CleanEntry(e: Entry) {
    Free(e.name, ':') && Free(e.name, '\n') && Free(e.value, '\n')
  }

  /** No newline in any field, and no colon in a header name. */
  ghost predicate Clean(c: CanonicalRequest) {
    && Free(c.httpMethod, '\n') && Free(c.uri, '\n') && Free(c.query, '\n') && Free(c.payloadHash, '\n')
    && forall i | 0 <= i < |c.headers| :: CleanEntry(c.headers[i])
  }

  function LineText(e: Entry): string {
    e.name + ":" + e.value
  }

  function LineTexts(entries: seq<Entry>): seq<string> {
    seq(|entries|, i requires 0 <= i < |entries| => LineText(entries[i]))
  }

  lemma {:induction false} ParseLineUndoes(name: string, value: string)
    requires Free(name, ':')
    ensures ParseLine(name + ":" + value) == Some(Entry(name, value))
  {
    var line := name + ":" + value;
    if name == "" {
      assert line == [':'] + value;
    } else {
      assert forall c | c in name[1..] :: c in name;
      ParseLineUndoes(name[1..], value);
      assert line[1..] == name[1..] + ":" + value;
      assert name == [name[0]] + name[1..];
      assert name[0] in name;
    }
  }

  lemma {:induction false} ParseBlockUndoes(entries: seq<Entry>, rest: seq<string>)
    requires forall i | 0 <= i < |entries| :: CleanEntry(entries[i])
    ensures ParseBlock(LineTexts(entries) + [""] + rest) == Some((entries, rest))
  {
    var lines := LineTexts(entries) + [""] + rest;
    if entries == [] {
      assert lines[1..] == rest;
    } else {
      ParseLineUndoes(entries[0].name, entries[0].value);
      assert lines[0] == LineText(entries[0]) && ':' in lines[0];
      assert lines[1..] == LineTexts(entries[1..]) + [""] + rest;
      ParseBlockUndoes(entries[1..], rest);
      assert entries == [entries[0]] + entries[1..];
    }
  }

  lemma JoinTwo(a: string, b: string, sep: char)
    ensures Join([a, b], sep) == a + [sep] + b
  {
    JoinConcat([a], [b], sep);
    assert [a] + [b] == [a, b];
  }

  lemma JoinEndsBlank(lines: seq<string>, line: string, sep: char)
    ensures Join(lines + [line] + [""], sep) == Join(lines + [""], sep) + line + [sep]
  {
    JoinTwo(line, "", sep);
    if lines == [] {
      assert lines + [line] + [""] == [line, ""] && lines + [""] == [""];
    } else {
      JoinConcat(lines, [""], sep);
      JoinConcat(lines, [line, ""], sep);
      assert lines + [line] + [""] == lines + [line, ""];
    }
  }

  /** The header block is its lines, each ended by a newline. */
  lemma {:induction false} BlockIsJoinedLines(entries: seq<Entry>)
    ensures EntryBlock(entries) == Join(LineTexts(entries) + [""], '\n')
  {
    hide Join;
    if entries == [] {
      JoinOne("", '\n');
      assert LineTexts(entries) + [""] == [""];
    } else {
      var init, e := entries[..|entries| - 1], entries[|entries| - 1];
      BlockIsJoinedLines(init);
      JoinEndsBlank(LineTexts(init), LineText(e), '\n');
      assert LineTexts(entries) == LineTexts(init) + [LineText(e)];
    }
  }

  lemma JoinOne(a: string, sep: char)
    ensures Join([a], sep) == a
  {}

  function Lines(c: CanonicalRequest): seq<string> {
    [c.httpMethod, c.uri, c.query]
    + (LineTexts(c.headers) + [""])
    + [Join(EntryNames(c.headers), ';'), c.payloadHash]
  }

  lemma JoinThree(a: string, b: string, c: string, sep: char)
    ensures Join([a, b, c], sep) == a + [sep] + b + [sep] + c
  {
    JoinTwo(b, c, sep);
    JoinConcat([a], [b, c], sep);
    assert [a] + [b, c] == [a, b, c];
  }

  lemma PrintIsLines(c: CanonicalRequest)
    ensures Print(c) == Join(Lines(c), '\n')
  {
    hide EntryBlock, EntryNames, LineTexts;
    var head, block := [c.httpMethod, c.uri, c.query], LineTexts(c.headers) + [""];
    var names := Join(EntryNames(c.headers), ';');
    BlockIsJoinedLines(c.headers);
    JoinConcat(head, block, '\n');
    JoinConcat(head + block, [names, c.payloadHash], '\n');
    JoinConcat(head, [EntryBlock(c.headers), names, c.payloadHash], '\n');
    JoinThree(EntryBlock(c.headers), names, c.payloadHash, '\n');
    JoinTwo(names, c.payloadHash, '\n');
    assert head + [EntryBlock(c.headers), names, c.payloadHash]
      == [c.httpMethod, c.uri, c.query, EntryBlock(c.headers), names, c.payloadHash];
  }

  lemma LinesAreFree(c: CanonicalRequest)
    requires Clean(c)
    ensures AllFree(Lines(c), '\n')
  {
    JoinIsFree(EntryNames(c.headers), ';', '\n');
    forall i | 0 <= i < |c.headers| ensures Free(LineText(c.headers[i]), '\n') {
    }
  }

  /** Every canonical request is read back from its own text. */
  lemma ParseUndoesPrint(c: CanonicalRequest)
    requires Clean(c)
    ensures Parse(Print(c)) == Some(c)
  {
    hide LineTexts, EntryNames, ParseBlock, EntryBlock;
    PrintIsLines(c);
    LinesAreFree(c);
    SplitUndoesJoin(Lines(c), '\n');
    var rest := [Join(EntryNames(c.headers), ';'), c.payloadHash];
    assert Lines(c)[3..] == LineTexts(c.headers) + [""] + rest;
    ParseBlockUndoes(c.headers, rest);
  }

  /** Different canonical requests never print alike. */
  lemma PrintIsUnambiguous(c: CanonicalRequest, c': CanonicalRequest)
    requires Clean(c) && Clean(c') && Print(c) == Print(c')
    ensures c == c'
  {
    ParseUndoesPrint(c);
    ParseUndoesPrint(c');
  }

  // ------------------------------------------------- what Sign prints

  function EntriesOf(names: seq<string>, values: map<string, string>): seq<Entry>
    requires forall n | n in names :: n in values
  {
    seq(|names|, i requires 0 <= i < |names| => Entry(names[i], values[names[i]]))
  }

  lemma {:induction false} BlockIsEntryBlock(names: seq<string>, values: map<string, string>)
    requires forall n | n in names :: n in values
    ensures Block(names, values) == EntryBlock(EntriesOf(names, values))
    ensures EntryNames(EntriesOf(names, values)) == names
  {
    if names != [] {
      BlockIsEntryBlock(names[..|names| - 1], values);
      var entries := EntriesOf(names, values);
      assert entries[..|entries| - 1] == EntriesOf(names[..|names| - 1], values);
    }
  }

  /** The signed headers of a request: name and canonical value, in the order of the names. */
  ghost function SignedEntries(host: string, h: Header, order: seq<string>): seq<Entry>
    requires Covered(h, order)
  {
    NamesHaveValues(host, h, order);
    EntriesOf(Sort(Names(order)), Values(host, h, order))
  }

  /** The text Sign hashes is the printed form of the request's own parts. */
  lemma SignPrintsItsParts(prim: Primitives, s: Subject, h: Header, order: seq<string>)
    requires Covered(h, order)
    ensures CanonicalText(s.httpMethod, CanonicalURI(s.escapedPath), CanonicalQuery(s.rawQuery),
                          CanonicalFor(s.host, h, order), prim.hexSha256(s.payload))
      == Print(CanonicalRequest(s.httpMethod, CanonicalURI(s.escapedPath), CanonicalQuery(s.rawQuery),
                                SignedEntries(s.host, h, order), prim.hexSha256(s.payload)))
  {
    NamesHaveValues(s.host, h, order);
    BlockIsEntryBlock(Sort(Names(order)), Values(s.host, h, order));
  }

  /** Header names that HTTP allows, values without line breaks, and a host without them. */
  ghost predicate PlainHeader(host: string, h: Header) {
    && Free(host, '\n')
    && forall k | k in h :: Free(k, ':') && Free(k, '\n') && AllFree(h[k], '\n')
  }

  lemma {:induction false} ValuesArePlain(host: string, h: Header, order: seq<string>)
    requires Covered(h, order) && PlainHeader(host, h)
    ensures forall n | n in Values(host, h, order) ::
      Free(n, ':') && Free(n, '\n') && Free(Values(host, h, order)[n], '\n')
  {
    if order != [] {
      var name := order[|order| - 1];
      ValuesArePlain(host, h, order[..|order| - 1]);
      JoinIsFree(h[name], ',', '\n');
      LowerKeepsPlain(name);
    } else {
      assert Free("host", ':') && Free("host", '\n');
    }
  }

  lemma LowerKeepsPlain(name: string)
    requires Free(name, ':') && Free(name, '\n')
    ensures Free(Lower(name), ':') && Free(Lower(name), '\n')
  {
    forall i | 0 <= i < |name| ensures Lower(name)[i] != ':' && Lower(name)[i] != '\n' {
      assert name[i] in name;
    }
  }

  /**
    Two requests whose signatures hash the same text are the same request as far
    as SigV4 sees it: method, path, query parts counted, signed headers and
    payload hash.
   */
  lemma SameTextSameRequest(prim: Primitives, s: Subject, s': Subject, h: Header, h': Header,
                            order: seq<string>, order': seq<string>)
    requires Covered(h, order) && Covered(h', order') && PlainHeader(s.host, h) && PlainHeader(s'.host, h')
    requires PlainSubject(prim, s) && PlainSubject(prim, s')
    requires CanonicalText(s.httpMethod, CanonicalURI(s.escapedPath), CanonicalQuery(s.rawQuery),
                           CanonicalFor(s.host, h, order), prim.hexSha256(s.payload))
      == CanonicalText(s'.httpMethod, CanonicalURI(s'.escapedPath), CanonicalQuery(s'.rawQuery),
                       CanonicalFor(s'.host, h', order'), prim.hexSha256(s'.payload))
    ensures s.httpMethod == s'.httpMethod && CanonicalURI(s.escapedPath) == CanonicalURI(s'.escapedPath)
    ensures multiset(Split(s.rawQuery, '&')) == multiset(Split(s'.rawQuery, '&'))
    ensures SignedEntries(s.host, h, order) == SignedEntries(s'.host, h', order')
    ensures prim.hexSha256(s.payload) == prim.hexSha256(s'.payload)
  {
    hide Print, CanonicalText, CanonicalURI, CanonicalQuery, Values, Names, CanonicalFor, PlainHeader, PlainSubject;
    SignPrintsItsParts(prim, s, h, order);
    SignPrintsItsParts(prim, s', h', order');
    PartsAreClean(prim, s, h, order);
    PartsAreClean(prim, s', h', order');
    PrintIsUnambiguous(PartsOf(prim, s, h, order), PartsOf(prim, s', h', order'));
    QueriesAlikeIffSameParts(s.rawQuery, s'.rawQuery);
  }

  ghost predicate PlainSubject(prim: Primitives, s: Subject) {
    && Free(s.httpMethod, '\n') && Free(s.escapedPath, '\n') && Free(s.rawQuery, '\n')
    && Free(prim.hexSha256(s.payload), '\n')
  }

  ghost function PartsOf(prim: Primitives, s: Subject, h: Header, order: seq<string>): CanonicalRequest
    requires Covered(h, order)
  {
    CanonicalRequest(s.httpMethod, CanonicalURI(s.escapedPath), CanonicalQuery(s.rawQuery),
                     SignedEntries(s.host, h, order), prim.hexSha256(s.payload))
  }

  lemma PartsAreClean(prim: Primitives, s: Subject, h: Header, order: seq<string>)
    requires Covered(h, order) && PlainHeader(s.host, h) && PlainSubject(prim, s)
    ensures Clean(PartsOf(prim, s, h, order))
  {
    ValuesArePlain(s.host, h, order);
    NamesHaveValues(s.host, h, order);
    assert Free("/", '\n');
    QueryStaysPlain(s.rawQuery);
    var names := Sort(Names(order));
    forall i | 0 <= i < |names| ensures CleanEntry(SignedEntries(s.host, h, order)[i]) {
      assert names[i] in names;
    }
  }

  lemma {:induction false} JoinedPartsAreFree(parts: seq<string>, sep: char, c: char)
    requires Free(Join(parts, sep), c)
    ensures AllFree(parts, c)
  {
    if |parts| > 1 {
      var tail := Join(parts[1..], sep);
      forall x | x in parts[0] || x in tail ensures x in parts[0] + [sep] + tail {}
      JoinedPartsAreFree(parts[1..], sep, c);
      assert parts == [parts[0]] + parts[1..];
    }
  }

  lemma QueryStaysPlain(q: string)
    requires Free(q, '\n')
    ensures Free(CanonicalQuery(q), '\n')
  {
    var parts := Split(q, '&');
    JoinUndoesSplit(q, '&');
    JoinedPartsAreFree(parts, '&', '\n');
    SortSorts(parts);
    forall i | 0 <= i < |parts| ensures Free(Sort(parts)[i], '\n') {
      assert Sort(parts)[i] in multiset(parts);
    }
    JoinIsFree(Sort(parts), '&', '\n');
  }
}
