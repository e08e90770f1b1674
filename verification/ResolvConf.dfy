/** Reading and writing resolv.conf. An address is represented by its canonical text; `parse` stands
    for the address parser of the library, which is a parameter here. */
module ResolvConf {
  import opened Common
  import opened Text

  type AddrParser = string -> Option<string>

  /** Canonical text of an address, free of white space. */
  predicate Address(parse: AddrParser, a: string) {
    Token(a) && parse(a) == Some(a)
  }

  /** Parsing a token yields an address that prints and parses back to itself. */
  ghost predicate Lawful(parse: AddrParser) {
    forall t :: Token(t) && parse(t).Some? ==> Address(parse, parse(t).value)
  }

  predicate Addresses(parse: AddrParser, servers: seq<string>) {
    forall i :: 0 <= i < |servers| ==> Address(parse, servers[i])
  }

  const KEYWORD := "nameserver "
  const HEADER := "# Generated by penguin squawk module"

  /** The address a line of the file names, if it names one. */
  function LineServer(parse: AddrParser, line: string): Option<string> {
    var t := TrimSpace(line);
    if KEYWORD <= t then
      var parts := Fields(t);
      if |parts| > 1 then parse(parts[1]) else None
    else None
  }

  function LinesServers(parse: AddrParser, lines: seq<string>): seq<string> {
    if lines == [] then []
    else
      var front := LinesServers(parse, lines[..|lines| - 1]);
      match LineServer(parse, lines[|lines| - 1])
      case None => front
      case Some(a) => front + [a]
  }

  function Servers(parse: AddrParser, content: string): seq<string> {
    LinesServers(parse, Split(content, '\n'))
  }

  /** The current servers: an error for a missing file or one that names none. */
  function Current(parse: AddrParser, conf: Option<string>): Option<seq<string>> {
    match conf
    case None => None
    case Some(content) =>
      var servers := Servers(parse, content);
      if servers == [] then None else Some(servers)
  }

  function ServerLines(servers: seq<string>): seq<string> {
    seq(|servers|, i requires 0 <= i < |servers| => KEYWORD + servers[i])
  }

  /** The file written for a list of servers. */
  function Rendered(servers: seq<string>): string {
    Join([HEADER] + ServerLines(servers) + [""], '\n')
  }

  // ---- Parsing what was printed ----

  lemma {:induction false} TrimRightHead(s: string)
    requires s != [] && !IsSpace(s[0])
    ensures TrimRight(s) != [] && TrimRight(s)[0] == s[0]
  {
    if IsSpace(s[|s| - 1]) {
      TrimRightHead(s[..|s| - 1]);
    }
  }

  /** A line that starts with something other than the keyword's first letter names no server. */
  lemma OtherLine(parse: AddrParser, line: string)
    requires line != [] && !IsSpace(line[0]) && line[0] != 'n'
    ensures LineServer(parse, line) == None
  {
    TrimRightHead(line);
    assert KEYWORD[0] == 'n';
  }

  lemma HeaderOneLine()
    ensures HEADER != [] && HEADER[0] == '#' && '\n' !in HEADER
  {
  }

  lemma ServerLine(parse: AddrParser, a: string)
    requires Address(parse, a)
    ensures LineServer(parse, KEYWORD + a) == Some(a) && '\n' !in KEYWORD + a
  {
    var line := KEYWORD + a;
    assert line[|line| - 1] == a[|a| - 1] && a[|a| - 1] in a;
    assert line[0] == 'n';
    assert TrimSpace(line) == line;
    assert line == "nameserver" + " " + a;
    FieldsOfTwo("nameserver", a);
  }

  lemma LinesServersSnoc(parse: AddrParser, lines: seq<string>, line: string)
    ensures LinesServers(parse, lines + [line])
         == LinesServers(parse, lines)
            + (match LineServer(parse, line) case None => [] case Some(a) => [a])
  {
  }

  lemma ServerLinesSnoc(servers: seq<string>)
    requires servers != []
    ensures ServerLines(servers) == ServerLines(servers[..|servers| - 1]) + [KEYWORD + servers[|servers| - 1]]
  {
  }

  lemma HeaderNamesNobody(parse: AddrParser)
    ensures LinesServers(parse, [HEADER]) == []
  {
    HeaderOneLine();
    OtherLine(parse, HEADER);
    assert [HEADER][..0] == [];
  }

  /** The lines are read one by one. */
  lemma {:induction false} LinesServersConcat(parse: AddrParser, a: seq<string>, b: seq<string>)
    ensures LinesServers(parse, a + b) == LinesServers(parse, a) + LinesServers(parse, b)
  {
    if b == [] {
      assert a + b == a;
    } else {
      assert (a + b)[..|a + b| - 1] == a + b[..|b| - 1];
      LinesServersConcat(parse, a, b[..|b| - 1]);
    }
  }

  lemma {:induction false} ServerLinesParse(parse: AddrParser, servers: seq<string>)
    requires Addresses(parse, servers)
    ensures LinesServers(parse, ServerLines(servers)) == servers
  {
    if servers != [] {
      var front, a := servers[..|servers| - 1], servers[|servers| - 1];
      ServerLinesParse(parse, front);
      assert Address(parse, a);
      ServerLine(parse, a);
      ServerLinesSnoc(servers);
      LinesServersSnoc(parse, ServerLines(front), KEYWORD + a);
    }
  }

  lemma RenderedLines(parse: AddrParser, servers: seq<string>)
    requires Addresses(parse, servers)
    ensures forall l :: l in [HEADER] + ServerLines(servers) + [""] ==> '\n' !in l
  {
  }

  /** Reading a file just written gives the servers back, in order. */
  lemma RenderedRoundTrip(parse: AddrParser, servers: seq<string>)
    requires Addresses(parse, servers)
    ensures Servers(parse, Rendered(servers)) == servers
    ensures Current(parse, Some(Rendered(servers))) == if servers == [] then None else Some(servers)
  {
    var lines := [HEADER] + ServerLines(servers);
    HeaderNamesNobody(parse);
    ServerLinesParse(parse, servers);
    LinesServersConcat(parse, [HEADER], ServerLines(servers));
    RenderedLines(parse, servers);
    SplitJoin(lines + [""], '\n');
    LinesServersSnoc(parse, lines, "");
    assert LineServer(parse, "") == None;
  }

  /** Every field is a token. */
  lemma {:induction false} FieldsAreTokens(s: string)
    ensures forall f :: f in Fields(s) ==> Token(f)
    decreases |s|
  {
    if s != [] {
      if IsSpace(s[0]) {
        FieldsAreTokens(s[1..]);
      } else {
        WordIsToken(s);
        FieldsAreTokens(s[WordLength(s)..]);
      }
    }
  }

  /** What the reader returns are addresses. */
  lemma {:induction false} LinesServersAreAddresses(parse: AddrParser, lines: seq<string>)
    requires Lawful(parse)
    ensures Addresses(parse, LinesServers(parse, lines))
  {
    if lines != [] {
      LinesServersAreAddresses(parse, lines[..|lines| - 1]);
      FieldsAreTokens(TrimSpace(lines[|lines| - 1]));
    }
  }

  // ---- Which lines name a server ----

  /** White space, the keyword and one blank, any white space, the field, and nothing or white space and
      anything. */
  predicate Shaped(line: string, lead: string, gap: string, field: string, tail: string) {
    && line == lead + (KEYWORD + gap + field + tail)
    && AllSpace(lead) && AllSpace(gap) && Token(field) && Apart(tail)
  }

  ghost predicate NamesField(line: string, field: string) {
    exists lead, gap, tail :: Shaped(line, lead, gap, field, tail)
  }

  lemma FieldsOfLine(gap: string, field: string, tail: string)
    requires AllSpace(gap) && Token(field) && Apart(tail)
    ensures
      var parts := Fields(KEYWORD + gap + field + tail);
      |parts| > 1 && parts[1] == field
  {
    assert KEYWORD + gap + field + tail == "nameserver" + (" " + gap + (field + tail));
    FieldsToken("nameserver", " " + gap + (field + tail));
    FieldsSkip(" " + gap, field + tail);
    FieldsToken(field, tail);
  }

  lemma ShapedLine(parse: AddrParser, line: string, lead: string, gap: string, field: string, tail: string)
    requires Shaped(line, lead, gap, field, tail)
    ensures LineServer(parse, line) == parse(field)
  {
    var head := KEYWORD + gap + field;
    assert head[|head| - 1] == field[|field| - 1] && field[|field| - 1] in field;
    assert head[0] == 'n';
    TrimLeftOf(lead, head + tail);
    TrimRightOf(head, tail);
    FieldsOfLine(gap, field, TrimRight(tail));
    assert KEYWORD <= head + TrimRight(tail);
  }

  /** Where the second field of a line stands that starts with the keyword. */
  lemma SecondField(t: string) returns (gap: string, end: string)
    requires KEYWORD <= t && |Fields(t)| > 1
    ensures AllSpace(gap) && Token(Fields(t)[1]) && Apart(end) && t == KEYWORD + gap + Fields(t)[1] + end
  {
    var rest := t[|"nameserver"|..];
    assert t == "nameserver" + rest && rest[0] == ' ';
    FieldsToken("nameserver", rest);
    var wide;
    wide, end := FirstField(rest);
    var field := Fields(rest)[0];
    StartsWithGap(rest, wide, field, end);
    gap := wide[1..];
    Regroup(t, rest, wide, field, end);
  }

  lemma Regroup(t: string, rest: string, wide: string, field: string, end: string)
    requires t == "nameserver" + rest && rest == wide + field + end && wide != [] && wide[0] == ' '
    ensures t == KEYWORD + wide[1..] + field + end
  {
    assert wide == " " + wide[1..];
    assert KEYWORD + wide[1..] == "nameserver" + wide;
  }

  lemma StartsWithGap(s: string, gap: string, field: string, end: string)
    requires s == gap + field + end && Token(field)
    ensures if gap == [] then !IsSpace(s[0]) else s[0] == gap[0]
  {
    assert field[0] in field;
  }

  lemma LineIsShaped(parse: AddrParser, line: string) returns (lead: string, gap: string, field: string, tail: string)
    requires LineServer(parse, line).Some?
    ensures Shaped(line, lead, gap, field, tail) && LineServer(parse, line) == parse(field)
  {
    lead := TrimLeftSplit(line);
    var trail := TrimRightSplit(TrimLeft(line));
    var t := TrimSpace(line);
    var end;
    gap, end := SecondField(t);
    field, tail := Fields(t)[1], end + trail;
    assert line == lead + (t + trail);
    ShapedWithTrail(line, lead, gap, field, end, trail);
  }

  lemma ShapedWithTrail(line: string, lead: string, gap: string, field: string, end: string, trail: string)
    requires line == lead + (KEYWORD + gap + field + end + trail) && AllSpace(trail)
    requires AllSpace(lead) && AllSpace(gap) && Token(field) && Apart(end)
    ensures Shaped(line, lead, gap, field, end + trail)
  {
    assert trail == [] || trail[0] in trail;
    assert KEYWORD + gap + field + end + trail == KEYWORD + gap + field + (end + trail);
  }

  /** A line names a server exactly when it has that shape, with a field that parses: indented lines and
      trailing remarks are accepted, a tab right after the keyword is not. */
  lemma LineServerIff(parse: AddrParser, line: string, a: string)
    ensures LineServer(parse, line) == Some(a) <==> exists field :: NamesField(line, field) && parse(field) == Some(a)
  {
    if LineServer(parse, line) == Some(a) {
      var lead, gap, field, tail := LineIsShaped(parse, line);
      assert NamesField(line, field);
    }
    forall field | NamesField(line, field) && parse(field) == Some(a)
      ensures LineServer(parse, line) == Some(a)
    {
      var lead, gap, tail :| Shaped(line, lead, gap, field, tail);
      ShapedLine(parse, line, lead, gap, field, tail);
    }
  }

  /** The file for one server, character for character. */
  lemma RenderedOne(server: string)
    ensures Rendered([server]) == "# Generated by penguin squawk module\nnameserver " + server + "\n"
  {
    var lines := [HEADER] + ServerLines([server]) + [""];
    assert lines == [HEADER, KEYWORD + server, ""];
    var rest := [KEYWORD + server, ""];
    assert lines[1..] == rest && rest[1..] == [""];
    assert Join([""], '\n') == "";
    assert Join(rest, '\n') == KEYWORD + server + "\n";
    assert Join(lines, '\n') == HEADER + "\n" + (KEYWORD + server + "\n");
  }

  // ---- The loops ----

  method ReadServers(parse: AddrParser, content: string) returns (servers: seq<string>)
    ensures servers == Servers(parse, content)
  {
    var lines := Split(content, '\n');
    servers := [];
    for i := 0 to |lines|
      invariant servers == LinesServers(parse, lines[..i])
    {
      assert lines[..i + 1][..i] == lines[..i];
      var line := TrimSpace(lines[i]);
      if KEYWORD <= line {
        var parts := Fields(line);
        if |parts| > 1 {
          var addr := parse(parts[1]);
          if addr.Some? {
            servers := servers + [addr.value];
          }
        }
      }
    }
    assert lines[..|lines|] == lines;
  }

  method WriteServers(servers: seq<string>) returns (content: string)
    ensures content == Rendered(servers)
  {
    var lines := [HEADER];
    for i := 0 to |servers|
      invariant lines == [HEADER] + ServerLines(servers[..i])
    {
      lines := lines + [KEYWORD + servers[i]];
      assert ServerLines(servers[..i + 1]) == ServerLines(servers[..i]) + [KEYWORD + servers[i]];
    }
    assert servers[..|servers|] == servers;
    content := Join(lines + [""], '\n');
  }
}
