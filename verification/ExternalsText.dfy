/**
 The text file of external marks and rules: one tab-separated line each, with
 comments and blank lines ignored and anything unrecognized skipped.
 */
module ExternalsText {
  import opened Wrappers
  import opened Strings

  datatype Mark = Mark(usr: string, external: bool, decidedAt: string)
  datatype Rule = Rule(id: int, pattern: string, createdAt: string)
  datatype FileMark = FileMark(file: string, decidedAt: string)
  datatype Data = Data(marks: seq<Mark>, nameRules: seq<Rule>, pathRules: seq<Rule>, fileMarks: seq<FileMark>)

  const NOTHING := Data([], [], [], [])

  /** What the file opens with: comment lines, whatever they say. */
  type Header = lines: seq<string> | forall i | 0 <= i < |lines| :: Comment(lines[i]) && StableLine(lines[i]) witness []

  predicate Comment(line: string) {
    line != "" && line[0] == '#'
  }

  /** A line that survives being written and split off again. */
  predicate StableLine(line: string) {
    '\n' !in line && WithoutCr(line) == line
  }

  // ----- pieces of text -----

  predicate IsSpace(c: char) {
    || '\U{9}' <= c <= '\U{d}' || c == ' ' || c == '\U{85}' || c == '\U{a0}' || c == '\U{1680}'
    || '\U{2000}' <= c <= '\U{200a}' || c == '\U{2028}' || c == '\U{2029}' || c == '\U{202f}' || c == '\U{205f}'
        || c == '\U{3000}'
  }

  function TrimStart(s: string): string {
    if s != "" && IsSpace(s[0]) then TrimStart(s[1..]) else s
  }

  function TrimEnd(s: string): string {
    if s != "" && IsSpace(s[|s| - 1]) then TrimEnd(s[..|s| - 1]) else s
  }

  function Trim(s: string): string {
    TrimEnd(TrimStart(s))
  }

  function Split(s: string, sep: char): (pieces: seq<string>)
    ensures pieces != []
    ensures forall i | 0 <= i < |pieces| :: sep !in pieces[i]
  {
    if s == "" then [""]
    else
      var rest := Split(s[1..], sep);
      if s[0] == sep then [""] + rest else [[s[0]] + rest[0]] + rest[1..]
  }

  function WithoutCr(line: string): string {
    if line != "" && line[|line| - 1] == '\r' then line[..|line| - 1] else line
  }

  function WithoutCrs(lines: seq<string>): (r: seq<string>)
    ensures |r| == |lines| && forall i | 0 <= i < |lines| :: r[i] == WithoutCr(lines[i])
  {
    seq(|lines|, i requires 0 <= i < |lines| => WithoutCr(lines[i]))
  }

  /** A final line break does not start another line. */
  function Lines(s: string): seq<string> {
    var pieces := Split(s, '\n');
    WithoutCrs(if pieces[|pieces| - 1] == "" then pieces[..|pieces| - 1] else pieces)
  }

  function Unlines(lines: seq<string>): string {
    if lines == [] then "" else lines[0] + "\n" + Unlines(lines[1..])
  }

  lemma {:induction false} SplitWhole(s: string, sep: char)
    requires sep !in s
    ensures Split(s, sep) == [s]
    decreases |s|
  {
    if s != "" {
      SplitWhole(s[1..], sep);
      assert s == [s[0]] + s[1..];
    }
  }

  lemma {:induction false} SplitAt(a: string, sep: char, b: string)
    ensures Split(a + [sep] + b, sep) == Split(a, sep) + Split(b, sep)
    decreases |a|
  {
    if a == "" {
      assert ("" + [sep] + b)[1..] == b;
    } else {
      assert (a + [sep] + b)[1..] == a[1..] + [sep] + b;
      SplitAt(a[1..], sep, b);
    }
  }

  lemma {:induction false} SplitUnlines(lines: seq<string>)
    requires forall i | 0 <= i < |lines| :: '\n' !in lines[i]
    ensures Split(Unlines(lines), '\n') == lines + [""]
    decreases |lines|
  {
    if lines != [] {
      var l := lines[0];
      SplitAt(l, '\n', Unlines(lines[1..]));
      assert l + "\n" + Unlines(lines[1..]) == l + ['\n'] + Unlines(lines[1..]);
      SplitWhole(l, '\n');
      SplitUnlines(lines[1..]);
      assert lines == [l] + lines[1..];
    }
  }

  lemma LinesOfUnlines(lines: seq<string>)
    requires forall i | 0 <= i < |lines| :: '\n' !in lines[i]
    ensures Lines(Unlines(lines)) == WithoutCrs(lines)
  {
    SplitUnlines(lines);
    assert (lines + [""])[..|lines|] == lines;
  }

  lemma {:induction false} TrimmedEnds(s: string)
    ensures var t := Trim(s); t != "" ==> !IsSpace(t[0]) && !IsSpace(t[|t| - 1])
  {
    TrimEndKeepsStart(TrimStart(s));
    TrimStartStarts(s);
    TrimEndEnds(TrimStart(s));
  }

  lemma TrimStartStarts(s: string)
    ensures TrimStart(s) != "" ==> !IsSpace(TrimStart(s)[0])
  {
  }

  lemma TrimEndEnds(s: string)
    ensures TrimEnd(s) != "" ==> !IsSpace(TrimEnd(s)[|TrimEnd(s)| - 1])
  {
  }

  lemma TrimEndKeepsStart(s: string)
    ensures TrimEnd(s) != "" ==> s != "" && TrimEnd(s)[0] == s[0]
  {
  }

  // ----- integers -----

  const I64_MIN: int := -0x8000_0000_0000_0000
  const I64_MAX: int := 0x7fff_ffff_ffff_ffff

  function ParseInt(s: string): Option<int> {
    var negative := s != "" && s[0] == '-';
    var digits := if s != "" && (s[0] == '-' || s[0] == '+') then s[1..] else s;
    if digits == "" || !AllDigits(digits) then None
    else
      var magnitude: int := NumeralValue(digits);
      var value := if negative then -magnitude else magnitude;
      if I64_MIN <= value <= I64_MAX then Some(value) else None
  }

  function ShowInt(i: int): string {
    if i < 0 then "-" + Numeral(-i) else Numeral(i)
  }

  lemma IntRoundTrip(i: int)
    requires I64_MIN <= i <= I64_MAX
    ensures ParseInt(ShowInt(i)) == Some(i)
  {
    NumeralRoundTrip(if i < 0 then -i else i);
    if i < 0 {
      assert ("-" + Numeral(-i))[1..] == Numeral(-i);
    } else {
      assert IsDigit(Numeral(i)[0]);
    }
  }

  lemma ShownIntIsPlain(i: int)
    ensures '\t' !in ShowInt(i) && '\n' !in ShowInt(i)
  {
    var n := Numeral(if i < 0 then -i else i);
    assert AllDigits(n);
  }

  // ----- reading -----

  function ParseFields(data: Data, fields: seq<string>): Data {
    if |fields| == 4 && fields[0] == "mark" && fields[1] == "include" then
      data.(marks := data.marks + [Mark(fields[2], true, fields[3])])
    else if |fields| == 4 && fields[0] == "mark" && fields[1] == "exclude" then
      data.(marks := data.marks + [Mark(fields[2], false, fields[3])])
    else if |fields| == 4 && fields[0] == "name_regex" then
      (match ParseInt(fields[1])
       case None => data
       case Some(id) => data.(nameRules := data.nameRules + [Rule(id, fields[2], fields[3])]))
    else if |fields| == 4 && fields[0] == "path_regex" then
      (match ParseInt(fields[1])
       case None => data
       case Some(id) => data.(pathRules := data.pathRules + [Rule(id, fields[2], fields[3])]))
    else if |fields| == 3 && fields[0] == "file" then
      data.(fileMarks := data.fileMarks + [FileMark(fields[1], fields[2])])
    else data
  }

  function ParseLine(data: Data, line: string): Data {
    var t := Trim(line);
    if t == "" || t[0] == '#' then data else ParseFields(data, Split(t, '\t'))
  }

  type Parser = (Data, string) -> Data

  function ParseLines(parse: Parser, data: Data, lines: seq<string>): Data
    decreases |lines|
  {
    if lines == [] then data else ParseLines(parse, parse(data, lines[0]), lines[1..])
  }

  function Parse(contents: string): Data {
    ParseLines(ParseLine, NOTHING, Lines(contents))
  }

  method ParseText(contents: string) returns (data: Data)
    ensures data == Parse(contents)
  {
    data := NOTHING;
    var lines := Lines(contents);
    for i := 0 to |lines|
      invariant ParseLines(ParseLine, data, lines[i..]) == Parse(contents)
    {
      assert lines[i..][0] == lines[i] && lines[i..][1..] == lines[i + 1..];
      var line := Trim(lines[i]);
      if line == "" || line[0] == '#' {
        continue;
      }
      data := ParseFields(data, Split(line, '\t'));
    }
    assert lines[|lines|..] == [];
  }

  // ----- writing -----

  function MarkLine(m: Mark): string {
    "mark" + "\t" + MarkKind(m.external) + "\t" + m.usr + "\t" + m.decidedAt
  }

  function RuleKind(ofNames: bool): string {
    if ofNames then "name_regex" else "path_regex"
  }

  function RuleLine(ofNames: bool, r: Rule): string {
    RuleKind(ofNames) + "\t" + ShowInt(r.id) + "\t" + r.pattern + "\t" + r.createdAt
  }

  function FileLine(m: FileMark): string {
    "file" + "\t" + m.file + "\t" + m.decidedAt
  }

  function LinesOf<T>(line: T -> string, xs: seq<T>): seq<string> {
    if xs == [] then [] else [line(xs[0])] + LinesOf(line, xs[1..])
  }

  function NameLine(r: Rule): string { RuleLine(true, r) }
  function PathLine(r: Rule): string { RuleLine(false, r) }

  function DataLines(d: Data): seq<string> {
    LinesOf(MarkLine, d.marks) + LinesOf(NameLine, d.nameRules) + LinesOf(PathLine, d.pathRules)
        + LinesOf(FileLine, d.fileMarks)
  }

  function Serialize(header: Header, d: Data): string {
    Unlines(header + DataLines(d))
  }

  // ----- which data survives -----

  predicate Plain(s: string) {
    '\t' !in s && '\n' !in s
  }

  /** A field that ends its line. */
  predicate PlainLast(s: string) {
    Plain(s) && s != "" && !IsSpace(s[|s| - 1])
  }

  predicate CleanMark(m: Mark) { Plain(m.usr) && PlainLast(m.decidedAt) }
  predicate CleanRule(r: Rule) { I64_MIN <= r.id <= I64_MAX && Plain(r.pattern) && PlainLast(r.createdAt) }
  predicate CleanFile(m: FileMark) { Plain(m.file) && PlainLast(m.decidedAt) }

  predicate Clean(d: Data) {
    && (forall i | 0 <= i < |d.marks| :: CleanMark(d.marks[i]))
    && (forall i | 0 <= i < |d.nameRules| :: CleanRule(d.nameRules[i]))
    && (forall i | 0 <= i < |d.pathRules| :: CleanRule(d.pathRules[i]))
    && (forall i | 0 <= i < |d.fileMarks| :: CleanFile(d.fileMarks[i]))
  }

  lemma {:induction false} NotInSplit(s: string, sep: char, c: char, i: nat)
    requires c !in s && i < |Split(s, sep)|
    ensures c !in Split(s, sep)[i]
    decreases |s|
  {
    if s != "" {
      var rest := Split(s[1..], sep);
      if s[0] == sep {
        if i > 0 { NotInSplit(s[1..], sep, c, i - 1); }
      } else {
        NotInSplit(s[1..], sep, c, i);
      }
    }
  }

  lemma {:induction false} LastOfSplit(s: string, sep: char)
    requires s != "" && s[|s| - 1] != sep
    ensures var p := Split(s, sep); p[|p| - 1] != "" && p[|p| - 1][|p[|p| - 1]| - 1] == s[|s| - 1]
    decreases |s|
  {
    if |s| > 1 {
      LastOfSplit(s[1..], sep);
    } else {
      assert s[1..] == "";
    }
  }

  lemma {:induction false} NotInTrim(s: string, c: char)
    requires c !in s
    ensures c !in Trim(s)
  {
    NotInTrimStart(s, c);
    NotInTrimEnd(TrimStart(s), c);
  }

  lemma NotInTrimStart(s: string, c: char)
    requires c !in s
    ensures c !in TrimStart(s)
  {
  }

  lemma NotInTrimEnd(s: string, c: char)
    requires c !in s
    ensures c !in TrimEnd(s)
  {
  }

  lemma ParsedFieldsAreClean(data: Data, fields: seq<string>)
    requires Clean(data) && fields != [] && forall i | 0 <= i < |fields| :: Plain(fields[i])
    requires PlainLast(fields[|fields| - 1])
    ensures Clean(ParseFields(data, fields))
  {
  }

  lemma ParsedLineIsClean(data: Data, line: string)
    requires Clean(data) && '\n' !in line
    ensures Clean(ParseLine(data, line))
  {
    var t := Trim(line);
    TrimmedEnds(line);
    NotInTrim(line, '\n');
    if t != "" {
      var fields := Split(t, '\t');
      forall i | 0 <= i < |fields| ensures Plain(fields[i]) { NotInSplit(t, '\t', '\n', i); }
      LastOfSplit(t, '\t');
      ParsedFieldsAreClean(data, fields);
    }
  }

  lemma {:induction false} ParsedLinesAreClean(data: Data, lines: seq<string>)
    requires Clean(data) && forall i | 0 <= i < |lines| :: '\n' !in lines[i]
    ensures Clean(ParseLines(ParseLine, data, lines))
    decreases |lines|
  {
    if lines != [] {
      ParsedLineIsClean(data, lines[0]);
      ParsedLinesAreClean(ParseLine(data, lines[0]), lines[1..]);
    }
  }

  /** Whatever the text, what is read from it can be written and read again. */
  lemma ParsedIsClean(contents: string)
    ensures Clean(Parse(contents))
  {
    ParsedLinesAreClean(NOTHING, Lines(contents));
  }

  // ----- the round trip -----

  lemma SplitFields(a: string, b: string)
    requires '\t' !in a
    ensures Split(a + "\t" + b, '\t') == [a] + Split(b, '\t')
  {
    SplitAt(a, '\t', b);
    SplitWhole(a, '\t');
    assert a + "\t" + b == a + ['\t'] + b;
  }

  lemma Split4(a: string, b: string, c: string, d: string)
    requires Plain(a) && Plain(b) && Plain(c) && Plain(d)
    ensures Split(a + "\t" + b + "\t" + c + "\t" + d, '\t') == [a, b, c, d]
  {
    SplitWhole(d, '\t');
    SplitFields(c, d);
    SplitFields(b, c + "\t" + d);
    SplitFields(a, b + "\t" + (c + "\t" + d));
    assert a + "\t" + b + "\t" + c + "\t" + d == a + "\t" + (b + "\t" + (c + "\t" + d));
  }

  lemma Split3(a: string, b: string, c: string)
    requires Plain(a) && Plain(b) && Plain(c)
    ensures Split(a + "\t" + b + "\t" + c, '\t') == [a, b, c]
  {
    SplitWhole(c, '\t');
    SplitFields(b, c);
    SplitFields(a, b + "\t" + c);
    assert a + "\t" + b + "\t" + c == a + "\t" + (b + "\t" + c);
  }

  /** A line that starts with a letter and ends with its last field is read as it stands. */
  lemma TightLine(line: string, data: Data)
    requires line != "" && 'a' <= line[0] <= 'z' && !IsSpace(line[|line| - 1])
    ensures Trim(line) == line && WithoutCr(line) == line
    ensures ParseLine(data, line) == ParseFields(data, Split(line, '\t'))
  {
  }

  function WithMarks(data: Data, ms: seq<Mark>): Data {
    data.(marks := data.marks + ms)
  }

  lemma MarkLineRead(data: Data, m: Mark)
    requires CleanMark(m)
    ensures StableLine(MarkLine(m))
    ensures ParseLine(data, MarkLine(m)) == WithMarks(data, [m])
  {
    MarkLineShape(m);
    TightLine(MarkLine(m), data);
    MarkFieldsRead(data, m);
  }

  function MarkKind(external: bool): string {
    if external then "include" else "exclude"
  }

  lemma MarkLineShape(m: Mark)
    requires CleanMark(m)
    ensures var line := MarkLine(m);
            && line != "" && 'a' <= line[0] <= 'z' && !IsSpace(line[|line| - 1]) && '\n' !in line
            && Split(line, '\t') == ["mark", MarkKind(m.external), m.usr, m.decidedAt]
  {
    Split4("mark", MarkKind(m.external), m.usr, m.decidedAt);
    var line := MarkLine(m);
    assert line[0] == 'm' && line[|line| - 1] == m.decidedAt[|m.decidedAt| - 1];
  }

  lemma MarkFieldsRead(data: Data, m: Mark)
    ensures ParseFields(data, ["mark", MarkKind(m.external), m.usr, m.decidedAt]) == WithMarks(data, [m])
  {
    assert "include"[0] != "exclude"[0];
  }

  function WithNames(data: Data, rs: seq<Rule>): Data { WithRules(data, true, rs) }
  function WithPaths(data: Data, rs: seq<Rule>): Data { WithRules(data, false, rs) }

  function WithRules(data: Data, ofNames: bool, rs: seq<Rule>): Data {
    if ofNames then data.(nameRules := data.nameRules + rs) else data.(pathRules := data.pathRules + rs)
  }

  lemma RuleLineRead(data: Data, ofNames: bool, r: Rule)
    requires CleanRule(r)
    ensures StableLine(RuleLine(ofNames, r))
    ensures ParseLine(data, RuleLine(ofNames, r)) == WithRules(data, ofNames, [r])
  {
    RuleLineShape(ofNames, r);
    TightLine(RuleLine(ofNames, r), data);
    IntRoundTrip(r.id);
    RuleFieldsRead(data, ofNames, ShowInt(r.id), r.pattern, r.createdAt);
  }

  lemma RuleLineShape(ofNames: bool, r: Rule)
    requires CleanRule(r)
    ensures var line := RuleLine(ofNames, r);
            && line != "" && 'a' <= line[0] <= 'z' && !IsSpace(line[|line| - 1]) && '\n' !in line
            && Split(line, '\t') == [RuleKind(ofNames), ShowInt(r.id), r.pattern, r.createdAt]
  {
    ShownIntIsPlain(r.id);
    Split4(RuleKind(ofNames), ShowInt(r.id), r.pattern, r.createdAt);
    var line := RuleLine(ofNames, r);
    assert line[0] == RuleKind(ofNames)[0] && line[|line| - 1] == r.createdAt[|r.createdAt| - 1];
  }

  lemma RuleFieldsRead(data: Data, ofNames: bool, id: string, pattern: string, createdAt: string)
    requires ParseInt(id).Some?
    ensures ParseFields(data, [RuleKind(ofNames), id, pattern, createdAt])
        == WithRules(data, ofNames, [Rule(ParseInt(id).value, pattern, createdAt)])
  {
    assert RuleKind(ofNames)[0] != "mark"[0];
    assert |RuleKind(true)| == |RuleKind(false)| && RuleKind(true)[0] != RuleKind(false)[0];
  }

  function WithFiles(data: Data, ms: seq<FileMark>): Data {
    data.(fileMarks := data.fileMarks + ms)
  }

  lemma FileLineRead(data: Data, m: FileMark)
    requires CleanFile(m)
    ensures StableLine(FileLine(m))
    ensures ParseLine(data, FileLine(m)) == WithFiles(data, [m])
  {
    Split3("file", m.file, m.decidedAt);
    var line := FileLine(m);
    assert line[0] == 'f' && line[|line| - 1] == m.decidedAt[|m.decidedAt| - 1];
    TightLine(line, data);
  }

  predicate Stable(lines: seq<string>) {
    forall i | 0 <= i < |lines| :: StableLine(lines[i])
  }

  lemma {:induction false} LinesStable<T(!new)>(line: T -> string, xs: seq<T>)
    requires forall x | x in xs :: StableLine(line(x))
    ensures Stable(LinesOf(line, xs))
    decreases |xs|
  {
    if xs != [] {
      assert xs[0] in xs;
      LinesStable(line, xs[1..]);
    }
  }

  /** Adding entries one by one is adding them together. */
  ghost predicate Accumulates<T(!new)>(add: (Data, seq<T>) -> Data) {
    (forall d :: add(d, []) == d) && forall d, x, ys :: add(add(d, [x]), ys) == add(d, [x] + ys)
  }

  /** Each entry's line is read as that entry. */
  ghost predicate Reads<T(!new)>(parse: Parser, line: T -> string, add: (Data, seq<T>) -> Data, xs: seq<T>) {
    forall d, x | x in xs :: parse(d, line(x)) == add(d, [x])
  }

  lemma {:induction false} EntriesRead<T(!new)>(parse: Parser, line: T -> string, add: (Data, seq<T>) -> Data,
      data: Data, xs: seq<T>)
    requires Accumulates(add) && Reads(parse, line, add, xs)
    ensures ParseLines(parse, data, LinesOf(line, xs)) == add(data, xs)
    decreases |xs|
  {
    if xs != [] {
      assert xs[0] in xs && xs == [xs[0]] + xs[1..];
      EntriesRead(parse, line, add, add(data, [xs[0]]), xs[1..]);
      assert LinesOf(line, xs)[1..] == LinesOf(line, xs[1..]);
    }
  }

  lemma AdditionsAccumulate()
    ensures Accumulates(WithMarks) && Accumulates(WithNames) && Accumulates(WithPaths) && Accumulates(WithFiles)
  {
    forall d: Data, x: Mark, ys: seq<Mark> ensures WithMarks(WithMarks(d, [x]), ys) == WithMarks(d, [x] + ys) {
      assert d.marks + [x] + ys == d.marks + ([x] + ys);
    }
    forall d: Data, x: FileMark, ys: seq<FileMark> ensures WithFiles(WithFiles(d, [x]), ys) == WithFiles(d, [x] + ys) {
      assert d.fileMarks + [x] + ys == d.fileMarks + ([x] + ys);
    }
    forall d: Data, ofNames: bool, x: Rule, ys: seq<Rule>
      ensures WithRules(WithRules(d, ofNames, [x]), ofNames, ys) == WithRules(d, ofNames, [x] + ys)
    {
      assert d.nameRules + [x] + ys == d.nameRules + ([x] + ys);
      assert d.pathRules + [x] + ys == d.pathRules + ([x] + ys);
    }
    forall d: Data ensures WithMarks(d, []) == d && WithFiles(d, []) == d && WithRules(d, true, []) == d
        && WithRules(d, false, []) == d {
      assert d.marks + [] == d.marks && d.fileMarks + [] == d.fileMarks && d.nameRules + [] == d.nameRules
          && d.pathRules + [] == d.pathRules;
    }
  }

  lemma {:induction false} ParseAppend(parse: Parser, data: Data, a: seq<string>, b: seq<string>)
    ensures ParseLines(parse, data, a + b) == ParseLines(parse, ParseLines(parse, data, a), b)
    decreases |a|
  {
    if a == [] {
      assert a + b == b;
    } else {
      assert (a + b)[1..] == a[1..] + b;
      ParseAppend(parse, parse(data, a[0]), a[1..], b);
    }
  }

  lemma {:induction false} CommentsSkipped(data: Data, lines: seq<string>)
    requires forall i | 0 <= i < |lines| :: Comment(lines[i])
    ensures ParseLines(ParseLine, data, lines) == data
    decreases |lines|
  {
    if lines != [] {
      var line := lines[0];
      assert TrimStart(line) == line;
      CommentKept(line);
      CommentsSkipped(data, lines[1..]);
    }
  }

  lemma {:induction false} CommentKept(line: string)
    requires Comment(line)
    ensures TrimEnd(line) != "" && TrimEnd(line)[0] == '#'
    decreases |line|
  {
    if IsSpace(line[|line| - 1]) { CommentKept(line[..|line| - 1]); }
  }

  lemma EntriesAreRead(d: Data)
    requires Clean(d)
    ensures Reads(ParseLine, MarkLine, WithMarks, d.marks) && Reads(ParseLine, NameLine, WithNames, d.nameRules)
    ensures Reads(ParseLine, PathLine, WithPaths, d.pathRules) && Reads(ParseLine, FileLine, WithFiles, d.fileMarks)
  {
    forall x, m | m in d.marks ensures ParseLine(x, MarkLine(m)) == WithMarks(x, [m]) { MarkLineRead(x, m); }
    forall x, r | r in d.nameRules ensures ParseLine(x, NameLine(r)) == WithNames(x, [r]) { RuleLineRead(x, true, r); }
    forall x, r | r in d.pathRules ensures ParseLine(x, PathLine(r)) == WithPaths(x, [r]) { RuleLineRead(x, false, r); }
    forall x, m | m in d.fileMarks ensures ParseLine(x, FileLine(m)) == WithFiles(x, [m]) { FileLineRead(x, m); }
  }

  lemma EntriesAreStable(d: Data)
    requires Clean(d)
    ensures Stable(DataLines(d))
  {
    forall m | m in d.marks ensures StableLine(MarkLine(m)) { MarkLineRead(NOTHING, m); }
    forall r | r in d.nameRules ensures StableLine(NameLine(r)) { RuleLineRead(NOTHING, true, r); }
    forall r | r in d.pathRules ensures StableLine(PathLine(r)) { RuleLineRead(NOTHING, false, r); }
    forall m | m in d.fileMarks ensures StableLine(FileLine(m)) { FileLineRead(NOTHING, m); }
    LinesStable(MarkLine, d.marks);
    LinesStable(NameLine, d.nameRules);
    LinesStable(PathLine, d.pathRules);
    LinesStable(FileLine, d.fileMarks);
  }

  lemma LinesRead(parse: Parser, d: Data)
    requires Reads(parse, MarkLine, WithMarks, d.marks) && Reads(parse, NameLine, WithNames, d.nameRules)
    requires Reads(parse, PathLine, WithPaths, d.pathRules) && Reads(parse, FileLine, WithFiles, d.fileMarks)
    ensures ParseLines(parse, NOTHING, DataLines(d))
        == WithFiles(WithPaths(WithNames(WithMarks(NOTHING, d.marks), d.nameRules), d.pathRules), d.fileMarks)
  {
    var marks, names, paths, files := LinesOf(MarkLine, d.marks), LinesOf(NameLine, d.nameRules),
        LinesOf(PathLine, d.pathRules), LinesOf(FileLine, d.fileMarks);
    ParseAppend(parse, NOTHING, marks + names + paths, files);
    ParseAppend(parse, NOTHING, marks + names, paths);
    ParseAppend(parse, NOTHING, marks, names);
    AdditionsAccumulate();
    EntriesRead(parse, MarkLine, WithMarks, NOTHING, d.marks);
    var d1 := WithMarks(NOTHING, d.marks);
    EntriesRead(parse, NameLine, WithNames, d1, d.nameRules);
    var d2 := WithNames(d1, d.nameRules);
    EntriesRead(parse, PathLine, WithPaths, d2, d.pathRules);
    EntriesRead(parse, FileLine, WithFiles, WithPaths(d2, d.pathRules), d.fileMarks);
  }

  lemma DataRead(d: Data)
    requires Clean(d)
    ensures Stable(DataLines(d)) && ParseLines(ParseLine, NOTHING, DataLines(d)) == d
  {
    EntriesAreRead(d);
    EntriesAreStable(d);
    LinesRead(ParseLine, d);
    assert [] + d.marks == d.marks && [] + d.nameRules == d.nameRules && [] + d.pathRules == d.pathRules
        && [] + d.fileMarks == d.fileMarks;
  }

  lemma WritesAndReads(header: Header, d: Data)
    requires Clean(d)
    ensures Parse(Serialize(header, d)) == d
  {
    DataRead(d);
    var lines := header + DataLines(d);
    LinesOfUnlines(lines);
    assert WithoutCrs(lines) == lines;
    ParseAppend(ParseLine, NOTHING, header, DataLines(d));
    CommentsSkipped(NOTHING, header);
  }

  /** Exactly the data without separators in its fields, and with a real end to each line,
      comes back from the file it is written to. */
  lemma RoundTrip(header: Header, d: Data)
    ensures Parse(Serialize(header, d)) == d <==> Clean(d)
  {
    if Clean(d) { WritesAndReads(header, d); }
    ParsedIsClean(Serialize(header, d));
  }

  /** Rewriting a file once, whatever was in it, is rewriting it any number of times. */
  lemma RewritingIsStable(header: Header, contents: string)
    ensures Parse(Serialize(header, Parse(contents))) == Parse(contents)
  {
    ParsedIsClean(contents);
    RoundTrip(header, Parse(contents));
  }
}
