/**
 The externals file as text: which lines are written and what each line read
 means, with the words of the format spelled out.
 */
module FileFormat {
  import opened Wrappers
  import opened Strings
  import opened ExternalsText

  // ----- reading -----

  lemma Fields4(kind: string, a: string, b: string, c: string, line: string, data: Data)
    requires kind != "" && 'a' <= kind[0] <= 'z' && Plain(kind) && Plain(a) && Plain(b) && PlainLast(c)
    requires line == kind + "\t" + a + "\t" + b + "\t" + c
    ensures ParseLine(data, line) == ParseFields(data, [kind, a, b, c])
  {
    Split4(kind, a, b, c);
    assert line[0] == kind[0] && line[|line| - 1] == c[|c| - 1];
    TightLine(line, data);
  }

  /** `mark`, then `include` or `exclude`, a usr and a date. */
  lemma MarkLinesAreRead(data: Data, usr: string, at: string)
    requires Plain(usr) && PlainLast(at)
    ensures ParseLine(data, "mark\tinclude\t" + usr + "\t" + at)
         == data.(marks := data.marks + [Mark(usr, true, at)])
    ensures ParseLine(data, "mark\texclude\t" + usr + "\t" + at)
         == data.(marks := data.marks + [Mark(usr, false, at)])
  {
    Fields4("mark", "include", usr, at, "mark\tinclude\t" + usr + "\t" + at, data);
    Fields4("mark", "exclude", usr, at, "mark\texclude\t" + usr + "\t" + at, data);
    assert "include"[0] != "exclude"[0];
  }

  /** `name_regex` or `path_regex`, a number, a pattern and a date; with anything else for a number
      the line is skipped. */
  lemma RuleLinesAreRead(data: Data, id: string, pattern: string, at: string)
    requires Plain(id) && Plain(pattern) && PlainLast(at)
    ensures ParseLine(data, "name_regex\t" + id + "\t" + pattern + "\t" + at)
         == if ParseInt(id).Some? then data.(nameRules := data.nameRules + [Rule(ParseInt(id).value, pattern, at)])
            else data
    ensures ParseLine(data, "path_regex\t" + id + "\t" + pattern + "\t" + at)
         == if ParseInt(id).Some? then data.(pathRules := data.pathRules + [Rule(ParseInt(id).value, pattern, at)])
            else data
  {
    Fields4("name_regex", id, pattern, at, "name_regex\t" + id + "\t" + pattern + "\t" + at, data);
    Fields4("path_regex", id, pattern, at, "path_regex\t" + id + "\t" + pattern + "\t" + at, data);
    assert "name_regex"[0] != "mark"[0] && "path_regex"[0] != "mark"[0] && "path_regex"[0] != "name_regex"[0];
  }

  /** `file`, a path and a date. */
  lemma FileLinesAreRead(data: Data, file: string, at: string)
    requires Plain(file) && PlainLast(at)
    ensures ParseLine(data, "file\t" + file + "\t" + at) == data.(fileMarks := data.fileMarks + [FileMark(file, at)])
  {
    var line := "file\t" + file + "\t" + at;
    Split3("file", file, at);
    assert line == "file" + "\t" + file + "\t" + at;
    assert line[0] == 'f' && line[|line| - 1] == at[|at| - 1];
    TightLine(line, data);
  }

  predicate Recognized(fields: seq<string>) {
    || (|fields| == 4 && fields[0] == "mark" && (fields[1] == "include" || fields[1] == "exclude"))
    || (|fields| == 4 && (fields[0] == "name_regex" || fields[0] == "path_regex") && ParseInt(fields[1]).Some?)
    || (|fields| == 3 && fields[0] == "file")
  }

  /** What is around a line does not matter; a blank line, a comment, and a line with other words or
      another number of fields are skipped. */
  lemma OtherLinesAreSkipped(data: Data, line: string)
    ensures var t := Trim(line);
            t == "" || t[0] == '#' || !Recognized(Split(t, '\t')) ==> ParseLine(data, line) == data
    ensures exists before, after :: line == before + Trim(line) + after && AllSpace(before) && AllSpace(after)
  {
    TrimSplits(line);
  }

  predicate AllSpace(s: string) {
    forall i | 0 <= i < |s| :: IsSpace(s[i])
  }

  lemma {:induction false} TrimStartSplits(s: string) returns (before: string)
    ensures s == before + TrimStart(s) && AllSpace(before)
    decreases |s|
  {
    if s != "" && IsSpace(s[0]) {
      var rest := TrimStartSplits(s[1..]);
      before := [s[0]] + rest;
      assert s == [s[0]] + s[1..];
    } else {
      before := "";
    }
  }

  lemma {:induction false} TrimEndSplits(s: string) returns (after: string)
    ensures s == TrimEnd(s) + after && AllSpace(after)
    decreases |s|
  {
    if s != "" && IsSpace(s[|s| - 1]) {
      var rest := TrimEndSplits(s[..|s| - 1]);
      after := rest + [s[|s| - 1]];
      assert s == s[..|s| - 1] + [s[|s| - 1]];
    } else {
      after := "";
    }
  }

  lemma TrimSplits(s: string)
    ensures exists before, after :: s == before + Trim(s) + after && AllSpace(before) && AllSpace(after)
  {
    var before := TrimStartSplits(s);
    var after := TrimEndSplits(TrimStart(s));
    assert s == before + Trim(s) + after;
  }

  /** Splitting takes a text apart at its separators and nowhere else. */
  function Rejoined(pieces: seq<string>, sep: char): string {
    if pieces == [] then "" else if |pieces| == 1 then pieces[0] else pieces[0] + [sep] + Rejoined(pieces[1..], sep)
  }

  lemma {:induction false} SplitRejoins(s: string, sep: char)
    ensures Rejoined(Split(s, sep), sep) == s
    decreases |s|
  {
    if s != "" {
      SplitRejoins(s[1..], sep);
      var rest := Split(s[1..], sep);
      if s[0] == sep {
        assert ([""] + rest)[1..] == rest;
        assert "" + [sep] + s[1..] == s;
      } else {
        var all := [[s[0]] + rest[0]] + rest[1..];
        assert all[1..] == rest[1..];
        assert s == [s[0]] + s[1..];
      }
    }
  }

  function Unended(line: string): string {
    if line != "" && line[|line| - 1] == '\r' then line[..|line| - 1] else line
  }

  /** Lines end at a line feed, and one carriage return before it goes with it. */
  lemma LinesAreTaken(line: string, rest: string)
    requires '\n' !in line
    ensures Lines(line + "\n" + rest) == [Unended(line)] + Lines(rest)
  {
    SplitAt(line, '\n', rest);
    SplitWhole(line, '\n');
    assert line + "\n" + rest == line + ['\n'] + rest;
    FirstLine(line, rest, Split(rest, '\n'));
  }

  function WithoutLastEmpty(pieces: seq<string>): seq<string>
    requires pieces != []
  {
    if pieces[|pieces| - 1] == "" then pieces[..|pieces| - 1] else pieces
  }

  lemma LinesAre(s: string)
    ensures Lines(s) == WithoutCrs(WithoutLastEmpty(Split(s, '\n')))
  {
  }

  lemma OneMorePiece(line: string, pieces: seq<string>)
    requires pieces != []
    ensures WithoutLastEmpty([line] + pieces) == [line] + WithoutLastEmpty(pieces)
  {
  }

  lemma OneMoreLine(line: string, lines: seq<string>)
    ensures WithoutCrs([line] + lines) == [Unended(line)] + WithoutCrs(lines)
  {
  }

  lemma FirstLine(line: string, rest: string, pieces: seq<string>)
    requires pieces != [] && pieces == Split(rest, '\n') && Split(line + "\n" + rest, '\n') == [line] + pieces
    ensures Lines(line + "\n" + rest) == [Unended(line)] + Lines(rest)
  {
    LinesAre(rest);
    LinesAre(line + "\n" + rest);
    OneMorePiece(line, pieces);
    OneMoreLine(line, WithoutLastEmpty(pieces));
  }

  /** The last line need not be ended. */
  lemma LastLineIsTaken(line: string)
    requires '\n' !in line
    ensures Lines(line) == if line == "" then [] else [Unended(line)]
  {
    SplitWhole(line, '\n');
    assert WithoutCrs([line]) == [Unended(line)];
    assert [line][..0] == [] && WithoutCrs([]) == [];
  }

  // ----- numbers -----

  /** Decimal digits, their value by place, an optional sign, and 64 bits. */
  lemma NumbersAreRead(digits: string)
    requires digits != "" && AllDigits(digits)
    ensures var value: int := NumeralValue(digits);
            && ParseInt(digits) == (if value <= 0x7fff_ffff_ffff_ffff then Some(value) else None)
            && ParseInt("+" + digits) == ParseInt(digits)
            && ParseInt("-" + digits) == (if value <= 0x8000_0000_0000_0000 then Some(-value) else None)
  {
    assert IsDigit(digits[0]);
    assert ("+" + digits)[1..] == digits && ("-" + digits)[1..] == digits;
  }

  lemma OtherTextIsNoNumber(s: string)
    requires s == "" || !AllDigits(if s[0] == '-' || s[0] == '+' then s[1..] else s) || s == "-" || s == "+"
    ensures ParseInt(s) == None
  {
  }

  lemma DigitsByPlace(s: string, c: char)
    requires AllDigits(s) && IsDigit(c)
    ensures AllDigits(s + [c]) && NumeralValue(s + [c]) == 10 * NumeralValue(s) + (c as int - '0' as int)
    ensures NumeralValue("") == 0
  {
    assert (s + [c])[..|s|] == s;
  }

  // ----- writing -----

  ghost predicate Each<T(!new)>(text: T -> string, xs: seq<T>, lines: seq<string>) {
    |lines| == |xs| && forall i | 0 <= i < |xs| :: lines[i] == text(xs[i])
  }

  /** Marks, rules of names, rules of paths, then files, each in order, one line each. */
  ghost predicate Written(d: Data, lines: seq<string>) {
    exists marks, names, paths, files ::
      && lines == marks + names + paths + files && Each(MarkText, d.marks, marks)
      && Each(r => RuleText("name_regex\t", r), d.nameRules, names)
      && Each(r => RuleText("path_regex\t", r), d.pathRules, paths) && Each(FileText, d.fileMarks, files)
  }

  function FileText(f: FileMark): string {
    "file\t" + f.file + "\t" + f.decidedAt
  }

  function MarkText(m: Mark): string {
    (if m.external then "mark\tinclude\t" else "mark\texclude\t") + m.usr + "\t" + m.decidedAt
  }

  function RuleText(word: string, r: Rule): string {
    word + (if r.id < 0 then "-" + Numeral(-r.id) else Numeral(r.id)) + "\t" + r.pattern + "\t" + r.createdAt
  }

  lemma {:induction false} LineEach<T(!new)>(line: T -> string, text: T -> string, xs: seq<T>)
    requires forall x :: line(x) == text(x)
    ensures Each(text, xs, LinesOf(line, xs))
    decreases |xs|
  {
    if xs != [] { LineEach(line, text, xs[1..]); }
  }

  lemma LinesAreWritten(d: Data)
    ensures Written(d, DataLines(d))
  {
    forall m ensures MarkLine(m) == MarkText(m) { MarkWords(m); }
    forall r: Rule ensures NameLine(r) == RuleText("name_regex\t", r) { RuleWords(r); }
    forall r: Rule ensures PathLine(r) == RuleText("path_regex\t", r) { RuleWords(r); }
    forall f ensures FileLine(f) == FileText(f) { FileWords(f); }
    LineEach(MarkLine, MarkText, d.marks);
    LineEach(NameLine, r => RuleText("name_regex\t", r), d.nameRules);
    LineEach(PathLine, r => RuleText("path_regex\t", r), d.pathRules);
    LineEach(FileLine, FileText, d.fileMarks);
  }

  lemma MarkWords(m: Mark)
    ensures MarkLine(m) == MarkText(m)
  {
    assert "mark" + "\t" + "include" + "\t" == "mark\tinclude\t";
    assert "mark" + "\t" + "exclude" + "\t" == "mark\texclude\t";
  }

  lemma RuleWords(r: Rule)
    ensures NameLine(r) == RuleText("name_regex\t", r) && PathLine(r) == RuleText("path_regex\t", r)
  {
    assert "name_regex" + "\t" == "name_regex\t" && "path_regex" + "\t" == "path_regex\t";
  }

  lemma FileWords(f: FileMark)
    ensures FileLine(f) == FileText(f)
  {
    assert "file" + "\t" == "file\t";
  }

  function Ended(lines: seq<string>): string {
    if lines == [] then "" else Ended(lines[..|lines| - 1]) + lines[|lines| - 1] + "\n"
  }

  lemma {:induction false} UnlinesEnds(a: seq<string>, b: seq<string>)
    ensures Unlines(a + b) == Unlines(a) + Unlines(b)
    decreases |a|
  {
    if a == [] {
      assert a + b == b;
    } else {
      assert (a + b)[1..] == a[1..] + b;
      UnlinesEnds(a[1..], b);
    }
  }

  lemma {:induction false} EachLineEnds(lines: seq<string>)
    ensures Unlines(lines) == Ended(lines)
    decreases |lines|
  {
    if lines != [] {
      var front, last := lines[..|lines| - 1], lines[|lines| - 1];
      EachLineEnds(front);
      UnlinesEnds(front, [last]);
      assert lines == front + [last];
      assert Unlines([last]) == last + "\n" + "";
    }
  }
}
