/**
 From a line of generated Dart back to the C++ declaration it came from: the
 headers of the declarations are searched for in order, and each one found
 owns the lines up to the next.
 */
module OriginLookup {
  import opened Wrappers
  import opened Ir

  datatype Marker = Marker(needle: string, origin: Origin)

  /** A declaration's header, by index of its line. */
  datatype Located = Located(start: nat, origin: Origin)

  /** Lines are counted from 1; both ends belong to the range. */
  datatype Range = Range(first: nat, last: nat, origin: Origin)

  predicate OccursAt(line: string, needle: string, i: nat) {
    i + |needle| <= |line| && line[i..i + |needle|] == needle
  }

  predicate Contains(line: string, needle: string) {
    exists i: nat | i <= |line| :: OccursAt(line, needle, i)
  }

  /** That is, the line is the needle with something, or nothing, on either side. */
  lemma ContainsIsBetween(line: string, needle: string)
    ensures Contains(line, needle) <==> exists a, b :: line == a + needle + b
  {
    if Contains(line, needle) {
      var i: nat :| i <= |line| && OccursAt(line, needle, i);
      assert line == line[..i] + needle + line[i + |needle|..];
    }
    if exists a, b :: line == a + needle + b {
      var a, b :| line == a + needle + b;
      assert line[|a|..|a| + |needle|] == needle;
      assert OccursAt(line, needle, |a|);
    }
  }

  /** The first line at or after `from` that contains the needle. */
  function FindLine(lines: seq<string>, from: nat, needle: string): (r: Option<nat>)
    ensures r.Some? ==> from <= r.value < |lines|
    decreases |lines| - from
  {
    if from >= |lines| then None
    else if Contains(lines[from], needle) then Some(from)
    else FindLine(lines, from + 1, needle)
  }

  lemma {:induction false} FindLineFinds(lines: seq<string>, from: nat, needle: string)
    ensures var r := FindLine(lines, from, needle);
            && (r.Some? ==> Contains(lines[r.value], needle))
            && forall i | from <= i < (if r.Some? then r.value else |lines|) :: !Contains(lines[i], needle)
    decreases |lines| - from
  {
    if from < |lines| && !Contains(lines[from], needle) { FindLineFinds(lines, from + 1, needle); }
  }

  /** The markers found, each searched for behind the previous one; a missing one is passed over. */
  function Locate(lines: seq<string>, markers: seq<Marker>, from: nat): seq<Located> {
    if markers == [] then []
    else match FindLine(lines, from, markers[0].needle)
      case None => Locate(lines, markers[1..], from)
      case Some(i) => [Located(i, markers[0].origin)] + Locate(lines, markers[1..], i + 1)
  }

  ghost predicate Ascending(found: seq<Located>, from: nat, n: nat) {
    && (forall k | 0 <= k < |found| :: from <= found[k].start < n)
    && (forall j, k | 0 <= j < k < |found| :: found[j].start < found[k].start)
  }

  lemma {:induction false} LocateAscends(lines: seq<string>, markers: seq<Marker>, from: nat)
    ensures Ascending(Locate(lines, markers, from), from, |lines|)
    decreases |markers|
  {
    if markers != [] {
      match FindLine(lines, from, markers[0].needle)
      case None => LocateAscends(lines, markers[1..], from);
      case Some(i) => LocateAscends(lines, markers[1..], i + 1);
    }
  }

  function RangeAt(found: seq<Located>, n: nat, k: nat): Range
    requires k < |found|
  {
    Range(found[k].start + 1, if k + 1 < |found| then found[k + 1].start else n, found[k].origin)
  }

  function Ranges(found: seq<Located>, n: nat): (r: seq<Range>)
    ensures |r| == |found| && forall k | 0 <= k < |found| :: r[k] == RangeAt(found, n, k)
  {
    seq(|found|, k requires 0 <= k < |found| => RangeAt(found, n, k))
  }

  ghost predicate Within(r: Range, line: nat) {
    r.first <= line <= r.last
  }

  ghost predicate Covered(ranges: seq<Range>, line: nat) {
    exists k | 0 <= k < |ranges| :: Within(ranges[k], line)
  }

  /** The ranges are in order, none empty, each starting where the previous one ends, the last
      one ending with the file: every line from the first header on is in exactly one. */
  lemma RangesPartition(lines: seq<string>, markers: seq<Marker>)
    ensures var found := Locate(lines, markers, 0);
            var ranges := Ranges(found, |lines|);
            && (forall k | 0 <= k < |ranges| :: ranges[k].first <= ranges[k].last)
            && (forall k | 0 <= k < |ranges| - 1 :: ranges[k + 1].first == ranges[k].last + 1)
            && (ranges != [] ==> ranges[|ranges| - 1].last == |lines|)
            && (forall j, k, line | 0 <= j < k < |ranges| :: !(Within(ranges[j], line) && Within(ranges[k], line)))
            && (forall line: nat :: Covered(ranges, line) <==> ranges != [] && ranges[0].first <= line <= |lines|)
  {
    var found := Locate(lines, markers, 0);
    LocateAscends(lines, markers, 0);
    var ranges := Ranges(found, |lines|);
    forall line: nat ensures Covered(ranges, line) <==> ranges != [] && ranges[0].first <= line <= |lines| {
      if ranges != [] && ranges[0].first <= line <= |lines| {
        var k := LastAtOrBefore(found, line);
        assert Within(ranges[k], line);
      }
    }
  }

  /** The last header at or before a line. */
  lemma LastAtOrBefore(found: seq<Located>, line: nat) returns (k: nat)
    requires found != [] && found[0].start + 1 <= line
    requires forall i, j | 0 <= i < j < |found| :: found[i].start < found[j].start
    ensures k < |found| && found[k].start + 1 <= line && forall j | k < j < |found| :: line < found[j].start + 1
  {
    k := |found| - 1;
    while line < found[k].start + 1
      invariant k < |found| && forall j | k < j < |found| :: line < found[j].start + 1
    {
      k := k - 1;
    }
  }

  /** The answer is the k-th header found: the last one at or before the line. */
  ghost predicate IsAnswer(found: seq<Located>, line: nat, k: nat) {
    k < |found| && found[k].start + 1 <= line && forall j | k < j < |found| :: line < found[j].start + 1
  }

  /** The ranges closed so far: all but the last header's. */
  ghost predicate Closed(ranges: seq<Range>, found: seq<Located>, n: nat) {
    |ranges| == (if found == [] then 0 else |found| - 1)
        && forall k | 0 <= k < |ranges| :: ranges[k] == RangeAt(found, n, k)
  }

  lemma CloseOne(ranges: seq<Range>, found: seq<Located>, n: nat, here: Located)
    requires Closed(ranges, found, n)
    ensures Closed(if found == [] then ranges
        else ranges + [Range(found[|found| - 1].start + 1, here.start, found[|found| - 1].origin)], found + [here], n)
  {
  }

  /** The search as a scan: ranges closed, header still open, where to search next. */
  datatype Scan = Scan(ranges: seq<Range>, open: Option<Located>, from: nat)

  function ScanOne(lines: seq<string>, m: Marker, s: Scan): Scan {
    match FindLine(lines, s.from, m.needle)
    case None => s
    case Some(at) =>
      Scan(if s.open.Some? then s.ranges + [Range(s.open.value.start + 1, at, s.open.value.origin)] else s.ranges,
           Some(Located(at, m.origin)), at + 1)
  }

  function ScanAll(lines: seq<string>, markers: seq<Marker>, s: Scan): Scan
    decreases |markers|
  {
    if markers == [] then s else ScanAll(lines, markers[1..], ScanOne(lines, markers[0], s))
  }

  /** A scan that has found exactly these headers. */
  ghost predicate HasFound(s: Scan, found: seq<Located>, n: nat) {
    Closed(s.ranges, found, n) && s.open == if found == [] then None else Some(found[|found| - 1])
  }

  lemma ScanOneFinds(lines: seq<string>, m: Marker, s: Scan, found: seq<Located>, at: nat)
    requires HasFound(s, found, |lines|) && FindLine(lines, s.from, m.needle) == Some(at)
    ensures HasFound(ScanOne(lines, m, s), found + [Located(at, m.origin)], |lines|)
  {
    CloseOne(s.ranges, found, |lines|, Located(at, m.origin));
  }

  /** The headers known once the first of these markers has been looked for. */
  function FoundNext(lines: seq<string>, m: Marker, from: nat, found: seq<Located>): seq<Located> {
    match FindLine(lines, from, m.needle)
    case None => found
    case Some(at) => found + [Located(at, m.origin)]
  }

  lemma LocateNext(lines: seq<string>, markers: seq<Marker>, s: Scan, found: seq<Located>)
    requires markers != []
    ensures found + Locate(lines, markers, s.from)
         == FoundNext(lines, markers[0], s.from, found)
             + Locate(lines, markers[1..], ScanOne(lines, markers[0], s).from)
  {
  }

  lemma {:induction false} ScanFinds(lines: seq<string>, markers: seq<Marker>, s: Scan, found: seq<Located>)
    requires HasFound(s, found, |lines|)
    ensures HasFound(ScanAll(lines, markers, s), found + Locate(lines, markers, s.from), |lines|)
    decreases |markers|
  {
    if markers == [] {
      assert found + [] == found;
    } else {
      var next := FoundNext(lines, markers[0], s.from, found);
      assert HasFound(ScanOne(lines, markers[0], s), next, |lines|) by {
        var at := FindLine(lines, s.from, markers[0].needle);
        if at.Some? { ScanOneFinds(lines, markers[0], s, found, at.value); }
      }
      LocateNext(lines, markers, s, found);
      ScanFinds(lines, markers[1..], ScanOne(lines, markers[0], s), next);
    }
  }

  /** Looks for one marker; where it is found, the open range ends before it and its own begins. */
  method ScanMarker(lines: seq<string>, m: Marker, s: Scan) returns (t: Scan)
    ensures t == ScanOne(lines, m, s)
  {
    t := s;
    var at := FindLine(lines, s.from, m.needle);
    if at.None? {
      return;
    }
    if s.open.Some? {
      t := t.(ranges := s.ranges + [Range(s.open.value.start + 1, at.value, s.open.value.origin)]);
    }
    t := t.(open := Some(Located(at.value, m.origin)), from := at.value + 1);
  }

  method LocateRanges(lines: seq<string>, markers: seq<Marker>) returns (ranges: seq<Range>)
    ensures ranges == Ranges(Locate(lines, markers, 0), |lines|)
  {
    var s := Scan([], None, 0);
    for i := 0 to |markers|
      invariant ScanAll(lines, markers[i..], s) == ScanAll(lines, markers, Scan([], None, 0))
    {
      assert markers[i..][0] == markers[i] && markers[i..][1..] == markers[i + 1..];
      s := ScanMarker(lines, markers[i], s);
    }
    assert markers[|markers|..] == [];
    ScanFinds(lines, markers, Scan([], None, 0), []);
    assert [] + Locate(lines, markers, 0) == Locate(lines, markers, 0);
    ranges := s.ranges;
    if s.open.Some? {
      ranges := ranges + [Range(s.open.value.start + 1, |lines|, s.open.value.origin)];
    }
  }

  /** A line within the file, from the first header on, belongs to the greatest header at or
      before it; any other line to none. */
  method LocateOrigin(markers: seq<Marker>, lines: seq<string>, dartLine: nat) returns (origin: Option<Origin>)
    ensures origin.Some? <==> dartLine <= |lines| && exists k: nat :: IsAnswer(Locate(lines, markers, 0), dartLine, k)
    ensures forall k: nat | dartLine <= |lines| && IsAnswer(Locate(lines, markers, 0), dartLine, k) ::
      origin == Some(Locate(lines, markers, 0)[k].origin)
  {
    var ranges := LocateRanges(lines, markers);
    ghost var found := Locate(lines, markers, 0);
    LocateAscends(lines, markers, 0);
    forall k: nat ensures dartLine <= |lines| && IsAnswer(found, dartLine, k)
        <==> k < |found| && Within(ranges[k], dartLine) {
      AnswerIsRange(found, |lines|, dartLine, k);
    }
    RangesPartition(lines, markers);
    for i := 0 to |ranges|
      invariant forall k | 0 <= k < i :: !Within(ranges[k], dartLine)
    {
      if ranges[i].first <= dartLine && dartLine <= ranges[i].last {
        assert Within(ranges[i], dartLine);
        return Some(ranges[i].origin);
      }
    }
    origin := None;
  }

  lemma AnswerIsRange(found: seq<Located>, n: nat, line: nat, k: nat)
    requires forall i, j | 0 <= i < j < |found| :: found[i].start < found[j].start
    requires forall i | 0 <= i < |found| :: found[i].start < n
    ensures line <= n && IsAnswer(found, line, k) <==> k < |found| && Within(RangeAt(found, n, k), line)
  {
    if k + 1 < |found| && line <= found[k + 1].start {
      forall j | k < j < |found| ensures line < found[j].start + 1 {
        assert j == k + 1 || found[k + 1].start < found[j].start;
      }
    }
  }
}
