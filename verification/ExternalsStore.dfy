/**
 The store over that text file: every update reads the file, changes the data
 and writes the whole file back.
 */
module ExternalsStore {
  import opened Wrappers
  import opened Strings
  import opened ExternalsText

  // ----- the updates, on data -----

  function UsrOf(m: Mark): string { m.usr }
  function FileOf(m: FileMark): string { m.file }

  function MarksExcept(ms: seq<Mark>, usr: string): seq<Mark> {
    if ms == [] then [] else MarksExcept(ms[..|ms| - 1], usr) + if ms[|ms| - 1].usr != usr then [ms[|ms| - 1]] else []
  }

  function FilesExcept(ms: seq<FileMark>, file: string): seq<FileMark> {
    if ms == [] then [] else FilesExcept(ms[..|ms| - 1], file) + if ms[|ms| - 1].file != file then [ms[|ms| - 1]]
        else []
  }

  function MarksAmong(ms: seq<Mark>, valid: set<string>): seq<Mark> {
    if ms == [] then [] else MarksAmong(ms[..|ms| - 1], valid) + if ms[|ms| - 1].usr in valid then [ms[|ms| - 1]]
        else []
  }

  function FilesAmong(ms: seq<FileMark>, valid: set<string>): seq<FileMark> {
    if ms == [] then [] else FilesAmong(ms[..|ms| - 1], valid) + if ms[|ms| - 1].file in valid then [ms[|ms| - 1]]
        else []
  }

  function RulesExcept(rs: seq<Rule>, id: int): seq<Rule> {
    if rs == [] then [] else RulesExcept(rs[..|rs| - 1], id) + if rs[|rs| - 1].id != id then [rs[|rs| - 1]] else []
  }

  function WithMark(d: Data, m: Mark): Data {
    d.(marks := SortStable(UsrOf, MarksExcept(d.marks, m.usr) + [m]))
  }

  function WithFile(d: Data, m: FileMark): Data {
    d.(fileMarks := SortStable(FileOf, FilesExcept(d.fileMarks, m.file) + [m]))
  }

  function MaxId(rs: seq<Rule>): Option<int> {
    if rs == [] then None
    else
      var last := rs[|rs| - 1].id;
      match MaxId(rs[..|rs| - 1])
      case None => Some(last)
      case Some(m) => Some(if m < last then last else m)
  }

  function NextId(rs: seq<Rule>): int {
    (if MaxId(rs).Some? then MaxId(rs).value else 0) + 1
  }

  // ----- what the updates keep -----

  lemma OfKeyLast<T>(key: T -> string, s: seq<T>, x: T, k: string)
    ensures OfKey(key, s + [x], k) == OfKey(key, s, k) + if key(x) == k then [x] else []
  {
    assert (s + [x])[..|s|] == s;
  }

  lemma MarksExceptLast(ms: seq<Mark>, usr: string)
    requires ms != []
    ensures var last := ms[|ms| - 1];
            MarksExcept(ms, usr) == if last.usr == usr then MarksExcept(ms[..|ms| - 1], usr)
                else MarksExcept(ms[..|ms| - 1], usr) + [last]
  {
  }

  lemma {:induction false} MarksExceptOf(ms: seq<Mark>, usr: string, u: string)
    ensures OfKey(UsrOf, MarksExcept(ms, usr), u) == if u == usr then [] else OfKey(UsrOf, ms, u)
    ensures forall m | m in MarksExcept(ms, usr) :: m in ms && m.usr != usr
    decreases |ms|
  {
    if ms != [] {
      var last := |ms| - 1;
      MarksExceptOf(ms[..last], usr, u);
      MarksExceptLast(ms, usr);
      OfKeyLast(UsrOf, MarksExcept(ms[..last], usr), ms[last], u);
    }
  }

  /** After setting a mark its usr has that mark and no other; every other usr keeps its
      marks in their order; the list is sorted. */
  lemma MarkIsSet(d: Data, m: Mark, u: string)
    ensures OfKey(UsrOf, WithMark(d, m).marks, u) == if u == m.usr then [m] else OfKey(UsrOf, d.marks, u)
    ensures WeaklySortedBy(UsrOf, WithMark(d, m).marks)
    ensures Clean(d) && CleanMark(m) ==> Clean(WithMark(d, m))
  {
    var all := MarksExcept(d.marks, m.usr) + [m];
    MarksExceptOf(d.marks, m.usr, u);
    assert all[..|all| - 1] == MarksExcept(d.marks, m.usr);
    SortedStable(UsrOf, all, u);
    var sorted := SortStable(UsrOf, all);
    if Clean(d) && CleanMark(m) {
      forall i | 0 <= i < |sorted| ensures CleanMark(sorted[i]) {
        assert sorted[i] in multiset(sorted);
        assert sorted[i] in all;
      }
    }
  }

  lemma FilesExceptLast(ms: seq<FileMark>, file: string)
    requires ms != []
    ensures var last, before := ms[|ms| - 1], FilesExcept(ms[..|ms| - 1], file);
            FilesExcept(ms, file) == if last.file == file then before else before + [last]
  {
  }

  lemma {:induction false} FilesExceptOf(ms: seq<FileMark>, file: string, f: string)
    ensures OfKey(FileOf, FilesExcept(ms, file), f) == if f == file then [] else OfKey(FileOf, ms, f)
    ensures forall m | m in FilesExcept(ms, file) :: m in ms && m.file != file
    decreases |ms|
  {
    if ms != [] {
      var last := |ms| - 1;
      FilesExceptOf(ms[..last], file, f);
      FilesExceptLast(ms, file);
      OfKeyLast(FileOf, FilesExcept(ms[..last], file), ms[last], f);
    }
  }

  lemma FileIsSet(d: Data, m: FileMark, f: string)
    ensures OfKey(FileOf, WithFile(d, m).fileMarks, f) == if f == m.file then [m] else OfKey(FileOf, d.fileMarks, f)
    ensures WeaklySortedBy(FileOf, WithFile(d, m).fileMarks)
    ensures Clean(d) && CleanFile(m) ==> Clean(WithFile(d, m))
  {
    var all := FilesExcept(d.fileMarks, m.file) + [m];
    FilesExceptOf(d.fileMarks, m.file, f);
    assert all[..|all| - 1] == FilesExcept(d.fileMarks, m.file);
    SortedStable(FileOf, all, f);
    var sorted := SortStable(FileOf, all);
    if Clean(d) && CleanFile(m) {
      forall i | 0 <= i < |sorted| ensures CleanFile(sorted[i]) {
        assert sorted[i] in multiset(sorted);
        assert sorted[i] in all;
      }
    }
  }

  lemma FilesExceptClean(d: Data, file: string)
    requires Clean(d)
    ensures Clean(d.(fileMarks := FilesExcept(d.fileMarks, file)))
  {
    FilesExceptOf(d.fileMarks, file, file);
    var kept := FilesExcept(d.fileMarks, file);
    forall i | 0 <= i < |kept| ensures CleanFile(kept[i]) { assert kept[i] in d.fileMarks; }
  }

  lemma {:induction false} MarksAmongOf(ms: seq<Mark>, valid: set<string>)
    ensures forall m :: m in MarksAmong(ms, valid) <==> m in ms && m.usr in valid
    ensures |MarksAmong(ms, valid)| <= |ms| && (|MarksAmong(ms, valid)| == |ms| ==> MarksAmong(ms, valid) == ms)
    decreases |ms|
  {
    if ms != [] {
      var before, last := ms[..|ms| - 1], ms[|ms| - 1];
      MarksAmongOf(before, valid);
      assert ms == before + [last];
      assert MarksAmong(ms, valid) == MarksAmong(before, valid) + if last.usr in valid then [last] else [];
    }
  }

  lemma {:induction false} FilesAmongOf(ms: seq<FileMark>, valid: set<string>)
    ensures forall m :: m in FilesAmong(ms, valid) <==> m in ms && m.file in valid
    ensures |FilesAmong(ms, valid)| <= |ms| && (|FilesAmong(ms, valid)| == |ms| ==> FilesAmong(ms, valid) == ms)
    decreases |ms|
  {
    if ms != [] {
      var before, last := ms[..|ms| - 1], ms[|ms| - 1];
      FilesAmongOf(before, valid);
      assert ms == before + [last];
      assert FilesAmong(ms, valid) == FilesAmong(before, valid) + if last.file in valid then [last] else [];
    }
  }

  lemma RulesExceptOf(rs: seq<Rule>, id: int)
    ensures forall r :: r in RulesExcept(rs, id) <==> r in rs && r.id != id
    ensures IdsDistinct(rs) ==> IdsDistinct(RulesExcept(rs, id))
  {
    if rs != [] {
      var rest := rs[..|rs| - 1];
      RulesExceptOf(rest, id);
      assert rs == rest + [rs[|rs| - 1]];
      if IdsDistinct(rs) {
        forall j | 0 <= j < |RulesExcept(rest, id)| ensures RulesExcept(rest, id)[j].id != rs[|rs| - 1].id {
          assert RulesExcept(rest, id)[j] in rest;
        }
      }
    }
  }

  ghost predicate IdsDistinct(rs: seq<Rule>) {
    forall i, j | 0 <= i < j < |rs| :: rs[i].id != rs[j].id
  }

  lemma {:induction false} MaxIdBounds(rs: seq<Rule>)
    ensures MaxId(rs).Some? ==> forall i | 0 <= i < |rs| :: rs[i].id <= MaxId(rs).value
    ensures MaxId(rs).Some? <==> rs != []
    decreases |rs|
  {
    if rs != [] { MaxIdBounds(rs[..|rs| - 1]); }
  }

  /** A new rule's id is larger than every id in use, so ids stay distinct. */
  lemma NextIdIsNew(rs: seq<Rule>, pattern: string, createdAt: string)
    ensures forall i | 0 <= i < |rs| :: rs[i].id < NextId(rs)
    ensures IdsDistinct(rs) ==> IdsDistinct(rs + [Rule(NextId(rs), pattern, createdAt)])
  {
    MaxIdBounds(rs);
  }

  // ----- the store -----

  class Store {
    const header: Header
    /** The file, if there is one. */
    var contents: Option<string>

    ghost function Stored(): Data
      reads this
    {
      if contents.None? then NOTHING else Parse(contents.value)
    }

    constructor Open(header: Header, contents: Option<string>)
      ensures this.header == header && this.contents == contents
    {
      this.header, this.contents := header, contents;
    }

    method Read() returns (data: Data)
      ensures data == Stored() && Clean(data)
    {
      if contents.None? { return NOTHING; }
      data := ParseText(contents.value);
      ParsedIsClean(contents.value);
    }

    method Write(data: Data)
      modifies this
      ensures contents == Some(Serialize(header, data))
      ensures Clean(data) ==> Stored() == data
    {
      contents := Some(Serialize(header, data));
      if Clean(data) { RoundTrip(header, data); }
    }

    method SetMark(mark: Mark)
      modifies this
      ensures contents == Some(Serialize(header, WithMark(old(Stored()), mark)))
      ensures CleanMark(mark) ==> Stored() == WithMark(old(Stored()), mark)
    {
      var data := Read();
      MarkIsSet(data, mark, mark.usr);
      Write(data.(marks := SortStable(UsrOf, MarksExcept(data.marks, mark.usr) + [mark])));
    }

    method PruneMarks(valid: set<string>)
      modifies this
      ensures Stored() == old(Stored()).(marks := MarksAmong(old(Stored()).marks, valid))
      ensures Stored() == old(Stored()) ==> contents == old(contents)
    {
      var data := Read();
      MarksAmongOf(data.marks, valid);
      var kept := MarksAmong(data.marks, valid);
      forall i | 0 <= i < |kept| ensures CleanMark(kept[i]) { assert kept[i] in data.marks; }
      if |kept| != |data.marks| {
        Write(data.(marks := kept));
      }
    }

    /** No id is left for a rule once the largest one is in use. */
    method AddNameRegex(pattern: string, createdAt: string) returns (id: Option<int>)
      modifies this
      ensures id.None? <==> NextId(old(Stored()).nameRules) > I64_MAX
      ensures id.None? ==> contents == old(contents)
      ensures var rules := old(Stored()).nameRules;
        id.Some? ==>
          && id.value == NextId(rules)
          && contents
              == Some(Serialize(header, old(Stored()).(nameRules := rules + [Rule(id.value, pattern, createdAt)])))
          && (Plain(pattern) && PlainLast(createdAt)
              ==> Stored() == old(Stored()).(nameRules := rules + [Rule(id.value, pattern, createdAt)]))
    {
      var data := Read();
      var next := NextId(data.nameRules);
      if next > I64_MAX { return None; }
      NextIdInRange(data.nameRules);
      Write(data.(nameRules := data.nameRules + [Rule(next, pattern, createdAt)]));
      id := Some(next);
    }

    method RemoveNameRegex(id: int)
      modifies this
      ensures Stored() == old(Stored()).(nameRules := RulesExcept(old(Stored()).nameRules, id))
    {
      var data := Read();
      RulesExceptOf(data.nameRules, id);
      var kept := RulesExcept(data.nameRules, id);
      forall i | 0 <= i < |kept| ensures CleanRule(kept[i]) { assert kept[i] in data.nameRules; }
      Write(data.(nameRules := kept));
    }

    method AddPathRegex(pattern: string, createdAt: string) returns (id: Option<int>)
      modifies this
      ensures id.None? <==> NextId(old(Stored()).pathRules) > I64_MAX
      ensures id.None? ==> contents == old(contents)
      ensures var rules := old(Stored()).pathRules;
        id.Some? ==>
          && id.value == NextId(rules)
          && contents
              == Some(Serialize(header, old(Stored()).(pathRules := rules + [Rule(id.value, pattern, createdAt)])))
          && (Plain(pattern) && PlainLast(createdAt)
              ==> Stored() == old(Stored()).(pathRules := rules + [Rule(id.value, pattern, createdAt)]))
    {
      var data := Read();
      var next := NextId(data.pathRules);
      if next > I64_MAX { return None; }
      NextIdInRange(data.pathRules);
      Write(data.(pathRules := data.pathRules + [Rule(next, pattern, createdAt)]));
      id := Some(next);
    }

    method RemovePathRegex(id: int)
      modifies this
      ensures Stored() == old(Stored()).(pathRules := RulesExcept(old(Stored()).pathRules, id))
    {
      var data := Read();
      RulesExceptOf(data.pathRules, id);
      var kept := RulesExcept(data.pathRules, id);
      forall i | 0 <= i < |kept| ensures CleanRule(kept[i]) { assert kept[i] in data.pathRules; }
      Write(data.(pathRules := kept));
    }

    /** Presence in the list is the mark; clearing it removes the entry. */
    method SetFileMark(file: string, external: bool, decidedAt: string)
      modifies this
      ensures external ==> contents == Some(Serialize(header, WithFile(old(Stored()), FileMark(file, decidedAt))))
      ensures external && CleanFile(FileMark(file, decidedAt))
          ==> Stored() == WithFile(old(Stored()), FileMark(file, decidedAt))
      ensures !external ==> Stored() == old(Stored()).(fileMarks := FilesExcept(old(Stored()).fileMarks, file))
    {
      var data := Read();
      var kept := FilesExcept(data.fileMarks, file);
      if external {
        FileIsSet(data, FileMark(file, decidedAt), file);
        kept := SortStable(FileOf, kept + [FileMark(file, decidedAt)]);
      } else {
        FilesExceptClean(data, file);
      }
      Write(data.(fileMarks := kept));
    }

    method PruneFileMarks(valid: set<string>)
      modifies this
      ensures Stored() == old(Stored()).(fileMarks := FilesAmong(old(Stored()).fileMarks, valid))
      ensures Stored() == old(Stored()) ==> contents == old(contents)
    {
      var data := Read();
      FilesAmongOf(data.fileMarks, valid);
      var kept := FilesAmong(data.fileMarks, valid);
      forall i | 0 <= i < |kept| ensures CleanFile(kept[i]) { assert kept[i] in data.fileMarks; }
      if |kept| != |data.fileMarks| {
        Write(data.(fileMarks := kept));
      }
    }

    /** Never touches a file that exists, and writes none for nothing. */
    method MigrateFromLegacy(marks: seq<Mark>, nameRules: seq<Rule>, pathRules: seq<Rule>)
      modifies this
      ensures old(contents).Some? ==> contents == old(contents)
      ensures old(contents).None? && Clean(Data(marks, nameRules, pathRules, []))
          ==> Stored() == Data(marks, nameRules, pathRules, [])
      ensures marks == [] && nameRules == [] && pathRules == [] ==> contents == old(contents)
    {
      if contents.Some? { return; }
      if marks == [] && nameRules == [] && pathRules == [] { return; }
      Write(Data(marks, nameRules, pathRules, []));
    }
  }

  lemma NextIdInRange(rs: seq<Rule>)
    requires forall i | 0 <= i < |rs| :: CleanRule(rs[i])
    ensures NextId(rs) >= I64_MIN
  {
    if rs != [] { MaxIsThere(rs); }
  }

  lemma {:induction false} MaxIsThere(rs: seq<Rule>)
    requires rs != []
    ensures MaxId(rs).Some? && exists i | 0 <= i < |rs| :: rs[i].id == MaxId(rs).value
    decreases |rs|
  {
    var last := |rs| - 1;
    if last > 0 {
      MaxIsThere(rs[..last]);
      var i :| 0 <= i < last && rs[..last][i].id == MaxId(rs[..last]).value;
      assert rs[i].id == MaxId(rs[..last]).value;
    }
    assert rs[last].id == rs[last].id;
  }
}
