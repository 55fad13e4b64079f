/**
 Which usrs are external, and why: rules, file marks, calls into functions
 nobody defines, and the user's own marks, which win over everything else.
 */
module Externals {
  import opened Wrappers
  import opened Strings
  import opened ExternalsText

  /** A type or function by its usr, its qualified name and its file. */
  datatype Item = Item(usr: string, name: string, file: string)
  datatype FunctionItem = FunctionItem(item: Item, hasDefinition: bool)

  /** The regex engine: which patterns compile, and what they match. */
  datatype Regex = Regex(compiles: string -> bool, matches: (string, string) -> bool)

  /** `calls` lists the callees of the resolved call edges. */
  datatype Inputs = Inputs(types: seq<Item>, functions: seq<FunctionItem>, calls: seq<string>,
                           nameRules: seq<Rule>, pathRules: seq<Rule>, fileMarks: seq<FileMark>, marks: seq<Mark>)

  datatype Source =
    | ManualInclude | ManualExclude
    | NameRegex(pattern: string) | PathRegex(pattern: string) | MarkedFile(file: string)
    | AutoUndefinedFunction

  datatype Status = Status(usr: string, effective: bool, sources: seq<Source>)

  // ----- the formula -----

  predicate Defines(functions: seq<FunctionItem>, u: string) {
    exists f | f in functions :: f.hasDefinition && f.item.usr == u
  }

  function AutoUndefined(x: Inputs): set<string> {
    set u | u in x.calls && !Defines(x.functions, u)
  }

  /** The types and functions there are. */
  function Items(x: Inputs): seq<Item> {
    x.types + FunctionItems(x.functions)
  }

  function FunctionItems(fs: seq<FunctionItem>): (r: seq<Item>)
    ensures |r| == |fs| && forall i | 0 <= i < |fs| :: r[i] == fs[i].item
  {
    seq(|fs|, i requires 0 <= i < |fs| => fs[i].item)
  }

  predicate MarksFile(x: Inputs, file: string) {
    exists m | m in x.fileMarks :: m.file == file
  }

  predicate HasRule(rules: seq<Rule>, pattern: string) {
    exists r | r in rules :: r.pattern == pattern
  }

  /** Why `u` is or would be external. */
  predicate Applies(re: Regex, x: Inputs, u: string, s: Source) {
    match s
    case ManualInclude => exists m | m in x.marks :: m.usr == u && m.external
    case ManualExclude => exists m | m in x.marks :: m.usr == u && !m.external
    case NameRegex(p) =>
      HasRule(x.nameRules, p) && re.compiles(p) && exists i | i in Items(x) :: i.usr == u && re.matches(p, i.name)
    case PathRegex(p) =>
      HasRule(x.pathRules, p) && re.compiles(p) && exists i | i in Items(x) :: i.usr == u && re.matches(p, i.file)
    case MarkedFile(f) => MarksFile(x, f) && exists i | i in Items(x) :: i.usr == u && i.file == f
    case AutoUndefinedFunction => u in AutoUndefined(x)
  }

  predicate Manual(s: Source) {
    s.ManualInclude? || s.ManualExclude?
  }

  /** The last of several marks counts. */
  function LastMark(marks: seq<Mark>, u: string): Option<bool> {
    if marks == [] then None
    else if marks[|marks| - 1].usr == u then Some(marks[|marks| - 1].external)
    else LastMark(marks[..|marks| - 1], u)
  }

  ghost predicate Effective(re: Regex, x: Inputs, u: string) {
    match LastMark(x.marks, u)
    case Some(forced) => forced
    case None => exists s :: !Manual(s) && Applies(re, x, u, s)
  }

  /** More rules, marked files or calls, never turn an external usr into one that is not. */
  lemma MoreReasonsKeepExternal(re: Regex, x: Inputs, y: Inputs, u: string)
    requires y.types == x.types && y.functions == x.functions && y.marks == x.marks
    requires forall r | r in x.nameRules :: r in y.nameRules
    requires forall r | r in x.pathRules :: r in y.pathRules
    requires forall m | m in x.fileMarks :: m in y.fileMarks
    requires forall c | c in x.calls :: c in y.calls
    requires Effective(re, x, u)
    ensures Effective(re, y, u)
  {
    if LastMark(x.marks, u).None? {
      var s :| !Manual(s) && Applies(re, x, u, s);
      assert Items(x) == Items(y);
      assert Applies(re, y, u, s);
    }
  }

  // ----- noting sources -----

  type Note = (string, Source)

  function RuleNotes(re: Regex, rules: seq<Rule>, ofNames: bool, i: Item): seq<Note> {
    if rules == [] then []
    else
      var p := rules[0].pattern;
      (if re.compiles(p) && re.matches(p, if ofNames then i.name else i.file)
       then [(i.usr, if ofNames then NameRegex(p) else PathRegex(p))] else [])
      + RuleNotes(re, rules[1..], ofNames, i)
  }

  function ItemNotes(re: Regex, x: Inputs, i: Item): seq<Note> {
    RuleNotes(re, x.nameRules, true, i) + RuleNotes(re, x.pathRules, false, i)
    + if MarksFile(x, i.file) then [(i.usr, MarkedFile(i.file))] else []
  }

  function FunctionNotes(re: Regex, x: Inputs, f: FunctionItem): seq<Note> {
    ItemNotes(re, x, f.item) + if f.item.usr in AutoUndefined(x) then [(f.item.usr, AutoUndefinedFunction)] else []
  }

  function TypesNotes(re: Regex, x: Inputs, types: seq<Item>): seq<Note> {
    if types == [] then [] else ItemNotes(re, x, types[0]) + TypesNotes(re, x, types[1..])
  }

  function FunctionsNotes(re: Regex, x: Inputs, fs: seq<FunctionItem>): seq<Note> {
    if fs == [] then [] else FunctionNotes(re, x, fs[0]) + FunctionsNotes(re, x, fs[1..])
  }

  function MarkNotes(marks: seq<Mark>): seq<Note> {
    if marks == [] then []
    else [(marks[0].usr, if marks[0].external then ManualInclude else ManualExclude)] + MarkNotes(marks[1..])
  }

  lemma {:induction false} RuleNotesAre(re: Regex, rules: seq<Rule>, ofNames: bool, i: Item, u: string, s: Source)
    ensures (u, s) in RuleNotes(re, rules, ofNames, i) <==>
      u == i.usr && (if ofNames then s.NameRegex? else s.PathRegex?) && HasRule(rules, s.pattern)
      && re.compiles(s.pattern) && re.matches(s.pattern, if ofNames then i.name else i.file)
    decreases |rules|
  {
    if rules != [] {
      RuleNotesAre(re, rules[1..], ofNames, i, u, s);
      assert rules == [rules[0]] + rules[1..];
      if s.NameRegex? || s.PathRegex? {
        assert HasRule(rules, s.pattern) <==> rules[0].pattern == s.pattern || HasRule(rules[1..], s.pattern) by {
          assert rules[0] in rules;
        }
      }
    }
  }

  /** What one item can be external for. */
  predicate ItemApplies(re: Regex, x: Inputs, i: Item, s: Source) {
    match s
    case NameRegex(p) => HasRule(x.nameRules, p) && re.compiles(p) && re.matches(p, i.name)
    case PathRegex(p) => HasRule(x.pathRules, p) && re.compiles(p) && re.matches(p, i.file)
    case MarkedFile(f) => MarksFile(x, f) && i.file == f
    case _ => false
  }

  lemma ItemNotesAre(re: Regex, x: Inputs, i: Item, u: string, s: Source)
    ensures (u, s) in ItemNotes(re, x, i) <==> u == i.usr && ItemApplies(re, x, i, s)
  {
    RuleNotesAre(re, x.nameRules, true, i, u, s);
    RuleNotesAre(re, x.pathRules, false, i, u, s);
  }

  lemma {:induction false} TypesNotesAre(re: Regex, x: Inputs, types: seq<Item>, u: string, s: Source)
    ensures (u, s) in TypesNotes(re, x, types) <==> exists i | i in types :: i.usr == u && ItemApplies(re, x, i, s)
    decreases |types|
  {
    if types != [] {
      ItemNotesAre(re, x, types[0], u, s);
      TypesNotesAre(re, x, types[1..], u, s);
      assert types == [types[0]] + types[1..] && types[0] in types;
    }
  }

  lemma {:induction false} FunctionsNotesAre(re: Regex, x: Inputs, fs: seq<FunctionItem>, u: string, s: Source)
    ensures (u, s) in FunctionsNotes(re, x, fs) <==>
      exists f | f in fs :: f.item.usr == u && (ItemApplies(re, x, f.item, s)
                                                || (s.AutoUndefinedFunction? && u in AutoUndefined(x)))
    decreases |fs|
  {
    if fs != [] {
      ItemNotesAre(re, x, fs[0].item, u, s);
      FunctionsNotesAre(re, x, fs[1..], u, s);
      assert fs == [fs[0]] + fs[1..] && fs[0] in fs;
    }
  }

  lemma {:induction false} MarkNotesAre(marks: seq<Mark>, u: string, s: Source)
    ensures (u, s) in MarkNotes(marks) <==>
      Manual(s) && exists m | m in marks :: m.usr == u && m.external == s.ManualInclude?
    decreases |marks|
  {
    if marks != [] {
      MarkNotesAre(marks[1..], u, s);
      assert marks == [marks[0]] + marks[1..] && marks[0] in marks;
    }
  }

  lemma ItemsSplit(x: Inputs, u: string)
    ensures forall i :: i in Items(x) <==> i in x.types || exists f | f in x.functions :: f.item == i
  {
    var fi := FunctionItems(x.functions);
    forall i ensures i in fi <==> exists f | f in x.functions :: f.item == i {
      if i in fi { var k :| 0 <= k < |fi| && fi[k] == i; assert x.functions[k] in x.functions; }
      if exists f | f in x.functions :: f.item == i {
        var f :| f in x.functions && f.item == i;
        var k :| 0 <= k < |x.functions| && x.functions[k] == f;
        assert fi[k] == i;
      }
    }
  }

  /** The notes taken are exactly the sources that apply. */
  lemma NotesAreTheFormula(re: Regex, x: Inputs, u: string, s: Source)
    ensures Applies(re, x, u, s) <==>
      || (u, s) in TypesNotes(re, x, x.types) || (u, s) in FunctionsNotes(re, x, x.functions)
      || (s.AutoUndefinedFunction? && u in AutoUndefined(x)) || (u, s) in MarkNotes(x.marks)
  {
    TypesNotesAre(re, x, x.types, u, s);
    FunctionsNotesAre(re, x, x.functions, u, s);
    MarkNotesAre(x.marks, u, s);
    ItemsSplit(x, u);
  }

  // ----- sorted sources -----

  /** Sources are ordered by kind, then by text; the key spells that order out. */
  function SourceKey(s: Source): string {
    match s
    case ManualInclude => "0"
    case ManualExclude => "1"
    case NameRegex(p) => "2" + p
    case PathRegex(p) => "3" + p
    case MarkedFile(f) => "4" + f
    case AutoUndefinedFunction => "5"
  }

  lemma SourceKeyInjective(a: Source, b: Source)
    requires SourceKey(a) == SourceKey(b)
    ensures a == b
  {
    assert SourceKey(a)[0] == SourceKey(b)[0] && SourceKey(a)[1..] == SourceKey(b)[1..];
  }

  /** Drops what repeats its predecessor. */
  function Dedup(s: seq<Source>): seq<Source> {
    if |s| <= 1 then s
    else
      var last := |s| - 1;
      if s[last] == s[last - 1] then Dedup(s[..last]) else Dedup(s[..last]) + [s[last]]
  }

  lemma {:induction false} DedupKeeps(s: seq<Source>)
    ensures SameElements(Dedup(s), s)
    ensures s != [] ==> Dedup(s) != [] && Dedup(s)[|Dedup(s)| - 1] == s[|s| - 1]
    decreases |s|
  {
    if |s| > 1 {
      var last := |s| - 1;
      assert s == s[..last] + [s[last]];
      DedupKeeps(s[..last]);
    }
  }

  lemma {:induction false} DedupSorts(s: seq<Source>)
    requires WeaklySortedBy(SourceKey, s)
    ensures SortedBy(SourceKey, Dedup(s))
    decreases |s|
  {
    if |s| > 1 {
      var last := |s| - 1;
      DedupSorts(s[..last]);
      DedupKeeps(s[..last]);
      var d := Dedup(s[..last]);
      if s[last] != s[last - 1] {
        if SourceKey(s[last]) == SourceKey(s[last - 1]) { SourceKeyInjective(s[last], s[last - 1]); }
        LessTotal(SourceKey(s[last]), SourceKey(s[last - 1]));
        forall i | 0 <= i < |d| ensures Less(SourceKey(d[i]), SourceKey(s[last])) {
          if i < |d| - 1 { LessTransitive(SourceKey(d[i]), SourceKey(s[last - 1]), SourceKey(s[last])); }
        }
      }
    }
  }

  function Tidy(s: seq<Source>): seq<Source> {
    Dedup(SortStable(SourceKey, s))
  }

  lemma TidyKeeps(s: seq<Source>)
    ensures SortedBy(SourceKey, Tidy(s)) && SameElements(Tidy(s), s)
  {
    SortedStable(SourceKey, s, "");
    var sorted := SortStable(SourceKey, s);
    DedupSorts(sorted);
    DedupKeeps(sorted);
    forall x ensures x in sorted <==> x in s { assert x in multiset(sorted) <==> x in multiset(s); }
  }

  // ----- the computation -----

  function Get(m: map<string, seq<Source>>, u: string): seq<Source> {
    if u in m then m[u] else []
  }

  /** The map holds what was noted, and no usr without a source. */
  ghost predicate Holds(m: map<string, seq<Source>>, notes: seq<Note>) {
    && (forall u, s :: s in Get(m, u) <==> (u, s) in notes)
    && (forall u | u in m :: m[u] != [])
  }

  method TakeNotes(m: map<string, seq<Source>>, notes: seq<Note>, ghost before: seq<Note>)
      returns (r: map<string, seq<Source>>)
    requires Holds(m, before)
    ensures Holds(r, before + notes)
  {
    r := m;
    assert before + notes[..0] == before;
    for i := 0 to |notes|
      invariant Holds(r, before + notes[..i])
    {
      var (u, s) := notes[i];
      assert before + notes[..i + 1] == (before + notes[..i]) + [notes[i]];
      r := r[u := Get(r, u) + [s]];
    }
    assert notes[..|notes|] == notes;
  }

  method NoteTypes(re: Regex, x: Inputs) returns (m: map<string, seq<Source>>)
    ensures Holds(m, TypesNotes(re, x, x.types))
  {
    m := map[];
    ghost var notes: seq<Note> := [];
    for i := 0 to |x.types|
      invariant Holds(m, notes) && notes + TypesNotes(re, x, x.types[i..]) == TypesNotes(re, x, x.types)
    {
      var taken := ItemNotes(re, x, x.types[i]);
      assert x.types[i..][0] == x.types[i] && x.types[i..][1..] == x.types[i + 1..];
      m := TakeNotes(m, taken, notes);
      notes := notes + taken;
    }
    assert x.types[|x.types|..] == [];
    assert notes == TypesNotes(re, x, x.types);
  }

  method NoteFunctions(re: Regex, x: Inputs, m: map<string, seq<Source>>, ghost before: seq<Note>)
      returns (r: map<string, seq<Source>>)
    requires Holds(m, before)
    ensures Holds(r, before + FunctionsNotes(re, x, x.functions))
  {
    r := m;
    ghost var notes := before;
    for i := 0 to |x.functions|
      invariant Holds(r, notes) && notes + FunctionsNotes(re, x, x.functions[i..])
          == before + FunctionsNotes(re, x, x.functions)
    {
      var taken := FunctionNotes(re, x, x.functions[i]);
      assert x.functions[i..][0] == x.functions[i] && x.functions[i..][1..] == x.functions[i + 1..];
      r := TakeNotes(r, taken, notes);
      notes := notes + taken;
    }
    assert x.functions[|x.functions|..] == [];
    assert notes == before + FunctionsNotes(re, x, x.functions);
  }

  method NoteUndefined(undefined: set<string>, m: map<string, seq<Source>>, ghost before: seq<Note>)
      returns (r: map<string, seq<Source>>, ghost notes: seq<Note>)
    requires Holds(m, before)
    ensures Holds(r, notes)
    ensures forall u, s :: (u, s) in notes <==> (u, s) in before || (s.AutoUndefinedFunction? && u in undefined)
  {
    r, notes := m, before;
    var left := undefined;
    while left != {}
      invariant left <= undefined && Holds(r, notes)
      invariant forall u, s ::
        (u, s) in notes <==> (u, s) in before || (s.AutoUndefinedFunction? && u in undefined - left)
      decreases |left|
    {
      var u :| u in left;
      left := left - {u};
      r := TakeNotes(r, [(u, AutoUndefinedFunction)], notes);
      notes := notes + [(u, AutoUndefinedFunction)];
    }
  }

  method CollectSources(re: Regex, x: Inputs) returns (m: map<string, seq<Source>>, ghost notes: seq<Note>)
    ensures Holds(m, notes)
    ensures forall u, s :: (u, s) in notes <==> Applies(re, x, u, s)
  {
    m := NoteTypes(re, x);
    m := NoteFunctions(re, x, m, TypesNotes(re, x, x.types));
    m, notes := NoteUndefined(AutoUndefined(x), m, TypesNotes(re, x, x.types) + FunctionsNotes(re, x, x.functions));
    m := TakeNotes(m, MarkNotes(x.marks), notes);
    notes := notes + MarkNotes(x.marks);
    forall u, s ensures (u, s) in notes <==> Applies(re, x, u, s) { NotesAreTheFormula(re, x, u, s); }
  }

  /** One status per usr with any source, in usr order; its sources are exactly those that apply,
      in order and once each; its verdict is the formula's. */
  ghost predicate IsStatus(re: Regex, x: Inputs, st: Status) {
    && (exists s :: Applies(re, x, st.usr, s))
    && SortedBy(SourceKey, st.sources) && (forall s :: s in st.sources <==> Applies(re, x, st.usr, s))
    && (st.effective <==> Effective(re, x, st.usr))
  }

  function StatusUsr(st: Status): string { st.usr }

  method ManualByUsr(marks: seq<Mark>) returns (m: map<string, bool>)
    ensures forall u :: LastMark(marks, u) == if u in m then Some(m[u]) else None
  {
    m := map[];
    for i := 0 to |marks|
      invariant forall u :: LastMark(marks[..i], u) == if u in m then Some(m[u]) else None
    {
      assert marks[..i + 1][..i] == marks[..i];
      m := m[marks[i].usr := marks[i].external];
    }
    assert marks[..|marks|] == marks;
  }

  /** The statuses of some usrs, in any order. */
  ghost predicate Gathered(re: Regex, x: Inputs, statuses: seq<Status>, usrs: set<string>) {
    && DistinctBy(StatusUsr, statuses)
    && (forall i | 0 <= i < |statuses| :: IsStatus(re, x, statuses[i]))
    && (forall u :: u in usrs <==> exists i | 0 <= i < |statuses| :: statuses[i].usr == u)
  }

  lemma GatherOne(re: Regex, x: Inputs, statuses: seq<Status>, usrs: set<string>, st: Status)
    requires Gathered(re, x, statuses, usrs) && st.usr !in usrs && IsStatus(re, x, st)
    ensures Gathered(re, x, statuses + [st], usrs + {st.usr})
  {
    var more := statuses + [st];
    forall i | 0 <= i < |statuses| ensures more[i].usr != st.usr { assert statuses[i].usr in usrs; }
    forall u ensures u in usrs + {st.usr} <==> exists i | 0 <= i < |more| :: more[i].usr == u {
      if u == st.usr {
        assert more[|statuses|].usr == u;
      } else if u in usrs {
        var i :| 0 <= i < |statuses| && statuses[i].usr == u;
        assert more[i].usr == u;
      }
    }
  }

  ghost predicate Complete(re: Regex, x: Inputs, u: string, raw: seq<Source>) {
    raw != [] && forall s :: s in raw <==> Applies(re, x, u, s)
  }

  method Judge(re: Regex, x: Inputs, manual: map<string, bool>, u: string, raw: seq<Source>) returns (st: Status)
    requires Complete(re, x, u, raw) && LastMark(x.marks, u) == if u in manual then Some(manual[u]) else None
    ensures st.usr == u && IsStatus(re, x, st)
  {
    var tidy := Tidy(raw);
    var nonManual := exists s | s in tidy :: !Manual(s);
    st := Status(u, if u in manual then manual[u] else nonManual, tidy);
    StatusIsRight(re, x, st, raw);
  }

  lemma HeldIsComplete(re: Regex, x: Inputs, sources: map<string, seq<Source>>, notes: seq<Note>, u: string)
    requires Holds(sources, notes) && u in sources && forall s :: (u, s) in notes <==> Applies(re, x, u, s)
    ensures Complete(re, x, u, sources[u])
  {
    forall s ensures s in sources[u] <==> Applies(re, x, u, s) { assert s in Get(sources, u) <==> (u, s) in notes; }
  }

  method JudgeAll(re: Regex, x: Inputs, sources: map<string, seq<Source>>) returns (statuses: seq<Status>)
    requires forall u | u in sources :: Complete(re, x, u, sources[u])
    ensures Gathered(re, x, statuses, sources.Keys)
  {
    var manual: map<string, bool> := ManualByUsr(x.marks);
    statuses := [];
    var left := sources.Keys;
    while left != {}
      invariant left <= sources.Keys && Gathered(re, x, statuses, sources.Keys - left)
      decreases |left|
    {
      var u :| u in left;
      var st := Judge(re, x, manual, u, sources[u]);
      GatherOne(re, x, statuses, sources.Keys - left, st);
      assert sources.Keys - (left - {u}) == sources.Keys - left + {u};
      left := left - {u};
      statuses := statuses + [st];
    }
    assert sources.Keys - {} == sources.Keys;
  }

  method EffectiveExternalSet(re: Regex, x: Inputs) returns (statuses: seq<Status>)
    ensures SortedBy(StatusUsr, statuses)
    ensures forall i | 0 <= i < |statuses| :: IsStatus(re, x, statuses[i])
    ensures forall u, s | Applies(re, x, u, s) :: exists i | 0 <= i < |statuses| :: statuses[i].usr == u
  {
    var sources: map<string, seq<Source>>;
    ghost var notes: seq<Note>;
    sources, notes := CollectSources(re, x);
    forall u | u in sources ensures Complete(re, x, u, sources[u]) { HeldIsComplete(re, x, sources, notes, u); }
    var unsorted := JudgeAll(re, x, sources);
    statuses := SortDistinct(StatusUsr, unsorted);
    forall i | 0 <= i < |statuses| ensures IsStatus(re, x, statuses[i]) {
      assert statuses[i] in statuses;
      assert statuses[i] in unsorted;
    }
    forall u, s | Applies(re, x, u, s) ensures exists i | 0 <= i < |statuses| :: statuses[i].usr == u {
      assert (u, s) in notes;
      assert s in Get(sources, u);
      var i :| 0 <= i < |unsorted| && unsorted[i].usr == u;
      assert unsorted[i] in statuses;
    }
  }

  lemma StatusIsRight(re: Regex, x: Inputs, st: Status, raw: seq<Source>)
    requires raw != [] && forall s :: s in raw <==> Applies(re, x, st.usr, s)
    requires st.sources == Tidy(raw)
    requires st.effective <==> match LastMark(x.marks, st.usr)
                               case Some(forced) => forced
                               case None => exists s | s in st.sources :: !Manual(s)
    ensures IsStatus(re, x, st)
  {
    TidyKeeps(raw);
    assert raw[0] in raw;
  }
}
