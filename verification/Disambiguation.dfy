/**
 Records that share a bare name: each is given a name of its own, qualified by
 its namespace and if need be by an ordinal, and every mention follows.
 */
module Disambiguation {
  import opened Wrappers
  import opened Ir
  import opened Strings
  import opened Visitor
  import opened Everywhere
  import Fusion

  // ----- names -----

  /** `upper` is the (possibly longer) upper-case form of a letter. */
  type Upper = char -> string

  /** The text up to the first `::`, and what follows it. */
  function Segment(ns: string): (r: (string, Option<string>))
    ensures r.1.Some? ==> |r.1.value| < |ns|
  {
    if |ns| >= 2 && ns[..2] == "::" then ("", Some(ns[2..]))
    else if ns == "" then ("", None)
    else var rest := Segment(ns[1..]); ([ns[0]] + rest.0, rest.1)
  }

  function Capitalized(upper: Upper, segment: string): string {
    if segment == "" then "" else upper(segment[0]) + segment[1..]
  }

  function PascalCase(upper: Upper, ns: string): string
    decreases |ns|
  {
    var s := Segment(ns);
    Capitalized(upper, s.0) + if s.1.Some? then PascalCase(upper, s.1.value) else ""
  }

  /** No `::` starts in it before `end`. */
  ghost predicate NoSeparator(s: string, end: int) {
    forall i | 0 <= i < end && i + 1 < |s| :: !(s[i] == ':' && s[i + 1] == ':')
  }

  lemma NoneInTail(s: string, end: int)
    requires s != "" && NoSeparator(s, end)
    ensures NoSeparator(s[1..], end - 1)
  {
    forall i | 0 <= i < end - 1 && i + 1 < |s[1..]| ensures !(s[1..][i] == ':' && s[1..][i + 1] == ':') {
      assert !(s[i + 1] == ':' && s[i + 1 + 1] == ':');
    }
  }

  lemma {:induction false} SegmentEnds(s: string, rest: string)
    requires NoSeparator(s + "::" + rest, |s|)
    ensures Segment(s + "::" + rest) == (s, Some(rest))
    decreases |s|
  {
    var t := s + "::" + rest;
    if s == "" {
      assert t[..2] == "::" && t[2..] == rest;
    } else {
      assert t[1..] == s[1..] + "::" + rest;
      assert !(t[0] == ':' && t[1] == ':');
      NoneInTail(t, |s|);
      SegmentEnds(s[1..], rest);
      assert s == [s[0]] + s[1..];
    }
  }

  lemma {:induction false} SegmentIsAll(s: string)
    requires NoSeparator(s, |s|)
    ensures Segment(s) == (s, None)
    decreases |s|
  {
    if s != "" {
      NoneInTail(s, |s|);
      SegmentIsAll(s[1..]);
      assert s == [s[0]] + s[1..];
    }
  }

  /** A namespace is the text up to its first `::`, capitalized, and then the rest likewise; these
      two laws cover every namespace. */
  lemma PascalCaseBySegments(upper: Upper, segment: string, rest: string)
    ensures NoSeparator(segment, |segment|) ==> (
              PascalCase(upper, segment) == if segment == "" then "" else upper(segment[0]) + segment[1..])
    ensures NoSeparator(segment + "::" + rest, |segment|) ==> (
              PascalCase(upper, segment + "::" + rest)
              == (if segment == "" then "" else upper(segment[0]) + segment[1..]) + PascalCase(upper, rest))
  {
    if NoSeparator(segment, |segment|) {
      SegmentIsAll(segment);
      assert PascalCase(upper, segment) == Capitalized(upper, segment) + "";
    }
    if NoSeparator(segment + "::" + rest, |segment|) { SegmentEnds(segment, rest); }
  }

  function Candidate(upper: Upper, r: Record): string {
    if r.namespace == "" then r.name else PascalCase(upper, r.namespace) + r.name
  }

  /** How often a text occurs. */
  function Count(texts: seq<string>, text: string): nat {
    if texts == [] then 0 else Count(texts[..|texts| - 1], text) + if texts[|texts| - 1] == text then 1 else 0
  }

  /** The k-th of several candidates, with an ordinal if earlier ones were the same. */
  function Numbered(candidates: seq<string>, k: nat): string
    requires k < |candidates|
  {
    candidates[k] + Ordinal(Count(candidates[..k], candidates[k]))
  }

  lemma {:induction false} CountGrows(texts: seq<string>, i: nat, j: nat, text: string)
    requires i < j <= |texts| && texts[i] == text
    ensures Count(texts[..i], text) < Count(texts[..j], text)
    decreases j
  {
    var shorter := texts[..j];
    assert shorter[..j - 1] == texts[..j - 1];
    if i < j - 1 { CountGrows(texts, i, j - 1, text); }
  }

  /** Candidates built from one bare name that is not all digits: the final names all differ. */
  lemma NumberedDistinct(candidates: seq<string>, bare: string, j: nat, k: nat)
    requires j < k < |candidates| && !AllDigits(bare)
    requires EndsWith(candidates[j], bare) && EndsWith(candidates[k], bare)
    ensures Numbered(candidates, j) != Numbered(candidates, k)
  {
    var a, b := candidates[j], candidates[k];
    var m, n := Count(candidates[..j], a), Count(candidates[..k], b);
    OrdinalDigits(m);
    OrdinalDigits(n);
    CommonEnding(a, b, bare);
    CommonEnding(b, a, bare);
    AppendedEqual(a, Ordinal(m), b, Ordinal(n));
    if a == b {
      CountGrows(candidates, j, k, a);
      if Ordinal(m) == Ordinal(n) { OrdinalInjective(m, n); }
    }
  }

  lemma CandidateEnds(upper: Upper, r: Record)
    ensures EndsWith(Candidate(upper, r), r.name)
  {
    if r.namespace != "" {
      var p := PascalCase(upper, r.namespace);
      assert (p + r.name)[|p|..] == r.name;
    }
  }

  // ----- groups -----

  /** The places of the records of one bare name, in list order. */
  function Places(rs: seq<Record>, name: string): (r: seq<nat>)
    ensures forall k | 0 <= k < |r| :: r[k] < |rs| && rs[r[k]].name == name
    ensures forall j, k | 0 <= j < k < |r| :: r[j] < r[k]
    ensures forall i | 0 <= i < |rs| && rs[i].name == name :: i in r
  {
    if rs == [] then []
    else
      var last := |rs| - 1;
      Places(rs[..last], name) + if rs[last].name == name then [last] else []
  }

  function Candidates(upper: Upper, rs: seq<Record>, places: seq<nat>): (r: seq<string>)
    requires forall k | 0 <= k < |places| :: places[k] < |rs|
    ensures |r| == |places| && forall k | 0 <= k < |places| :: r[k] == Candidate(upper, rs[places[k]])
  {
    seq(|places|, k requires 0 <= k < |places| => Candidate(upper, rs[places[k]]))
  }

  /** The final name of the k-th record of a bare name. */
  function FinalName(upper: Upper, rs: seq<Record>, name: string, k: nat): string
    requires k < |Places(rs, name)|
  {
    var places := Places(rs, name);
    if |places| <= 1 then name else Numbered(Candidates(upper, rs, places), k)
  }

  /** Records sharing a bare name end up with pairwise distinct names, whatever their namespaces. */
  lemma FinalNamesDistinct(upper: Upper, rs: seq<Record>, name: string, j: nat, k: nat)
    requires j < k < |Places(rs, name)| && !AllDigits(name)
    ensures FinalName(upper, rs, name, j) != FinalName(upper, rs, name, k)
  {
    var places := Places(rs, name);
    CandidateEnds(upper, rs[places[j]]);
    CandidateEnds(upper, rs[places[k]]);
    NumberedDistinct(Candidates(upper, rs, places), name, j, k);
  }

  /** Records as lowering makes them: a record without a name is not lowered, and a C++ identifier
      does not start with a digit. */
  ghost predicate Lowered(rs: seq<Record>) {
    forall i | 0 <= i < |rs| :: rs[i].name != "" && !IsDigit(rs[i].name[0])
  }

  // ----- names over the whole module -----

  /** A final name is this and then the ordinal of `Repeat`. */
  function Stem(upper: Upper, rs: seq<Record>, name: string, k: nat): string
    requires k < |Places(rs, name)|
  {
    if |Places(rs, name)| <= 1 then name else Candidate(upper, rs[Places(rs, name)[k]])
  }

  function Repeat(upper: Upper, rs: seq<Record>, name: string, k: nat): nat
    requires k < |Places(rs, name)|
  {
    var places := Places(rs, name);
    if |places| <= 1 then 0 else Count(Candidates(upper, rs, places)[..k], Candidates(upper, rs, places)[k])
  }

  /** Equal stems with equal ordinals, or one stem is the other and then digits that run into an
      ordinal. */
  ghost predicate Meet(upper: Upper, rs: seq<Record>, name: string, j: nat, other: string, k: nat)
    requires j < |Places(rs, name)| && k < |Places(rs, other)|
  {
    var a, b := Stem(upper, rs, name, j), Stem(upper, rs, other, k);
    var x, y := Ordinal(Repeat(upper, rs, name, j)), Ordinal(Repeat(upper, rs, other, k));
    || (a == b && x == y)
    || (ExtendsByDigits(a, b) && x == b[|a|..] + y)
    || (ExtendsByDigits(b, a) && y == a[|b|..] + x)
  }

  lemma NamesMeetExactly(upper: Upper, rs: seq<Record>, name: string, j: nat, other: string, k: nat)
    requires j < |Places(rs, name)| && k < |Places(rs, other)|
    ensures FinalName(upper, rs, name, j) == FinalName(upper, rs, other, k) <==> Meet(upper, rs, name, j, other, k)
  {
    var a, b := Stem(upper, rs, name, j), Stem(upper, rs, other, k);
    var m, n := Repeat(upper, rs, name, j), Repeat(upper, rs, other, k);
    OrdinalDigits(m);
    OrdinalDigits(n);
    assert FinalName(upper, rs, name, j) == a + Ordinal(m);
    assert FinalName(upper, rs, other, k) == b + Ordinal(n);
    AppendedEqual(a, Ordinal(m), b, Ordinal(n));
  }

  /** Two places of the list, each given as the k-th record of a bare name. */
  ghost predicate TwoPlaces(rs: seq<Record>, name: string, j: nat, other: string, k: nat) {
    j < |Places(rs, name)| && k < |Places(rs, other)| && (name != other || j != k)
  }

  ghost predicate AllNamesDistinct(upper: Upper, rs: seq<Record>) {
    forall name, j: nat, other, k: nat | TwoPlaces(rs, name, j, other, k) ::
      FinalName(upper, rs, name, j) != FinalName(upper, rs, other, k)
  }

  ghost predicate NoGroupsMeet(upper: Upper, rs: seq<Record>) {
    forall name, j: nat, other, k: nat | TwoPlaces(rs, name, j, other, k) && name != other ::
      !Meet(upper, rs, name, j, other, k)
  }

  /** All records of a module end up with different names exactly when no two records of different
      bare names meet: the pass sees to each group and to nothing between groups. */
  lemma ModuleNamesDistinct(upper: Upper, rs: seq<Record>)
    requires Lowered(rs)
    ensures AllNamesDistinct(upper, rs) <==> NoGroupsMeet(upper, rs)
  {
    forall name, j: nat, other, k: nat | TwoPlaces(rs, name, j, other, k)
      ensures FinalName(upper, rs, name, j) == FinalName(upper, rs, other, k)
              <==> name != other && Meet(upper, rs, name, j, other, k)
    {
      NamesMeetExactly(upper, rs, name, j, other, k);
      if name == other {
        assert !AllDigits(name) by { assert rs[Places(rs, name)[j]].name == name; }
        if j < k { FinalNamesDistinct(upper, rs, name, j, k); } else { FinalNamesDistinct(upper, rs, name, k, j); }
      }
    }
  }

  /** And they can meet: `a::X`, `b::X` and `AX`. */
  lemma QualifiedMeetsBare(upper: Upper, rs: seq<Record>)
    requires |rs| == 3 && rs[0].name == rs[1].name == "X" && rs[2].name == "AX" && upper('a') == "A"
    requires rs[0].namespace == "a" && rs[1].namespace == "b"
    ensures Places(rs, "X") == [0, 1] && Places(rs, "AX") == [2]
    ensures FinalName(upper, rs, "X", 0) == FinalName(upper, rs, "AX", 0) == "AX"
  {
    PlacesOfThree(rs);
    SegmentIsAll("a");
    assert "a"[1..] == "" && PascalCase(upper, "a") == "A";
    var candidates := Candidates(upper, rs, [0, 1]);
    assert candidates[..0] == [] && candidates[0] == "A" + "X";
  }

  lemma PlacesOfThree(rs: seq<Record>)
    requires |rs| == 3 && rs[0].name == rs[1].name == "X" && rs[2].name == "AX"
    ensures Places(rs, "X") == [0, 1] && Places(rs, "AX") == [2]
  {
    assert rs[..3] == rs && rs[..0] == [] && "X" != "AX";
    assert Places(rs[..0], "X") == [] && Places(rs[..0], "AX") == [];
    PlacesStep(rs, 0, "X"); PlacesStep(rs, 1, "X"); PlacesStep(rs, 2, "X");
    PlacesStep(rs, 0, "AX"); PlacesStep(rs, 1, "AX"); PlacesStep(rs, 2, "AX");
  }

  /** Which renamings the pass asks for. */
  ghost predicate Asks(upper: Upper, rs: seq<Record>, renames: map<string, string>, name: string) {
    forall k | 0 <= k < |Places(rs, name)| ::
      var final := FinalName(upper, rs, name, k);
      Entry(renames, rs[Places(rs, name)[k]].usr) == if final == name then None else Some(final)
  }

  ghost predicate UsrsUnique(rs: seq<Record>) {
    forall i, j | 0 <= i < j < |rs| :: rs[i].usr != rs[j].usr
  }

  ghost predicate Grouped(rs: seq<Record>, groups: map<string, seq<nat>>) {
    forall name :: Places(rs, name) == if name in groups then groups[name] else []
  }

  lemma PlacesStep(rs: seq<Record>, i: nat, name: string)
    requires i < |rs|
    ensures Places(rs[..i + 1], name) == Places(rs[..i], name) + if rs[i].name == name then [i] else []
  {
    assert rs[..i + 1][..i] == rs[..i];
  }

  lemma GroupedStep(rs: seq<Record>, i: nat, groups: map<string, seq<nat>>)
    requires i < |rs| && Grouped(rs[..i], groups)
    ensures Grouped(rs[..i + 1], groups[rs[i].name := Places(rs[..i], rs[i].name) + [i]])
  {
    forall name ensures Places(rs[..i + 1], name) == Places(rs[..i], name) + if rs[i].name == name then [i] else [] {
      PlacesStep(rs, i, name);
    }
  }

  method GroupByName(rs: seq<Record>) returns (groups: map<string, seq<nat>>)
    ensures Grouped(rs, groups)
  {
    groups := map[];
    for i := 0 to |rs|
      invariant Grouped(rs[..i], groups)
    {
      var name := rs[i].name;
      GroupedStep(rs, i, groups);
      groups := groups[name := (if name in groups then groups[name] else []) + [i]];
    }
    assert rs[..|rs|] == rs;
  }

  ghost predicate Counted(texts: seq<string>, seen: map<string, nat>) {
    forall c :: Count(texts, c) == if c in seen then seen[c] else 0
  }

  lemma CountedStep(texts: seq<string>, k: nat, seen: map<string, nat>)
    requires k < |texts| && Counted(texts[..k], seen)
    ensures Counted(texts[..k + 1], seen[texts[k] := Count(texts[..k], texts[k]) + 1])
  {
    assert texts[..k + 1][..k] == texts[..k];
  }

  /** Numbers repeated candidates, counting what was seen before. */
  method NumberCandidates(candidates: seq<string>) returns (names: seq<string>)
    ensures |names| == |candidates| && forall k | 0 <= k < |candidates| :: names[k] == Numbered(candidates, k)
  {
    names := [];
    var seen: map<string, nat> := map[];
    for k := 0 to |candidates|
      invariant |names| == k && forall l | 0 <= l < k :: names[l] == Numbered(candidates, l)
      invariant Counted(candidates[..k], seen)
    {
      var c := candidates[k];
      var count := (if c in seen then seen[c] else 0) + 1;
      CountedStep(candidates, k, seen);
      assert count == Count(candidates[..k], c) + 1;
      seen := seen[c := count];
      assert c + "" == c;
      names := names + [if count > 1 then c + Numeral(count) else c];
    }
  }

  ghost predicate NamesRecords(rs: seq<Record>, renames: map<string, string>) {
    forall u | u in renames :: exists i | 0 <= i < |rs| :: rs[i].usr == u
  }

  method RecordRenames(upper: Upper, rs: seq<Record>) returns (renames: map<string, string>)
    requires UsrsUnique(rs)
    ensures forall name :: Asks(upper, rs, renames, name)
    ensures NamesRecords(rs, renames)
  {
    var groups: map<string, seq<nat>> := GroupByName(rs);
    renames := map[];
    var todo := groups.Keys;
    while todo != {}
      invariant todo <= groups.Keys
      invariant forall name | name !in todo :: Asks(upper, rs, renames, name)
      invariant forall name | name in todo :: Untouched(rs, renames, name)
      invariant NamesRecords(rs, renames)
      decreases |todo|
    {
      var name :| name in todo;
      todo := todo - {name};
      assert Places(rs, name) == groups[name];
      ghost var before := renames;
      if |groups[name]| > 1 {
        renames := RenameGroup(upper, rs, name, renames);
      }
      forall other | other != name
        ensures Asks(upper, rs, before, other) ==> Asks(upper, rs, renames, other)
        ensures Untouched(rs, before, other) ==> Untouched(rs, renames, other)
      {
        OthersKept(upper, rs, before, renames, name, other);
      }
    }
  }

  ghost predicate Untouched(rs: seq<Record>, renames: map<string, string>, name: string) {
    forall k | 0 <= k < |Places(rs, name)| :: rs[Places(rs, name)[k]].usr !in renames
  }

  ghost predicate SameElsewhere(rs: seq<Record>, before: map<string, string>, after: map<string, string>,
                                name: string) {
    forall i | 0 <= i < |rs| && rs[i].name != name :: Entry(after, rs[i].usr) == Entry(before, rs[i].usr)
  }

  lemma OthersKept(upper: Upper, rs: seq<Record>, before: map<string, string>, after: map<string, string>,
                   name: string, other: string)
    requires name != other && SameElsewhere(rs, before, after, name)
    ensures Asks(upper, rs, before, other) ==> Asks(upper, rs, after, other)
    ensures Untouched(rs, before, other) ==> Untouched(rs, after, other)
  {
    forall k | 0 <= k < |Places(rs, other)|
      ensures Entry(after, rs[Places(rs, other)[k]].usr) == Entry(before, rs[Places(rs, other)[k]].usr)
    {
    }
  }

  /** Enters the names that differ from the bare one. */
  method EnterNames(usrs: seq<string>, names: seq<string>, bare: string, renames: map<string, string>)
      returns (r: map<string, string>)
    requires |usrs| == |names| && (forall i, j | 0 <= i < j < |usrs| :: usrs[i] != usrs[j])
        && forall u | u in usrs :: u !in renames
    ensures forall k | 0 <= k < |usrs| :: Entry(r, usrs[k]) == if names[k] == bare then None else Some(names[k])
    ensures forall u | u !in usrs :: Entry(r, u) == Entry(renames, u)
  {
    r := renames;
    for k := 0 to |usrs|
      invariant forall l | 0 <= l < k :: Entry(r, usrs[l]) == if names[l] == bare then None else Some(names[l])
      invariant forall l | k <= l < |usrs| :: usrs[l] !in r
      invariant forall u | u !in usrs :: Entry(r, u) == Entry(renames, u)
    {
      if names[k] != bare {
        r := r[usrs[k] := names[k]];
      }
    }
  }

  function PlaceUsrs(rs: seq<Record>, places: seq<nat>): (r: seq<string>)
    requires forall k | 0 <= k < |places| :: places[k] < |rs|
    ensures |r| == |places| && forall k | 0 <= k < |places| :: r[k] == rs[places[k]].usr
  {
    seq(|places|, k requires 0 <= k < |places| => rs[places[k]].usr)
  }

  method RenameGroup(upper: Upper, rs: seq<Record>, name: string, renames: map<string, string>)
      returns (r: map<string, string>)
    requires UsrsUnique(rs) && |Places(rs, name)| > 1 && Untouched(rs, renames, name) && NamesRecords(rs, renames)
    ensures Asks(upper, rs, r, name) && SameElsewhere(rs, renames, r, name) && NamesRecords(rs, r)
  {
    var places := Places(rs, name);
    var names := NumberCandidates(Candidates(upper, rs, places));
    var usrs := PlaceUsrs(rs, places);
    r := EnterNames(usrs, names, name, renames);
    assert Asks(upper, rs, r, name) by {
      forall k | 0 <= k < |places| ensures Entry(r, rs[places[k]].usr) == Entry(r, usrs[k])
          && names[k] == FinalName(upper, rs, name, k) {
      }
    }
    OutsideGroup(rs, name);
    NamesStay(rs, Places(rs, name), renames, r);
  }

  lemma OutsideGroup(rs: seq<Record>, name: string)
    requires UsrsUnique(rs)
    ensures forall i | 0 <= i < |rs| && rs[i].name != name :: rs[i].usr !in PlaceUsrs(rs, Places(rs, name))
  {
    var usrs := PlaceUsrs(rs, Places(rs, name));
    forall i, k | 0 <= i < |rs| && rs[i].name != name && 0 <= k < |usrs| ensures usrs[k] != rs[i].usr {
      assert i != Places(rs, name)[k];
    }
  }

  lemma NamesStay(rs: seq<Record>, places: seq<nat>, renames: map<string, string>, r: map<string, string>)
    requires NamesRecords(rs, renames) && forall k | 0 <= k < |places| :: places[k] < |rs|
    requires forall u | u !in PlaceUsrs(rs, places) :: Entry(r, u) == Entry(renames, u)
    ensures NamesRecords(rs, r)
  {
    forall u | u in r ensures exists i | 0 <= i < |rs| :: rs[i].usr == u {
      if u in PlaceUsrs(rs, places) {
        var k :| 0 <= k < |places| && PlaceUsrs(rs, places)[k] == u;
        assert rs[places[k]].usr == u;
      } else {
        assert Entry(r, u) == Entry(renames, u);
      }
    }
  }

  // ----- every mention -----

  function RenamedType(renames: map<string, string>, t: Type): Type {
    if t.Record? && t.usr in renames then Type.Record(t.usr, renames[t.usr]) else t
  }

  function RenamedSite(renames: map<string, string>, usr: string, s: Site): Site {
    if usr in renames then s.(name := renames[usr]) else s
  }

  function RenamedCopy(renames: map<string, string>, e: Expr): Expr {
    if e.RecordCopy? && e.typeUsr in renames then RecordCopy(e.target, e.typeUsr, renames[e.typeUsr], e.origin) else e
  }

  /** Statement bodies: a record copy keeps its class name. */
  function BodyHooks(renames: map<string, string>): Hooks {
    Hooks(t => RenamedType(renames, t), (u, s) => RenamedSite(renames, u, s), SameExpr)
  }

  /** Parameter defaults and constructor initializers: a record copy is renamed too. */
  function ExprHooks(renames: map<string, string>): Hooks {
    Hooks(t => RenamedType(renames, t), (u, s) => RenamedSite(renames, u, s), e => RenamedCopy(renames, e))
  }

  /** Every record type in it, at any depth, has its final name. */
  predicate TypeFinal(renames: map<string, string>, t: Type)
    decreases t, 0
  {
    match t
    case Record(usr, name) => usr in renames ==> name == renames[usr]
    case List(e) => TypeFinal(renames, e)
    case Set(e) => TypeFinal(renames, e)
    case Nullable(e) => TypeFinal(renames, e)
    case ListCursor(e) => TypeFinal(renames, e)
    case Map(k, v) => TypeFinal(renames, k) && TypeFinal(renames, v)
    case Pair(a, b) => TypeFinal(renames, a) && TypeFinal(renames, b)
    case Callback(r, ps) => TypeFinal(renames, r) && TypesFinal(renames, ps)
    case Tuple(es) => TypesFinal(renames, es)
    case _ => true
  }

  predicate TypesFinal(renames: map<string, string>, ts: seq<Type>)
    decreases ts, 0
  {
    ts == [] || (TypeFinal(renames, ts[0]) && TypesFinal(renames, ts[1..]))
  }

  /** A construction names its class by the final name; so does a copy where `copies` asks. */
  predicate SiteFinal(renames: map<string, string>, copies: bool, e: Expr) {
    (e.RecordConstruct? || e.ConstructorCall? || (copies && e.RecordCopy?)) && e.typeUsr in renames
    ==> e.typeName == renames[e.typeUsr]
  }

  function Final(renames: map<string, string>, copies: bool): Check {
    Check(e => SiteFinal(renames, copies, e), t => TypeFinal(renames, t))
  }

  lemma {:induction false} TypesGetFinal(renames: map<string, string>, h: Hooks, t: Type)
    requires forall u :: h.onType(u) == RenamedType(renames, u)
    ensures TypeFinal(renames, VisitType(h, t))
    decreases t, 0
  {
    match t
    case List(e) => TypesGetFinal(renames, h, e);
    case Set(e) => TypesGetFinal(renames, h, e);
    case Nullable(e) => TypesGetFinal(renames, h, e);
    case ListCursor(e) => TypesGetFinal(renames, h, e);
    case Map(k, v) => TypesGetFinal(renames, h, k); TypesGetFinal(renames, h, v);
    case Pair(a, b) => TypesGetFinal(renames, h, a); TypesGetFinal(renames, h, b);
    case Callback(r, ps) => TypesGetFinal(renames, h, r); TypeListsGetFinal(renames, h, ps);
    case Tuple(es) => TypeListsGetFinal(renames, h, es);
    case _ =>
  }

  lemma {:induction false} TypeListsGetFinal(renames: map<string, string>, h: Hooks, ts: seq<Type>)
    requires forall u :: h.onType(u) == RenamedType(renames, u)
    ensures TypesFinal(renames, VisitTypes(h, ts))
    decreases ts, 0
  {
    if ts != [] {
      TypesGetFinal(renames, h, ts[0]); TypeListsGetFinal(renames, h, ts[1..]);
      assert VisitTypes(h, ts)[1..] == VisitTypes(h, ts[1..]);
    }
  }

  lemma BodiesEstablish(renames: map<string, string>)
    ensures Establishes(BodyHooks(renames), Final(renames, false))
  {
    var h, c := BodyHooks(renames), Final(renames, false);
    forall t ensures c.ty(VisitType(h, t)) { TypesGetFinal(renames, h, t); }
    forall e | Inside(c, VisitChildren(h, e)) ensures AllE(c, VisitExpr(h, e)) {
      ChildrenFinal(renames, h, e);
    }
  }

  lemma ExprsEstablish(renames: map<string, string>)
    ensures Establishes(ExprHooks(renames), Final(renames, true))
  {
    var h, c := ExprHooks(renames), Final(renames, true);
    forall t ensures c.ty(VisitType(h, t)) { TypesGetFinal(renames, h, t); }
    forall e | Inside(c, VisitChildren(h, e)) ensures AllE(c, VisitExpr(h, e)) {
      ChildrenFinal(renames, h, e);
      var v := VisitChildren(h, e);
      assert VisitExpr(h, e) == RenamedCopy(renames, v);
    }
  }

  lemma ChildrenFinal(renames: map<string, string>, h: Hooks, e: Expr)
    requires forall u, s :: h.onConstruct(u, s) == RenamedSite(renames, u, s)
    ensures SiteFinal(renames, false, VisitChildren(h, e))
  {
  }

  function RenamedBase(renames: map<string, string>, b: BaseClass): BaseClass {
    if b.usr in renames then b.(name := renames[b.usr]) else b
  }

  function RenamedBases(renames: map<string, string>, bs: seq<BaseClass>): (r: seq<BaseClass>)
    ensures |r| == |bs| && forall i | 0 <= i < |bs| :: r[i] == RenamedBase(renames, bs[i])
  {
    seq(|bs|, i requires 0 <= i < |bs| => RenamedBase(renames, bs[i]))
  }

  function RenamedFields(renames: map<string, string>, fs: seq<Field>): (r: seq<Field>)
    ensures |r| == |fs| && forall i | 0 <= i < |fs| :: r[i] == fs[i].(ty := VisitType(BodyHooks(renames), fs[i].ty))
  {
    seq(|fs|, i requires 0 <= i < |fs| => fs[i].(ty := VisitType(BodyHooks(renames), fs[i].ty)))
  }

  function RenamedInit(renames: map<string, string>, init: ConstructorInit): ConstructorInit {
    match init
    case FieldInit(n, v) => FieldInit(n, VisitExpr(ExprHooks(renames), v))
    case BaseInit(u, n, args) =>
      BaseInit(u, if u in renames then renames[u] else n, VisitExprs(ExprHooks(renames), args))
  }

  function RenamedInits(renames: map<string, string>, inits: seq<ConstructorInit>): (r: seq<ConstructorInit>)
    ensures |r| == |inits| && forall i | 0 <= i < |inits| :: r[i] == RenamedInit(renames, inits[i])
  {
    seq(|inits|, i requires 0 <= i < |inits| => RenamedInit(renames, inits[i]))
  }

  function RenamedConstructor(renames: map<string, string>, c: Constructor): Constructor {
    c.(params := VisitParams(ExprHooks(renames), c.params), inits := RenamedInits(renames, c.inits),
       body := VisitStmts(BodyHooks(renames), c.body))
  }

  function RenamedConstructors(renames: map<string, string>, cs: seq<Constructor>): (r: seq<Constructor>)
    ensures |r| == |cs| && forall i | 0 <= i < |cs| :: r[i] == RenamedConstructor(renames, cs[i])
  {
    seq(|cs|, i requires 0 <= i < |cs| => RenamedConstructor(renames, cs[i]))
  }

  function RenamedMethod(renames: map<string, string>, m: Method): Method {
    m.(returnType := VisitType(BodyHooks(renames), m.returnType), params := VisitParams(ExprHooks(renames), m.params),
       body := if m.body.Some? then Some(VisitStmts(BodyHooks(renames), m.body.value)) else None)
  }

  function RenamedMethods(renames: map<string, string>, ms: seq<Method>): (r: seq<Method>)
    ensures |r| == |ms| && forall i | 0 <= i < |ms| :: r[i] == RenamedMethod(renames, ms[i])
  {
    seq(|ms|, i requires 0 <= i < |ms| => RenamedMethod(renames, ms[i]))
  }

  function RenamedFunction(renames: map<string, string>, f: Function): Function {
    f.(returnType := VisitType(BodyHooks(renames), f.returnType), params := VisitParams(ExprHooks(renames), f.params),
       body := VisitStmts(BodyHooks(renames), f.body))
  }

  function RenamedRecord(renames: map<string, string>, r: Record): Record {
    r.(name := if r.usr in renames then renames[r.usr] else r.name,
       fields := RenamedFields(renames, r.fields), staticFields := RenamedFields(renames, r.staticFields),
       baseClass := if r.baseClass.Some? then Some(RenamedBase(renames, r.baseClass.value)) else None,
       mixins := RenamedBases(renames, r.mixins),
       constructors := RenamedConstructors(renames, r.constructors),
       methods := RenamedMethods(renames, r.methods),
       destructor := if r.destructor.Some? then Some(VisitStmts(BodyHooks(renames), r.destructor.value)) else None)
  }

  // ----- the mentions in a whole record or function -----

  ghost predicate BaseFinal(renames: map<string, string>, b: BaseClass) {
    b.usr in renames ==> b.name == renames[b.usr]
  }

  ghost predicate InitFinal(renames: map<string, string>, init: ConstructorInit) {
    match init
    case FieldInit(_, v) => AllE(Final(renames, true), v)
    case BaseInit(u, n, args) => (u in renames ==> n == renames[u]) && AllEs(Final(renames, true), args)
  }

  ghost predicate ConstructorFinal(renames: map<string, string>, c: Constructor) {
    && AllParams(Final(renames, true), c.params) && AllSs(Final(renames, false), c.body)
    && forall i | 0 <= i < |c.inits| :: InitFinal(renames, c.inits[i])
  }

  ghost predicate MethodFinal(renames: map<string, string>, m: Method) {
    && TypeFinal(renames, m.returnType) && AllParams(Final(renames, true), m.params)
    && (m.body.Some? ==> AllSs(Final(renames, false), m.body.value))
  }

  ghost predicate FunctionFinal(renames: map<string, string>, f: Function) {
    TypeFinal(renames, f.returnType) && AllParams(Final(renames, true), f.params)
        && AllSs(Final(renames, false), f.body)
  }

  ghost predicate RecordFinal(renames: map<string, string>, r: Record) {
    && (r.usr in renames ==> r.name == renames[r.usr])
    && (forall i | 0 <= i < |r.fields| :: TypeFinal(renames, r.fields[i].ty))
    && (forall i | 0 <= i < |r.staticFields| :: TypeFinal(renames, r.staticFields[i].ty))
    && (forall i | 0 <= i < |r.Bases()| :: BaseFinal(renames, r.Bases()[i]))
    && (forall i | 0 <= i < |r.constructors| :: ConstructorFinal(renames, r.constructors[i]))
    && (forall i | 0 <= i < |r.methods| :: MethodFinal(renames, r.methods[i]))
    && (r.destructor.Some? ==> AllSs(Final(renames, false), r.destructor.value))
  }

  lemma InitGetsFinal(renames: map<string, string>, init: ConstructorInit)
    ensures InitFinal(renames, RenamedInit(renames, init))
  {
    ExprsEstablish(renames);
    match init
    case FieldInit(_, v) => VisitedE(ExprHooks(renames), Final(renames, true), v);
    case BaseInit(_, _, args) => VisitedEs(ExprHooks(renames), Final(renames, true), args);
  }

  lemma ConstructorGetsFinal(renames: map<string, string>, c: Constructor)
    ensures ConstructorFinal(renames, RenamedConstructor(renames, c))
  {
    BodiesEstablish(renames);
    ExprsEstablish(renames);
    VisitedParams(ExprHooks(renames), Final(renames, true), c.params);
    VisitedSs(BodyHooks(renames), Final(renames, false), c.body);
    forall i | 0 <= i < |c.inits| ensures InitFinal(renames, RenamedInits(renames, c.inits)[i]) {
      InitGetsFinal(renames, c.inits[i]);
    }
  }

  lemma MethodGetsFinal(renames: map<string, string>, m: Method)
    ensures MethodFinal(renames, RenamedMethod(renames, m))
  {
    BodiesEstablish(renames);
    ExprsEstablish(renames);
    TypesGetFinal(renames, BodyHooks(renames), m.returnType);
    VisitedParams(ExprHooks(renames), Final(renames, true), m.params);
    if m.body.Some? { VisitedSs(BodyHooks(renames), Final(renames, false), m.body.value); }
  }

  lemma FunctionGetsFinal(renames: map<string, string>, f: Function)
    ensures FunctionFinal(renames, RenamedFunction(renames, f))
  {
    BodiesEstablish(renames);
    ExprsEstablish(renames);
    TypesGetFinal(renames, BodyHooks(renames), f.returnType);
    VisitedParams(ExprHooks(renames), Final(renames, true), f.params);
    VisitedSs(BodyHooks(renames), Final(renames, false), f.body);
  }

  /** Every record type at any depth, every base and every construction in a record carries its
      target's final name, whatever it was called before. */
  lemma RecordGetsFinal(renames: map<string, string>, r: Record)
    ensures RecordFinal(renames, RenamedRecord(renames, r))
  {
    var x := RenamedRecord(renames, r);
    var h := BodyHooks(renames);
    forall i | 0 <= i < |r.fields| ensures TypeFinal(renames, x.fields[i].ty) {
      TypesGetFinal(renames, h, r.fields[i].ty);
    }
    forall i | 0 <= i < |r.staticFields| ensures TypeFinal(renames, x.staticFields[i].ty) {
      TypesGetFinal(renames, h, r.staticFields[i].ty);
    }
    forall i | 0 <= i < |r.constructors| ensures ConstructorFinal(renames, x.constructors[i]) {
      ConstructorGetsFinal(renames, r.constructors[i]);
    }
    forall i | 0 <= i < |r.methods| ensures MethodFinal(renames, x.methods[i]) {
      MethodGetsFinal(renames, r.methods[i]);
    }
    if r.destructor.Some? {
      BodiesEstablish(renames);
      VisitedSs(h, Final(renames, false), r.destructor.value);
    }
  }

  /** The exception, exactly: a record copy in a body has the final name only if it was there already. */
  lemma CopiesInBodiesKeepTheirName(renames: map<string, string>, e: Expr)
    requires e.RecordCopy?
    ensures var x := VisitExpr(BodyHooks(renames), e);
            SiteFinal(renames, true, x) <==> (e.typeUsr in renames ==> e.typeName == renames[e.typeUsr])
  {
  }

  // ----- nothing else changes -----

  function Unnamed(): Hooks {
    Hooks((t: Type) => if t.Record? then Type.Record(t.usr, "") else t, (u, s: Site) => s.(name := ""),
          (e: Expr) => if e.RecordCopy? then RecordCopy(e.target, e.typeUsr, "", e.origin) else e)
  }

  /** Up to class names, a renamed body is the body. */
  lemma OnlyClassNamesChange(renames: map<string, string>, ss: seq<Stmt>)
    ensures VisitStmts(Unnamed(), VisitStmts(BodyHooks(renames), ss)) == VisitStmts(Unnamed(), ss)
  {
    BodiesCompose(renames);
    Fusion.FuseSs(BodyHooks(renames), Unnamed(), Unnamed(), ss);
  }

  /** The same of a default value or an initializer. */
  lemma OnlyClassNamesChangeIn(renames: map<string, string>, e: Expr)
    ensures VisitExpr(Unnamed(), VisitExpr(ExprHooks(renames), e)) == VisitExpr(Unnamed(), e)
  {
    var f, g := ExprHooks(renames), Unnamed();
    RespellsCopies(renames);
    Fusion.FuseE(f, g, g, e);
  }

  lemma RespellsCopies(renames: map<string, string>)
    ensures Fusion.Composed(ExprHooks(renames), Unnamed(), Unnamed())
  {
    ExprHooksRespell(renames);
    UnnamedRespells();
    SitesCompose(renames);
  }

  lemma BodiesCompose(renames: map<string, string>)
    ensures Fusion.Composed(BodyHooks(renames), Unnamed(), Unnamed())
  {
    BodyHooksRespell(renames);
    UnnamedRespells();
    var f, g := BodyHooks(renames), Unnamed();
    CopiedNames(renames);
    forall u, n, i ensures Fusion.Indexed(g, u, n, i)
        == Fusion.Indexed(g, u, Fusion.Indexed(f, u, n, i).0, Fusion.Indexed(f, u, n, i).1) {
      assert Fusion.Indexed(f, u, n, i).1 == i;
    }
    assert Fusion.SitesComposed(f, g, g);
  }

  lemma BodyHooksRespell(renames: map<string, string>)
    ensures Fusion.Respells(BodyHooks(renames))
  {
    forall u, n ensures Fusion.Copied(BodyHooks(renames), u, n) == n { }
  }

  lemma ExprHooksRespell(renames: map<string, string>)
    ensures Fusion.Respells(ExprHooks(renames))
  {
    CopiedNames(renames);
  }

  lemma UnnamedRespells()
    ensures Fusion.Respells(Unnamed())
  {
    CopiedNames(map[]);
  }

  lemma SitesCompose(renames: map<string, string>)
    ensures Fusion.SitesComposed(ExprHooks(renames), Unnamed(), Unnamed())
  {
    CopiedNames(renames);
    var f, g := ExprHooks(renames), Unnamed();
    forall u, n, i ensures Fusion.Indexed(g, u, n, i)
        == Fusion.Indexed(g, u, Fusion.Indexed(f, u, n, i).0, Fusion.Indexed(f, u, n, i).1) {
      assert Fusion.Indexed(f, u, n, i).1 == i;
    }
  }

  lemma CopiedNames(renames: map<string, string>)
    ensures forall u, n :: Fusion.Copied(ExprHooks(renames), u, n) == if u in renames then renames[u] else n
    ensures forall u, n :: Fusion.Copied(Unnamed(), u, n) == ""
  {
  }

  // ----- the pass -----

  function RenamedFunctions(renames: map<string, string>, fs: seq<Function>): (r: seq<Function>)
    ensures |r| == |fs| && forall i | 0 <= i < |fs| :: r[i] == RenamedFunction(renames, fs[i])
  {
    seq(|fs|, i requires 0 <= i < |fs| => RenamedFunction(renames, fs[i]))
  }

  function RenamedRecords(renames: map<string, string>, rs: seq<Record>): (r: seq<Record>)
    ensures |r| == |rs| && forall i | 0 <= i < |rs| :: r[i] == RenamedRecord(renames, rs[i])
  {
    seq(|rs|, i requires 0 <= i < |rs| => RenamedRecord(renames, rs[i]))
  }

  method RenameInFunctions(functions: array<Function>, renames: map<string, string>)
    modifies functions
    ensures functions[..] == RenamedFunctions(renames, old(functions[..]))
  {
    ghost var was := functions[..];
    for i := 0 to functions.Length
      invariant forall k | 0 <= k < i :: functions[k] == RenamedFunction(renames, was[k])
      invariant forall k | i <= k < functions.Length :: functions[k] == was[k]
    {
      functions[i] := RenamedFunction(renames, functions[i]);
    }
  }

  method RenameInRecords(records: array<Record>, renames: map<string, string>)
    modifies records
    ensures records[..] == RenamedRecords(renames, old(records[..]))
  {
    ghost var was := records[..];
    for i := 0 to records.Length
      invariant forall k | 0 <= k < i :: records[k] == RenamedRecord(renames, was[k])
      invariant forall k | i <= k < records.Length :: records[k] == was[k]
    {
      records[i] := RenamedRecord(renames, records[i]);
    }
  }

  method DisambiguateRecords(upper: Upper, functions: array<Function>, records: array<Record>)
      returns (ghost renames: map<string, string>)
    requires UsrsUnique(records[..])
    modifies functions, records
    ensures forall name :: Asks(upper, old(records[..]), renames, name)
    ensures renames == map[] ==> functions[..] == old(functions[..]) && records[..] == old(records[..])
    ensures renames != map[] ==> functions[..] == RenamedFunctions(renames, old(functions[..]))
    ensures renames != map[] ==> records[..] == RenamedRecords(renames, old(records[..]))
  {
    var asked := RecordRenames(upper, records[..]);
    renames := asked;
    if asked != map[] {
      RenameInFunctions(functions, asked);
      RenameInRecords(records, asked);
    }
  }
}
