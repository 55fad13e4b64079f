/**
 The formula for externals and the order of its reasons, written out over the
 lists themselves.
 */
module ExternalsFormula {
  import opened Wrappers
  import opened Strings
  import opened ExternalsText
  import opened Externals

  /** A type or a function of this usr has the name or the file asked for. */
  ghost predicate OneHas(x: Inputs, u: string, p: Item -> bool) {
    || (exists t | t in x.types :: t.usr == u && p(t))
    || exists f | f in x.functions :: f.item.usr == u && p(f.item)
  }

  /** A mark of the user; a rule whose pattern compiles and matches the name, or the file; a marked
      file; or a call to it while no function of that usr has a definition. */
  ghost predicate Reason(re: Regex, x: Inputs, u: string, s: Source) {
    match s
    case ManualInclude => exists m | m in x.marks :: m.usr == u && m.external
    case ManualExclude => exists m | m in x.marks :: m.usr == u && !m.external
    case NameRegex(p) =>
      && (exists r | r in x.nameRules :: r.pattern == p) && re.compiles(p)
      && OneHas(x, u, (i: Item) => re.matches(p, i.name))
    case PathRegex(p) =>
      && (exists r | r in x.pathRules :: r.pattern == p) && re.compiles(p)
      && OneHas(x, u, (i: Item) => re.matches(p, i.file))
    case MarkedFile(f) => (exists m | m in x.fileMarks :: m.file == f) && OneHas(x, u, (i: Item) => i.file == f)
    case AutoUndefinedFunction => u in x.calls && forall f | f in x.functions && f.item.usr == u :: !f.hasDefinition
  }

  lemma SomeItem(x: Inputs, u: string, p: Item -> bool)
    ensures OneHas(x, u, p) <==> exists i | i in Items(x) :: i.usr == u && p(i)
  {
    ItemsSplit(x, u);
    if exists f | f in x.functions :: f.item.usr == u && p(f.item) {
      var f :| f in x.functions && f.item.usr == u && p(f.item);
      assert f.item in Items(x);
    }
  }

  lemma AppliesIsReason(re: Regex, x: Inputs, u: string, s: Source)
    ensures Applies(re, x, u, s) <==> Reason(re, x, u, s)
  {
    match s
    case NameRegex(p) => SomeItem(x, u, (i: Item) => re.matches(p, i.name));
    case PathRegex(p) => SomeItem(x, u, (i: Item) => re.matches(p, i.file));
    case MarkedFile(f) => SomeItem(x, u, (i: Item) => i.file == f);
    case _ =>
  }

  ghost predicate LastOf(marks: seq<Mark>, u: string, k: int) {
    0 <= k < |marks| && marks[k].usr == u && forall j | k < j < |marks| :: marks[j].usr != u
  }

  /** The last mark of a usr, if any, decides; otherwise any reason that is not a mark. */
  ghost predicate External(re: Regex, x: Inputs, u: string) {
    if exists k :: LastOf(x.marks, u, k) then exists k :: LastOf(x.marks, u, k) && x.marks[k].external
    else exists s: Source :: s != ManualInclude && s != ManualExclude && Reason(re, x, u, s)
  }

  lemma {:induction false} LastMarkAt(marks: seq<Mark>, u: string) returns (k: int)
    ensures LastMark(marks, u).None? ==> forall j | 0 <= j < |marks| :: marks[j].usr != u
    ensures LastMark(marks, u).Some? ==> LastOf(marks, u, k) && LastMark(marks, u) == Some(marks[k].external)
    decreases |marks|
  {
    k := |marks| - 1;
    if marks != [] && marks[k].usr != u {
      var front := marks[..k];
      assert forall j | 0 <= j < |front| :: marks[j] == front[j];
      k := LastMarkAt(front, u);
    }
  }

  /** Every status says what the formula says. */
  lemma StatusesFollowTheFormula(re: Regex, x: Inputs, st: Status)
    requires IsStatus(re, x, st)
    ensures st.effective <==> External(re, x, st.usr)
    ensures forall s :: s in st.sources <==> Reason(re, x, st.usr, s)
  {
    forall s ensures Applies(re, x, st.usr, s) <==> Reason(re, x, st.usr, s) { AppliesIsReason(re, x, st.usr, s); }
    var k := LastMarkAt(x.marks, st.usr);
    assert forall i, j | LastOf(x.marks, st.usr, i) && LastOf(x.marks, st.usr, j) :: i == j;
  }

  // ----- the order of reasons -----

  function Place(s: Source): nat {
    match s
    case ManualInclude => 0
    case ManualExclude => 1
    case NameRegex(_) => 2
    case PathRegex(_) => 3
    case MarkedFile(_) => 4
    case AutoUndefinedFunction => 5
  }

  function Text(s: Source): string {
    match s
    case NameRegex(p) => p
    case PathRegex(p) => p
    case MarkedFile(f) => f
    case _ => ""
  }

  /** By kind, marks first, then by pattern or path. */
  lemma SourcesInOrder(a: Source, b: Source)
    ensures Less(SourceKey(a), SourceKey(b))
       <==> Place(a) < Place(b) || (Place(a) == Place(b) && Less(Text(a), Text(b)))
  {
    KeyIs(a);
    KeyIs(b);
    assert forall i, j | 0 <= i < 6 && 0 <= j < 6 :: "012345"[i] < "012345"[j] <==> i < j;
  }

  lemma KeyIs(s: Source)
    ensures SourceKey(s) == ["012345"[Place(s)]] + Text(s)
  {
  }

  /** Texts are ordered by the first place where they differ, a prefix before what extends it. */
  lemma {:induction false} LessByFirstDifference(a: string, b: string)
    ensures Less(a, b) <==> exists k | 0 <= k <= |a| && k < |b| :: a[..k] == b[..k] && (k == |a| || a[k] < b[k])
    decreases |a|
  {
    if a != [] && b != [] && a[0] == b[0] {
      LessByFirstDifference(a[1..], b[1..]);
      if Less(a[1..], b[1..]) {
        var k :| 0 <= k <= |a[1..]| && k < |b[1..]| && a[1..][..k] == b[1..][..k]
                 && (k == |a[1..]| || a[1..][k] < b[1..][k]);
        assert a[..k + 1] == [a[0]] + a[1..][..k] && b[..k + 1] == [b[0]] + b[1..][..k];
        assert k + 1 == |a| || a[k + 1] < b[k + 1];
      }
      if exists k | 0 <= k <= |a| && k < |b| :: a[..k] == b[..k] && (k == |a| || a[k] < b[k]) {
        var k :| 0 <= k <= |a| && k < |b| && a[..k] == b[..k] && (k == |a| || a[k] < b[k]);
        assert a[..k][1..] == a[1..][..k - 1] && b[..k][1..] == b[1..][..k - 1];
      }
    } else if b != [] {
      assert a[..0] == b[..0];
      if a != [] { assert a[0] != b[0]; FirstDiffers(a, b); }
    }
  }

  lemma FirstDiffers(a: string, b: string)
    requires a != [] && b != [] && a[0] != b[0]
    ensures forall k | 0 <= k <= |a| && k < |b| && a[..k] == b[..k] :: k == 0
  {
    forall k | 0 < k <= |a| && k < |b| ensures a[..k] != b[..k] {
      assert a[..k][0] == a[0] && b[..k][0] == b[0];
    }
  }
}
