/**
 The parallel extraction job, one atomic step at a time: workers claim units from
 one shared cursor and stop when they see the cancel flag, four progress counters
 advance as they go, the calling thread rechecks the flag after joining them, and
 a poller reads the eight counters one after the other.

 A schedule is any sequence of steps; a step whose thread cannot move is skipped.
 Each atomic operation takes effect at one point of the schedule.
 */
module Extraction {
  import opened Wrappers

  const CATALOGS := 4   // types, source files, functions, pointers, in marking order

  datatype Pc =
    | Checking                            // about to look at the cancel flag
    | Claiming                            // about to take the next index
    | Parsing(unit: nat, marked: nat)     // `marked` of the four counters already advanced
    | Stopped                             // saw the cancel flag
    | Exhausted                           // drew an index past the last unit

  datatype Worker = Worker(pc: Pc, partial: seq<nat>)

  datatype Main = SettingTotals(k: nat) | Running | Rechecked(ok: bool) | Finished

  datatype Poll = Idle | Reading(seen: seq<nat>)

  /** What one poll of the job reports. */
  datatype Report = Live(cancelling: bool, seen: seq<nat>) | Terminal(ok: bool)

  datatype RawState = State(n: nat, workers: seq<Worker>, cursor: nat, cancelled: bool,
                         totals: seq<nat>, completed: seq<nat>,
                         main: Main, outcome: Option<bool>, poll: Poll, reports: seq<Report>)

  /** Four counters of each kind, and positions inside their ranges. */
  predicate Shape(s: RawState) {
    && |s.totals| == CATALOGS && |s.completed| == CATALOGS
    && (s.main.SettingTotals? ==> s.main.k < CATALOGS)
    && (forall i | 0 <= i < |s.workers| :: s.workers[i].pc.Parsing? ==> s.workers[i].pc.marked < CATALOGS)
    && (s.poll.Reading? ==> |s.poll.seen| <= 2 * CATALOGS)
  }

  type State = s: RawState | Shape(s) witness State(0, [], 0, false, [0, 0, 0, 0], [0, 0, 0, 0], SettingTotals(0),
                                                    None, Idle, [])

  datatype Step = Cancel | Work(worker: nat) | Drive | Observe

  function Init(n: nat, parallelism: nat): State {
    State(n, seq(if parallelism < n then parallelism else n, _ => Worker(Checking, [])), 0, false,
          [0, 0, 0, 0], [0, 0, 0, 0], SettingTotals(0), None, Idle, [])
  }

  predicate Done(w: Worker) {
    w.pc.Stopped? || w.pc.Exhausted?
  }

  predicate AllDone(ws: seq<Worker>) {
    forall i | 0 <= i < |ws| :: Done(ws[i])
  }

  // ----- the steps -----

  function Take(s: State, step: Step): State
  {
    match step
    case Cancel => s.(cancelled := true)
    case Work(w) => if w < |s.workers| && !s.main.SettingTotals? then WorkStep(s, w) else s
    case Drive => DriveStep(s)
    case Observe => ObserveStep(s)
  }

  /** Where a worker stands after its next step, given what the shared cells hold. */
  function NextWorker(me: Worker, cancelled: bool, cursor: nat, n: nat): Worker {
    match me.pc
    case Checking => me.(pc := if cancelled then Stopped else Claiming)
    case Claiming => me.(pc := if cursor < n then Parsing(cursor, 0) else Exhausted)
    case Parsing(unit, k) =>
      if k + 1 < CATALOGS then me.(pc := Parsing(unit, k + 1)) else Worker(Checking, me.partial + [unit])
    case Stopped => me
    case Exhausted => me
  }

  function WorkStep(s: State, w: nat): State
    requires w < |s.workers|
  {
    var me := s.workers[w];
    s.(workers := s.workers[w := NextWorker(me, s.cancelled, s.cursor, s.n)],
       cursor := if me.pc.Claiming? then s.cursor + 1 else s.cursor,
       completed := if me.pc.Parsing? then s.completed[me.pc.marked := s.completed[me.pc.marked] + 1] else s.completed)
  }

  function DriveStep(s: State): State
  {
    match s.main
    case SettingTotals(k) =>
      s.(totals := s.totals[k := s.n], main := if k + 1 < CATALOGS then SettingTotals(k + 1) else Running)
    case Running => if AllDone(s.workers) then s.(main := Rechecked(!s.cancelled)) else s
    // `finish` needs the lock a poll holds while it reads
    case Rechecked(ok) => if s.poll.Idle? then s.(main := Finished, outcome := Some(ok)) else s
    case Finished => s
  }

  function Counter(s: State, j: nat): nat
    requires j < 2 * CATALOGS
  {
    if j % 2 == 0 then s.completed[j / 2] else s.totals[j / 2]
  }

  function ObserveStep(s: State): State
  {
    match s.poll
    case Idle =>
      if s.outcome.Some? then s.(reports := s.reports + [Terminal(s.outcome.value)]) else s.(poll := Reading([]))
    case Reading(r) =>
      if |r| < 2 * CATALOGS then s.(poll := Reading(r + [Counter(s, |r|)]))
      else s.(poll := Idle, reports := s.reports + [Live(s.cancelled, r)])
  }

  // ----- what is counted over the workers -----

  function Held(w: Worker): multiset<nat> {
    multiset(w.partial) + (if w.pc.Parsing? then multiset{w.pc.unit} else multiset{})
  }

  function AllHeld(ws: seq<Worker>): multiset<nat> {
    if ws == [] then multiset{} else Held(ws[0]) + AllHeld(ws[1..])
  }

  function UpTo(k: nat): multiset<nat> {
    if k == 0 then multiset{} else UpTo(k - 1) + multiset{k - 1}
  }

  function Marks(w: Worker, k: nat): nat {
    |w.partial| + (if w.pc.Parsing? && w.pc.marked > k then 1 else 0)
  }

  function AllMarks(ws: seq<Worker>, k: nat): nat {
    if ws == [] then 0 else Marks(ws[0], k) + AllMarks(ws[1..], k)
  }

  function ExhaustedCount(ws: seq<Worker>): nat {
    if ws == [] then 0 else (if ws[0].pc.Exhausted? then 1 else 0) + ExhaustedCount(ws[1..])
  }

  lemma SumsAgree(a: multiset<nat>, x: multiset<nat>, x1: multiset<nat>, y: multiset<nat>, y1: multiset<nat>)
    requires x + x1 == y + y1
    ensures (a + x) + x1 == (a + y) + y1
  {
    assert (a + x) + x1 == a + (x + x1);
    assert (a + y) + y1 == a + (y + y1);
  }

  lemma HeldUpdate(ws: seq<Worker>, i: nat, w: Worker)
    requires i < |ws|
    ensures AllHeld(ws[i := w]) + Held(ws[i]) == AllHeld(ws) + Held(w)
  {
    if i > 0 {
      var rest := ws[1..];
      HeldUpdate(rest, i - 1, w);
      assert ws[i := w][1..] == rest[i - 1 := w];
      SumsAgree(Held(ws[0]), AllHeld(rest[i - 1 := w]), Held(ws[i]), AllHeld(rest), Held(w));
    } else {
      assert ws[i := w][1..] == ws[1..];
    }
  }

  lemma MarksUpdate(ws: seq<Worker>, i: nat, w: Worker, k: nat)
    requires i < |ws|
    ensures AllMarks(ws[i := w], k) + Marks(ws[i], k) == AllMarks(ws, k) + Marks(w, k)
  {
    if i > 0 {
      MarksUpdate(ws[1..], i - 1, w, k);
      assert ws[i := w][1..] == ws[1..][i - 1 := w];
    } else {
      assert ws[i := w][1..] == ws[1..];
    }
  }

  lemma ExhaustedUpdate(ws: seq<Worker>, i: nat, w: Worker)
    requires i < |ws|
    ensures ExhaustedCount(ws[i := w]) + (if ws[i].pc.Exhausted? then 1 else 0)
         == ExhaustedCount(ws) + (if w.pc.Exhausted? then 1 else 0)
  {
    if i > 0 {
      ExhaustedUpdate(ws[1..], i - 1, w);
      assert ws[i := w][1..] == ws[1..][i - 1 := w];
    } else {
      assert ws[i := w][1..] == ws[1..];
    }
  }

  lemma UpToSize(k: nat)
    ensures |UpTo(k)| == k
    ensures forall i: nat :: UpTo(k)[i] == if i < k then 1 else 0
  {
  }

  lemma MarksBelowHeld(ws: seq<Worker>, k: nat)
    ensures AllMarks(ws, k) <= |AllHeld(ws)|
  {
  }

  lemma MarksOrdered(ws: seq<Worker>, j: nat, k: nat)
    requires j <= k
    ensures AllMarks(ws, j) >= AllMarks(ws, k)
  {
  }

  lemma ExhaustedWitness(ws: seq<Worker>)
    ensures ExhaustedCount(ws) <= |ws|
    ensures ExhaustedCount(ws) > 0 <==> exists i | 0 <= i < |ws| :: ws[i].pc.Exhausted?
  {
    if ws != [] && ExhaustedCount(ws) > 0 {
      if !ws[0].pc.Exhausted? {
        ExhaustedWitness(ws[1..]);
        var i :| 0 <= i < |ws[1..]| && ws[1..][i].pc.Exhausted?;
        assert ws[i + 1].pc.Exhausted?;
      }
    } else if ws != [] {
      ExhaustedWitness(ws[1..]);
      forall i | 0 <= i < |ws| ensures !ws[i].pc.Exhausted? {
        if i > 0 { assert ws[1..][i - 1] == ws[i]; }
      }
    }
  }

  // ----- the invariant -----

  function Claimed(cursor: nat, n: nat): nat {
    if cursor < n then cursor else n
  }

  /** Every index drawn below `n` is held by exactly one worker, exactly once. */
  ghost predicate ClaimsOk(ws: seq<Worker>, cursor: nat, n: nat) {
    && AllHeld(ws) == UpTo(Claimed(cursor, n))
    && cursor == Claimed(cursor, n) + ExhaustedCount(ws)
    && (ExhaustedCount(ws) > 0 ==> cursor >= n)
    && |ws| <= n
  }

  ghost predicate StopsOk(ws: seq<Worker>, cancelled: bool) {
    cancelled || NoneStopped(ws)
  }

  ghost predicate NoneStopped(ws: seq<Worker>) {
    forall i | 0 <= i < |ws| :: !ws[i].pc.Stopped?
  }

  ghost predicate CountersOk(ws: seq<Worker>, completed: seq<nat>, totals: seq<nat>, main: Main, cursor: nat, n: nat) {
    && |completed| == |totals| == CATALOGS
    && (forall k | 0 <= k < CATALOGS :: completed[k] == AllMarks(ws, k))
    && (main.SettingTotals? ==> cursor == 0 && NotStarted(ws))
    && (forall k | 0 <= k < CATALOGS :: totals[k] == if main.SettingTotals? && main.k <= k then 0 else n)
  }

  ghost predicate NotStarted(ws: seq<Worker>) {
    forall i | 0 <= i < |ws| :: ws[i] == Worker(Checking, [])
  }

  ghost predicate MainOk(main: Main, ws: seq<Worker>, outcome: Option<bool>) {
    && (main.Rechecked? || main.Finished? ==> AllDone(ws))
    && (main.Rechecked? && main.ok ==> NoneStopped(ws))
    && (outcome.Some? <==> main.Finished?)
    && (outcome == Some(true) ==> NoneStopped(ws))
  }

  ghost predicate ClaimsInv(s: State) { ClaimsOk(s.workers, s.cursor, s.n) && StopsOk(s.workers, s.cancelled) }
  ghost predicate CountersInv(s: State) { CountersOk(s.workers, s.completed, s.totals, s.main, s.cursor, s.n) }
  ghost predicate MainInv(s: State) { MainOk(s.main, s.workers, s.outcome) }

  /** What polling depends on. */
  datatype View = View(counters: seq<nat>, n: nat, cancelled: bool, outcome: Option<bool>, poll: Poll,
                       reports: seq<Report>)

  function Counters(s: State): seq<nat> {
    seq(2 * CATALOGS, j requires 0 <= j < 2 * CATALOGS => Counter(s, j))
  }

  function ViewOf(s: State): View {
    View(Counters(s), s.n, s.cancelled, s.outcome, s.poll, s.reports)
  }

  /** Every read made so far is at most the one made later at the same place. */
  ghost predicate NotAhead(r1: seq<nat>, r2: seq<nat>) {
    forall j | 0 <= j < |r1| && j < |r2| :: r1[j] <= r2[j]
  }

  /** Totals are all or nothing. */
  ghost predicate TotalsOk(n: nat, r: seq<nat>) {
    forall j | 0 <= j < |r| && j % 2 == 1 :: r[j] == 0 || r[j] == n
  }

  ghost predicate Before(a: Report, b: Report) {
    match a
    case Terminal(ok) => b == a
    case Live(c, r) => b.Live? ==> (c ==> b.cancelling) && NotAhead(r, b.seen)
  }

  ghost predicate ReportOk(v: View, a: Report) {
    match a
    case Terminal(ok) => v.outcome == Some(ok)
    case Live(c, r) =>
      && |r| == 2 * CATALOGS && NotAhead(r, v.counters) && TotalsOk(v.n, r) && (c ==> v.cancelled)
      && (v.poll.Reading? ==> NotAhead(r, v.poll.seen))
  }

  ghost predicate AllReportsOk(v: View) {
    forall i | 0 <= i < |v.reports| :: ReportOk(v, v.reports[i])
  }

  ghost predicate InOrder(reports: seq<Report>) {
    forall i, j | 0 <= i < j < |reports| :: Before(reports[i], reports[j])
  }

  ghost predicate PollOk(v: View) {
    && |v.counters| == 2 * CATALOGS && TotalsOk(v.n, v.counters)
    && (v.poll.Reading? ==> v.outcome.None? && |v.poll.seen| <= 2 * CATALOGS
                            && NotAhead(v.poll.seen, v.counters) && TotalsOk(v.n, v.poll.seen))
    && AllReportsOk(v)
    && InOrder(v.reports)
  }

  ghost predicate PollInv(s: State) {
    PollOk(ViewOf(s))
  }

  ghost predicate Inv(s: State) {
    ClaimsInv(s) && CountersInv(s) && MainInv(s) && PollInv(s)
  }

  lemma InitInv(n: nat, parallelism: nat)
    ensures Inv(Init(n, parallelism))
  {
    IdleWorkers(Init(n, parallelism).workers);
  }

  lemma IdleWorkers(ws: seq<Worker>)
    requires forall i | 0 <= i < |ws| :: ws[i] == Worker(Checking, [])
    ensures AllHeld(ws) == multiset{} && ExhaustedCount(ws) == 0
    ensures forall k :: AllMarks(ws, k) == 0
  {
    if ws != [] {
      IdleWorkers(ws[1..]);
      assert Held(ws[0]) == multiset{};
    }
  }

  lemma NotAheadTransitive(a: seq<nat>, b: seq<nat>, c: seq<nat>)
    requires NotAhead(a, b) && NotAhead(b, c) && |a| <= |b|
    ensures NotAhead(a, c)
  {
  }

  /** Counters that only rise, a flag that is only set and a result that only appears while
      nobody is reading leave everything a poller has seen valid. */
  lemma ViewRises(v: View, v': View)
    requires PollOk(v) && v'.n == v.n && v'.poll == v.poll && v'.reports == v.reports
    requires |v'.counters| == |v.counters| && NotAhead(v.counters, v'.counters) && TotalsOk(v.n, v'.counters)
    requires v.cancelled ==> v'.cancelled
    requires v'.outcome == v.outcome || (v.outcome.None? && v.poll.Idle?)
    ensures PollOk(v')
  {
    if v.poll.Reading? { NotAheadTransitive(v.poll.seen, v.counters, v'.counters); }
    forall i | 0 <= i < |v.reports| ensures ReportOk(v', v.reports[i]) {
      assert ReportOk(v, v.reports[i]);
      if v.reports[i].Live? { NotAheadTransitive(v.reports[i].seen, v.counters, v'.counters); }
    }
  }

  lemma ReadOne(v: View, v': View)
    requires PollOk(v) && v.poll.Reading? && |v.poll.seen| < 2 * CATALOGS
    requires v' == v.(poll := Reading(v.poll.seen + [v.counters[|v.poll.seen|]]))
    ensures PollOk(v')
  {
    forall i | 0 <= i < |v.reports| ensures ReportOk(v', v.reports[i]) {
      assert ReportOk(v, v.reports[i]);
    }
  }

  lemma StartReading(v: View)
    requires PollOk(v) && v.poll.Idle? && v.outcome.None?
    ensures PollOk(v.(poll := Reading([])))
  {
    var v' := v.(poll := Reading([]));
    forall i | 0 <= i < |v.reports| ensures ReportOk(v', v.reports[i]) {
      assert ReportOk(v, v.reports[i]);
    }
  }

  lemma FileReport(v: View, a: Report)
    requires PollOk(v)
    requires if v.poll.Idle? then v.outcome.Some? && a == Terminal(v.outcome.value)
             else |v.poll.seen| == 2 * CATALOGS && a == Live(v.cancelled, v.poll.seen)
    ensures PollOk(v.(poll := Idle, reports := v.reports + [a]))
  {
    var v' := v.(poll := Idle, reports := v.reports + [a]);
    forall i | 0 <= i < |v'.reports| ensures ReportOk(v', v'.reports[i]) {
      if i < |v.reports| { assert ReportOk(v, v.reports[i]); }
    }
    forall i, j | 0 <= i < j < |v'.reports| ensures Before(v'.reports[i], v'.reports[j]) {
      assert ReportOk(v, v.reports[i]);
      if j < |v.reports| { assert Before(v.reports[i], v.reports[j]); }
    }
  }

  lemma HeldAfter(a: multiset<nat>, b: multiset<nat>, old1: multiset<nat>, new1: multiset<nat>, extra: multiset<nat>)
    requires a + old1 == b + new1 && new1 == old1 + extra
    ensures a == b + extra
  {
    assert a + old1 == (b + extra) + old1;
    forall x ensures a[x] == (b + extra)[x] {
      assert (a + old1)[x] == ((b + extra) + old1)[x];
    }
  }

  /** A worker that still holds what it held and has not drawn past the end: the accounts stand. */
  lemma HolderMoves(ws: seq<Worker>, cursor: nat, n: nat, w: nat, me': Worker)
    requires ClaimsOk(ws, cursor, n) && w < |ws| && !ws[w].pc.Exhausted?
    requires Held(me') == Held(ws[w]) && !me'.pc.Exhausted?
    ensures ClaimsOk(ws[w := me'], cursor, n)
  {
    HeldUpdate(ws, w, me');
    ExhaustedUpdate(ws, w, me');
    HeldAfter(AllHeld(ws[w := me']), AllHeld(ws), Held(ws[w]), Held(me'), multiset{});
  }

  lemma DrawKeepsClaims(ws: seq<Worker>, cursor: nat, n: nat, w: nat)
    requires ClaimsOk(ws, cursor, n) && w < |ws| && ws[w].pc.Claiming?
    ensures ClaimsOk(ws[w := ws[w].(pc := if cursor < n then Parsing(cursor, 0) else Exhausted)], cursor + 1, n)
  {
    var me := ws[w];
    var me' := me.(pc := if cursor < n then Parsing(cursor, 0) else Exhausted);
    HeldUpdate(ws, w, me');
    ExhaustedUpdate(ws, w, me');
    if cursor < n {
      assert Held(me') == Held(me) + multiset{cursor};
      HeldAfter(AllHeld(ws[w := me']), AllHeld(ws), Held(me), Held(me'), multiset{cursor});
      assert UpTo(cursor + 1) == UpTo(cursor) + multiset{cursor};
    } else {
      assert Held(me') == Held(me) + multiset{};
      HeldAfter(AllHeld(ws[w := me']), AllHeld(ws), Held(me), Held(me'), multiset{});
    }
  }

  lemma NextHolds(me: Worker, cancelled: bool, cursor: nat, n: nat)
    requires !me.pc.Claiming?
    ensures Held(NextWorker(me, cancelled, cursor, n)) == Held(me)
    ensures NextWorker(me, cancelled, cursor, n).pc.Exhausted? == me.pc.Exhausted?
  {
    if me.pc.Parsing? {
      assert multiset(me.partial + [me.pc.unit]) == multiset(me.partial) + multiset{me.pc.unit};
    }
  }

  lemma NextKeepsClaims(ws: seq<Worker>, cancelled: bool, cursor: nat, n: nat, w: nat)
    requires ClaimsOk(ws, cursor, n) && w < |ws|
    ensures ClaimsOk(ws[w := NextWorker(ws[w], cancelled, cursor, n)], if ws[w].pc.Claiming? then cursor + 1
                     else cursor, n)
  {
    var me := ws[w];
    if me.pc.Claiming? {
      DrawKeepsClaims(ws, cursor, n, w);
    } else if me.pc.Exhausted? {
      assert ws[w := me] == ws;
    } else {
      NextHolds(me, cancelled, cursor, n);
      HolderMoves(ws, cursor, n, w, NextWorker(me, cancelled, cursor, n));
    }
  }

  lemma NextKeepsStops(ws: seq<Worker>, cancelled: bool, cursor: nat, n: nat, w: nat)
    requires StopsOk(ws, cancelled) && w < |ws|
    ensures StopsOk(ws[w := NextWorker(ws[w], cancelled, cursor, n)], cancelled)
  {
  }

  lemma WorkKeepsClaims(s: State, w: nat)
    requires ClaimsInv(s) && w < |s.workers|
    ensures ClaimsInv(WorkStep(s, w))
  {
    var s' := WorkStep(s, w);
    var ws' := s.workers[w := NextWorker(s.workers[w], s.cancelled, s.cursor, s.n)];
    assert s'.workers == ws' && s'.cancelled == s.cancelled && s'.n == s.n;
    assert s'.cursor == if s.workers[w].pc.Claiming? then s.cursor + 1 else s.cursor;
    assert ClaimsOk(ws', s'.cursor, s.n) by { NextKeepsClaims(s.workers, s.cancelled, s.cursor, s.n, w); }
    assert StopsOk(ws', s.cancelled) by { NextKeepsStops(s.workers, s.cancelled, s.cursor, s.n, w); }
  }

  lemma WorkKeepsCounters(s: State, w: nat)
    requires CountersInv(s) && w < |s.workers| && !s.main.SettingTotals?
    ensures CountersInv(WorkStep(s, w))
  {
    var s' := WorkStep(s, w);
    assert s'.workers == s.workers[w := s'.workers[w]];
    forall k | 0 <= k < CATALOGS ensures s'.completed[k] == AllMarks(s'.workers, k) {
      MarksUpdate(s.workers, w, s'.workers[w], k);
    }
  }

  lemma WorkKeepsMain(s: State, w: nat)
    requires MainInv(s) && w < |s.workers|
    ensures MainInv(WorkStep(s, w))
  {
  }

  lemma DriveKeepsInv(s: State)
    requires ClaimsInv(s) && CountersInv(s) && MainInv(s)
    ensures ClaimsInv(DriveStep(s)) && CountersInv(DriveStep(s)) && MainInv(DriveStep(s))
  {
    assert DriveStep(s).workers == s.workers && DriveStep(s).completed == s.completed;
  }

  lemma IdleWorkersIfSetting(s: State)
    requires CountersInv(s)
    ensures s.main.SettingTotals? ==> forall k | 0 <= k < CATALOGS :: s.completed[k] == 0
  {
    if s.main.SettingTotals? { IdleWorkers(s.workers); }
  }

  lemma TotalsAreOk(s: State)
    requires CountersInv(s)
    ensures TotalsOk(s.n, Counters(s))
  {
    forall j | 0 <= j < 2 * CATALOGS && j % 2 == 1 ensures Counters(s)[j] == 0 || Counters(s)[j] == s.n {
      assert Counters(s)[j] == s.totals[j / 2];
    }
  }

  /** A step of anyone but the poller only lets counters rise. */
  lemma CountersRise(s: State, step: Step)
    requires CountersInv(s) && !step.Observe?
    ensures NotAhead(Counters(s), Counters(Take(s, step)))
  {
    var s' := Take(s, step);
    forall j | 0 <= j < 2 * CATALOGS ensures Counter(s, j) <= Counter(s', j) {
      assert s.completed[j / 2] <= s'.completed[j / 2];
      assert s.totals[j / 2] <= s'.totals[j / 2];
    }
  }

  lemma OthersKeepPolls(s: State, step: Step)
    requires CountersInv(s) && MainInv(s) && PollInv(s) && !step.Observe? && CountersInv(Take(s, step))
    ensures PollInv(Take(s, step))
  {
    var s' := Take(s, step);
    CountersRise(s, step);
    TotalsAreOk(s');
    assert s'.outcome == s.outcome || (s.outcome.None? && s.poll.Idle?);
    ViewRises(ViewOf(s), ViewOf(s'));
  }

  lemma ObserveKeepsPolls(s: State)
    requires PollInv(s)
    ensures PollInv(ObserveStep(s))
  {
    var v, s' := ViewOf(s), ObserveStep(s);
    assert Counters(s') == Counters(s);
    if s.poll.Idle? {
      if s.outcome.Some? { FileReport(v, Terminal(s.outcome.value)); } else { StartReading(v); }
    } else if |s.poll.seen| < 2 * CATALOGS {
      ReadOne(v, ViewOf(s'));
    } else {
      FileReport(v, Live(s.cancelled, s.poll.seen));
    }
  }

  lemma WorkKeepsInv(s: State, w: nat)
    requires Inv(s) && w < |s.workers| && !s.main.SettingTotals?
    ensures Inv(Take(s, Work(w)))
  {
    WorkKeepsClaims(s, w);
    WorkKeepsCounters(s, w);
    WorkKeepsMain(s, w);
    OthersKeepPolls(s, Work(w));
  }

  lemma CancelKeepsInv(s: State)
    requires Inv(s)
    ensures Inv(Take(s, Cancel))
  {
    OthersKeepPolls(s, Cancel);
  }

  lemma DriveKeepsAll(s: State)
    requires Inv(s)
    ensures Inv(Take(s, Drive))
  {
    DriveKeepsInv(s);
    OthersKeepPolls(s, Drive);
  }

  lemma ObserveKeepsInv(s: State)
    requires Inv(s)
    ensures Inv(Take(s, Observe))
  {
    ObserveKeepsPolls(s);
  }

  /** Every step keeps the invariant. */
  lemma TakeKeepsInv(s: State, step: Step)
    requires Inv(s)
    ensures Inv(Take(s, step))
  {
    match step
    case Cancel => CancelKeepsInv(s);
    case Work(w) => if w < |s.workers| && !s.main.SettingTotals? { WorkKeepsInv(s, w); }
    case Drive => DriveKeepsAll(s);
    case Observe => ObserveKeepsInv(s);
  }

  // ----- whole runs -----

  function Run(s: State, schedule: seq<Step>): State
    decreases |schedule|
  {
    if schedule == [] then s else Run(Take(s, schedule[0]), schedule[1..])
  }

  function RunFrom(n: nat, parallelism: nat, schedule: seq<Step>): State {
    Run(Init(n, parallelism), schedule)
  }

  /** What every step keeps, every run keeps. */
  lemma {:induction false} RunKeeps(p: State -> bool, s: State, schedule: seq<Step>)
    requires p(s) && forall x: State, step: Step :: p(x) ==> p(Take(x, step))
    ensures p(Run(s, schedule))
    decreases |schedule|
  {
    if schedule != [] { RunKeeps(p, Take(s, schedule[0]), schedule[1..]); }
  }

  lemma RunKeepsInv(s: State, schedule: seq<Step>)
    requires Inv(s)
    ensures Inv(Run(s, schedule)) && Run(s, schedule).n == s.n && |Run(s, schedule).workers| == |s.workers|
  {
    var p := (x: State) => Inv(x) && x.n == s.n && |x.workers| == |s.workers|;
    forall x: State, step: Step | p(x) ensures p(Take(x, step)) {
      TakeKeepsInv(x, step);
      TakeKeepsSizes(x, step);
    }
    RunKeeps(p, s, schedule);
  }

  lemma TakeKeepsSizes(s: State, step: Step)
    ensures Take(s, step).n == s.n && |Take(s, step).workers| == |s.workers|
  {
  }

  /** Every state a run can reach satisfies the invariant. */
  lemma Reached(n: nat, parallelism: nat, schedule: seq<Step>)
    ensures var s := RunFrom(n, parallelism, schedule);
            Inv(s) && s.n == n && |s.workers| == if parallelism < n then parallelism else n
  {
    InitInv(n, parallelism);
    RunKeepsInv(Init(n, parallelism), schedule);
  }

  /** At every point of every run: no unit is claimed twice, the units claimed are a prefix of
      the list, and the cursor overshoots by at most one draw per worker. */
  lemma ClaimsAreExclusive(n: nat, parallelism: nat, schedule: seq<Step>)
    ensures var s := RunFrom(n, parallelism, schedule);
            && (forall i: nat :: AllHeld(s.workers)[i] == if i < Claimed(s.cursor, n) then 1 else 0)
            && s.cursor <= n + |s.workers|
  {
    Reached(n, parallelism, schedule);
    var s := RunFrom(n, parallelism, schedule);
    UpToSize(Claimed(s.cursor, n));
    ExhaustedWitness(s.workers);
  }

  /** The units the workers have finished with, all partial results together. */
  function AllProcessed(ws: seq<Worker>): multiset<nat> {
    if ws == [] then multiset{} else multiset(ws[0].partial) + AllProcessed(ws[1..])
  }

  lemma NothingInHand(ws: seq<Worker>)
    requires AllDone(ws)
    ensures AllHeld(ws) == AllProcessed(ws)
  {
    if ws != [] {
      assert Done(ws[0]);
      assert forall i | 0 <= i < |ws[1..]| :: ws[1..][i] == ws[i + 1];
      NothingInHand(ws[1..]);
    }
  }

  /** Once all workers are done, every claimed unit has been processed, exactly once; and if
      the job succeeded that is every unit there is. */
  lemma SuccessMeansComplete(n: nat, parallelism: nat, schedule: seq<Step>)
    requires parallelism > 0
    ensures var s := RunFrom(n, parallelism, schedule);
            && (AllDone(s.workers) ==> AllProcessed(s.workers) == UpTo(Claimed(s.cursor, n)))
            && (s.outcome == Some(true) ==> AllProcessed(s.workers) == UpTo(n))
  {
    Reached(n, parallelism, schedule);
    var s := RunFrom(n, parallelism, schedule);
    if AllDone(s.workers) { NothingInHand(s.workers); }
    if s.outcome == Some(true) {
      ExhaustedWitness(s.workers);
      if n > 0 {
        assert Done(s.workers[0]) && !s.workers[0].pc.Stopped?;
        assert s.workers[0].pc.Exhausted?;
      }
    }
  }

  /** The four counts are ordered and bounded by their common total. */
  lemma ProgressIsBounded(n: nat, parallelism: nat, schedule: seq<Step>)
    ensures var s := RunFrom(n, parallelism, schedule);
            && s.completed[0] >= s.completed[1] >= s.completed[2] >= s.completed[3]
            && (forall k | 0 <= k < CATALOGS ::
                  s.completed[k] <= n && (s.totals[k] == 0 ==> s.completed[k] == 0 || n == 0))
  {
    Reached(n, parallelism, schedule);
    var s := RunFrom(n, parallelism, schedule);
    MarksOrdered(s.workers, 0, 1);
    MarksOrdered(s.workers, 1, 2);
    MarksOrdered(s.workers, 2, 3);
    UpToSize(Claimed(s.cursor, n));
    forall k | 0 <= k < CATALOGS ensures s.completed[k] <= n && (s.totals[k] == 0 ==> s.completed[k] == 0 || n == 0) {
      MarksBelowHeld(s.workers, k);
      IdleWorkersIfSetting(s);
    }
  }

  // ----- every worker terminates -----

  function Weight(w: Worker): nat {
    match w.pc
    case Checking => 2
    case Claiming => 1
    case Parsing(_, k) => if k < CATALOGS then 3 + CATALOGS - k else 3
    case _ => 0
  }

  function Weights(ws: seq<Worker>): nat {
    if ws == [] then 0 else Weight(ws[0]) + Weights(ws[1..])
  }

  lemma WeightsUpdate(ws: seq<Worker>, i: nat, w: Worker)
    requires i < |ws|
    ensures Weights(ws[i := w]) + Weight(ws[i]) == Weights(ws) + Weight(w)
  {
    if i > 0 {
      WeightsUpdate(ws[1..], i - 1, w);
      assert ws[i := w][1..] == ws[1..][i - 1 := w];
    } else {
      assert ws[i := w][1..] == ws[1..];
    }
  }

  /** An upper bound on the steps the workers can still take. */
  function StepsLeft(s: State): int {
    Weights(s.workers) + (3 + CATALOGS) * (s.n + |s.workers| - s.cursor)
  }

  predicate Moving(s: State, step: Step) {
    step.Work? && step.worker < |s.workers| && !s.main.SettingTotals? && !Done(s.workers[step.worker])
  }

  lemma StepsLeftNatural(s: State)
    requires Inv(s)
    ensures StepsLeft(s) >= 0
  {
    ExhaustedWitness(s.workers);
  }

  /** A worker that is not done can always step, and every such step brings the end closer;
      nobody else's step takes it further away. */
  lemma WorkersMakeProgress(s: State, step: Step)
    ensures StepsLeft(Take(s, step)) <= StepsLeft(s) - (if Moving(s, step) then 1 else 0)
  {
    if step.Work? && step.worker < |s.workers| && !s.main.SettingTotals? {
      WorkMakesProgress(s, step.worker);
    }
  }

  lemma WorkMakesProgress(s: State, w: nat)
    requires w < |s.workers|
    ensures StepsLeft(WorkStep(s, w)) <= StepsLeft(s) - (if Done(s.workers[w]) then 0 else 1)
  {
    var s' := WorkStep(s, w);
    var me' := s'.workers[w];
    assert s'.workers == s.workers[w := me'];
    WeightsUpdate(s.workers, w, me');
    var me := s.workers[w];
    match me.pc {
      case Checking => assert Weight(me') <= 1;
      case Claiming => assert s'.cursor == s.cursor + 1 && Weight(me') <= 7;
      case Parsing(_, k) => assert Weight(me') < Weight(me);
      case _ =>
    }
  }

  /** The steps of a schedule at which some worker really moves. */
  function Moves(s: State, schedule: seq<Step>): nat
    decreases |schedule|
  {
    if schedule == [] then 0
    else (if Moving(s, schedule[0]) then 1 else 0) + Moves(Take(s, schedule[0]), schedule[1..])
  }

  lemma {:induction false} MovesBounded(s: State, schedule: seq<Step>)
    ensures Moves(s, schedule) + StepsLeft(Run(s, schedule)) <= StepsLeft(s)
    decreases |schedule|
  {
    if schedule != [] {
      WorkersMakeProgress(s, schedule[0]);
      MovesBounded(Take(s, schedule[0]), schedule[1..]);
    }
  }

  /** However long the schedule, the workers together move at most seven times per unit
      and nine times per worker. */
  lemma WorkersTerminate(n: nat, parallelism: nat, schedule: seq<Step>)
    ensures var s := Init(n, parallelism);
            Moves(s, schedule) <= 7 * n + 9 * |s.workers|
  {
    InitInv(n, parallelism);
    var s := Init(n, parallelism);
    MovesBounded(s, schedule);
    Reached(n, parallelism, schedule);
    StepsLeftNatural(Run(s, schedule));
    CheckingWeights(s.workers);
  }

  lemma CheckingWeights(ws: seq<Worker>)
    requires forall i | 0 <= i < |ws| :: ws[i].pc.Checking?
    ensures Weights(ws) == 2 * |ws|
  {
  }

  // ----- what a poller sees -----

  datatype Phase = Ingesting | CatalogingTypes | DiscoveringSourceFiles | CatalogingFunctions | CatalogingPointers
      | Persisting

  function Rank(p: Phase): nat {
    match p
    case Ingesting => 0
    case CatalogingTypes => 1
    case DiscoveringSourceFiles => 2
    case CatalogingFunctions => 3
    case CatalogingPointers => 4
    case Persisting => 5
  }

  function DerivePhase(typeCompleted: nat, typeTotal: nat, sourceCompleted: nat, sourceTotal: nat,
                       functionCompleted: nat, functionTotal: nat, pointerCompleted: nat, pointerTotal: nat): Phase {
    if typeTotal == 0 then Ingesting
    else if typeCompleted < typeTotal then CatalogingTypes
    else if sourceTotal == 0 || sourceCompleted < sourceTotal then DiscoveringSourceFiles
    else if functionTotal == 0 || functionCompleted < functionTotal then CatalogingFunctions
    else if pointerTotal == 0 || pointerCompleted < pointerTotal then CatalogingPointers
    else Persisting
  }

  function PhaseOf(r: seq<nat>): Phase
    requires |r| == 2 * CATALOGS
  {
    DerivePhase(r[0], r[1], r[2], r[3], r[4], r[5], r[6], r[7])
  }

  function StatusRank(a: Report): nat {
    match a
    case Live(c, _) => if c then 1 else 0
    case Terminal(_) => 2
  }

  predicate PassDone(r: seq<nat>, k: nat)
    requires |r| == 2 * CATALOGS && k < CATALOGS
  {
    r[2 * k + 1] > 0 && r[2 * k] >= r[2 * k + 1]
  }

  /** The first `m` passes are done and the next, if any, is not. */
  predicate DoneUpTo(r: seq<nat>, m: nat)
    requires |r| == 2 * CATALOGS && m <= CATALOGS
  {
    (forall k | 0 <= k < m :: PassDone(r, k)) && (m < CATALOGS ==> !PassDone(r, m))
  }

  /** Nothing has started, or the phase is that of the first pass not yet done. */
  lemma PhaseIsFirstOpenPass(r: seq<nat>, m: nat)
    requires |r| == 2 * CATALOGS && m <= CATALOGS && DoneUpTo(r, m)
    ensures PhaseOf(r) == if r[1] == 0 then Ingesting
                          else [CatalogingTypes, DiscoveringSourceFiles, CatalogingFunctions, CatalogingPointers,
                                Persisting][m]
  {
    assert forall k | 0 <= k < m :: PassDone(r, k);
    assert PassDone(r, 0) <==> r[1] > 0 && r[0] >= r[1];
    assert PassDone(r, 1) <==> r[3] > 0 && r[2] >= r[3];
    assert PassDone(r, 2) <==> r[5] > 0 && r[4] >= r[5];
    assert PassDone(r, 3) <==> r[7] > 0 && r[6] >= r[7];
  }

  lemma PhaseMonotone(n: nat, r1: seq<nat>, r2: seq<nat>)
    requires |r1| == |r2| == 2 * CATALOGS && NotAhead(r1, r2)
    requires TotalsOk(n, r1) && TotalsOk(n, r2)
    ensures Rank(PhaseOf(r1)) <= Rank(PhaseOf(r2))
  {
    assert forall j | 0 <= j < 8 :: r1[j] <= r2[j];
    assert r1[1] <= r2[1] && r1[3] <= r2[3] && r1[5] <= r2[5] && r1[7] <= r2[7];
    assert r1[1] == 0 || r1[1] == r2[1];
    assert r1[3] == 0 || r1[3] == r2[3];
    assert r1[5] == 0 || r1[5] == r2[5];
    assert r1[7] == 0 || r1[7] == r2[7];
  }

  /** Of any two polls of a run the later one reports no earlier status and no earlier phase,
      although each reads its eight counters at eight different moments; and a finished job
      reports one and the same result ever after. */
  lemma PollsNeverGoBack(n: nat, parallelism: nat, schedule: seq<Step>, i: nat, j: nat)
    requires i < j < |RunFrom(n, parallelism, schedule).reports|
    ensures var a, b := RunFrom(n, parallelism, schedule).reports[i], RunFrom(n, parallelism, schedule).reports[j];
            && StatusRank(a) <= StatusRank(b)
            && (a.Terminal? ==> a == b)
            && (a.Live? && b.Live? ==> |a.seen| == |b.seen| == 8 && Rank(PhaseOf(a.seen)) <= Rank(PhaseOf(b.seen)))
  {
    Reached(n, parallelism, schedule);
    var s := RunFrom(n, parallelism, schedule);
    assert ReportOk(ViewOf(s), s.reports[i]) && ReportOk(ViewOf(s), s.reports[j]) && Before(s.reports[i], s.reports[j]);
    if s.reports[i].Live? && s.reports[j].Live? {
      PhaseMonotone(n, s.reports[i].seen, s.reports[j].seen);
    }
  }

  /** A job reported as succeeded has parsed every unit, once. */
  lemma ReportedSuccess(n: nat, parallelism: nat, schedule: seq<Step>, i: nat)
    requires parallelism > 0 && i < |RunFrom(n, parallelism, schedule).reports|
    ensures var s := RunFrom(n, parallelism, schedule);
            s.reports[i] == Terminal(true) ==> AllProcessed(s.workers) == UpTo(n)
  {
    Reached(n, parallelism, schedule);
    var s := RunFrom(n, parallelism, schedule);
    assert ReportOk(ViewOf(s), s.reports[i]);
    SuccessMeansComplete(n, parallelism, schedule);
  }

  // ----- cancelling, finishing, reading -----

  /** A job that ends without success was cancelled. */
  lemma FailureMeansCancelled(n: nat, parallelism: nat, schedule: seq<Step>)
    ensures var s := RunFrom(n, parallelism, schedule); s.outcome == Some(false) ==> s.cancelled
  {
    var p := (s: State) => (s.outcome == Some(false) || s.main == Rechecked(false)) ==> s.cancelled;
    forall s: State, step: Step | p(s) ensures p(Take(s, step)) { }
    RunKeeps(p, Init(n, parallelism), schedule);
  }

  function Claimers(ws: seq<Worker>): nat {
    if ws == [] then 0 else (if ws[0].pc.Claiming? then 1 else 0) + Claimers(ws[1..])
  }

  lemma {:induction false} ClaimersUpdate(ws: seq<Worker>, i: nat, w: Worker)
    requires i < |ws|
    ensures Claimers(ws[i := w]) + (if ws[i].pc.Claiming? then 1 else 0)
         == Claimers(ws) + (if w.pc.Claiming? then 1 else 0)
    decreases |ws|
  {
    if i > 0 {
      ClaimersUpdate(ws[1..], i - 1, w);
      assert ws[i := w][1..] == ws[1..][i - 1 := w];
    } else {
      assert ws[i := w][1..] == ws[1..];
    }
  }

  lemma {:induction false} FewClaimers(ws: seq<Worker>)
    ensures Claimers(ws) <= |ws|
    decreases |ws|
  {
    if ws != [] { FewClaimers(ws[1..]); }
  }

  lemma CancelledStep(s: State, step: Step)
    requires s.cancelled
    ensures Take(s, step).cancelled
    ensures Take(s, step).cursor + Claimers(Take(s, step).workers) <= s.cursor + Claimers(s.workers)
  {
    if step.Work? && step.worker < |s.workers| && !s.main.SettingTotals? {
      var next := NextWorker(s.workers[step.worker], s.cancelled, s.cursor, s.n);
      ClaimersUpdate(s.workers, step.worker, next);
    }
  }

  /** Once cancelled, each worker draws at most one more unit, whatever the schedule. */
  lemma {:induction false} CancelStopsClaims(s: State, schedule: seq<Step>)
    requires s.cancelled
    ensures Run(s, schedule).cursor <= s.cursor + Claimers(s.workers) <= s.cursor + |s.workers|
    decreases |schedule|
  {
    FewClaimers(s.workers);
    if schedule != [] {
      CancelledStep(s, schedule[0]);
      CancelStopsClaims(Take(s, schedule[0]), schedule[1..]);
    }
  }

  function Drives(k: nat): seq<Step> {
    if k == 0 then [] else [Drive] + Drives(k - 1)
  }

  /** Once the workers are done and no poll is reading, the job finishes, and with success exactly
      if it was not cancelled by the time it looked. */
  lemma JobFinishes(s: State)
    requires s.main == Running && AllDone(s.workers) && s.poll.Idle?
    ensures Run(s, [Drive, Drive]).main == Finished && Run(s, [Drive, Drive]).outcome == Some(!s.cancelled)
  {
    var t := Take(s, Drive);
    assert t.main == Rechecked(!s.cancelled);
    assert [Drive, Drive][1..] == [Drive] && [Drive][1..] == [];
    assert Run(t, [Drive]) == Run(Take(t, Drive), []);
  }

  /** Setting the totals takes four steps, and then the workers may start. */
  lemma {:induction false} TotalsGetSet(s: State)
    requires s.main.SettingTotals?
    ensures Run(s, Drives(CATALOGS - s.main.k)).main == Running
    decreases CATALOGS - s.main.k
  {
    var t := Take(s, Drive);
    assert Drives(CATALOGS - s.main.k)[1..] == Drives(CATALOGS - s.main.k - 1);
    if t.main.SettingTotals? { TotalsGetSet(t); }
  }

  lemma {:induction false} RunOneMore(s: State, schedule: seq<Step>, step: Step)
    ensures Run(s, schedule + [step]) == Take(Run(s, schedule), step)
    decreases |schedule|
  {
    if schedule == [] {
      assert ([] + [step])[1..] == [];
    } else {
      assert (schedule + [step])[1..] == schedule[1..] + [step];
      RunOneMore(Take(s, schedule[0]), schedule[1..], step);
    }
  }

  /** Some state of the run so far had this counter at this value. */
  ghost predicate WasRead(s: State, schedule: seq<Step>, j: nat, v: nat)
    requires j < 2 * CATALOGS
  {
    exists k | 0 <= k <= |schedule| :: Counter(Run(s, schedule[..k]), j) == v
  }

  ghost predicate AllRead(s: State, schedule: seq<Step>, seen: seq<nat>) {
    |seen| <= 2 * CATALOGS && forall j | 0 <= j < |seen| :: WasRead(s, schedule, j, seen[j])
  }

  ghost predicate ReadsReal(s: State, schedule: seq<Step>) {
    var t := Run(s, schedule);
    && (t.poll.Reading? ==> AllRead(s, schedule, t.poll.seen))
    && forall i | 0 <= i < |t.reports| && t.reports[i].Live? :: AllRead(s, schedule, t.reports[i].seen)
  }

  lemma StillRead(s: State, schedule: seq<Step>, step: Step, seen: seq<nat>)
    requires AllRead(s, schedule, seen)
    ensures AllRead(s, schedule + [step], seen)
  {
    forall j | 0 <= j < |seen| ensures WasRead(s, schedule + [step], j, seen[j]) {
      assert WasRead(s, schedule, j, seen[j]);
      var k :| 0 <= k <= |schedule| && Counter(Run(s, schedule[..k]), j) == seen[j];
      assert (schedule + [step])[..k] == schedule[..k];
    }
  }

  /** Every number a poll reports was the value of its counter at some moment of the run. */
  lemma {:induction false} PollsReadCounters(s: State, schedule: seq<Step>)
    requires s.poll.Idle? && s.reports == []
    ensures ReadsReal(s, schedule)
    decreases |schedule|
  {
    if schedule == [] {
      assert Run(s, schedule) == s;
    } else {
      var front, step := schedule[..|schedule| - 1], schedule[|schedule| - 1];
      assert schedule == front + [step];
      PollsReadCounters(s, front);
      RunOneMore(s, front, step);
      ReadsStep(s, front, step);
    }
  }

  lemma ReadsStep(s: State, front: seq<Step>, step: Step)
    requires ReadsReal(s, front) && Run(s, front + [step]) == Take(Run(s, front), step)
    ensures ReadsReal(s, front + [step])
  {
    var t := Run(s, front);
    if t.poll.Reading? {
      StillRead(s, front, step, t.poll.seen);
      if |t.poll.seen| < 2 * CATALOGS { NowRead(s, front, step, t.poll.seen); }
    }
    forall i | 0 <= i < |t.reports| && t.reports[i].Live? ensures AllRead(s, front + [step], t.reports[i].seen) {
      StillRead(s, front, step, t.reports[i].seen);
    }
  }

  lemma NowRead(s: State, front: seq<Step>, step: Step, seen: seq<nat>)
    requires |seen| < 2 * CATALOGS && AllRead(s, front + [step], seen)
    ensures AllRead(s, front + [step], seen + [Counter(Run(s, front), |seen|)])
  {
    var more := seen + [Counter(Run(s, front), |seen|)];
    assert (front + [step])[..|front|] == front;
    forall j | 0 <= j < |more| ensures WasRead(s, front + [step], j, more[j]) {
      if j < |seen| { assert WasRead(s, front + [step], j, seen[j]); }
    }
  }

  /** Every poll filed after a cancellation reports it, until the job reports its end. */
  lemma CancelIsReported(s: State, schedule: seq<Step>)
    requires s.cancelled
    ensures var t := Run(s, schedule);
            |s.reports| <= |t.reports| && forall i | |s.reports| <= i < |t.reports| && t.reports[i].Live? ::
              t.reports[i].cancelling
  {
    var p := (x: State) => x.cancelled && |s.reports| <= |x.reports| && forall i | |s.reports| <= i < |x.reports| ::
               x.reports[i].Live? ==> x.reports[i].cancelling;
    forall x: State, step: Step | p(x) ensures p(Take(x, step)) { }
    RunKeeps(p, s, schedule);
  }

  function Observes(k: nat): seq<Step> {
    if k == 0 then [] else [Observe] + Observes(k - 1)
  }

  /** A poll that reads on reports after its eight reads, whatever was read before. */
  lemma {:induction false} PollReports(s: State)
    requires s.poll.Reading?
    ensures var t := Run(s, Observes(2 * CATALOGS + 1 - |s.poll.seen|));
            t.poll == Idle && |t.reports| == |s.reports| + 1 && t.reports[|s.reports|].Live?
    decreases 2 * CATALOGS - |s.poll.seen|
  {
    var left := 2 * CATALOGS + 1 - |s.poll.seen|;
    var t := Take(s, Observe);
    assert Observes(left)[0] == Observe && Observes(left)[1..] == Observes(left - 1);
    if left > 1 { PollReports(t); } else { assert Run(t, []) == t; }
  }

  /** A poll of an ended job says how it ended; any other reports after nine more steps of the poller. */
  lemma PollAnswers(s: State)
    requires s.poll.Idle?
    ensures var t := Run(s, Observes(if s.outcome.Some? then 1 else 2 * CATALOGS + 2));
            && t.poll == Idle && |t.reports| == |s.reports| + 1
            && (if s.outcome.Some? then t.reports[|s.reports|] == Terminal(s.outcome.value)
                else t.reports[|s.reports|].Live?)
  {
    var t := Take(s, Observe);
    if s.outcome.Some? {
      assert Observes(1)[1..] == [] && Run(t, []) == t;
    } else {
      assert Observes(2 * CATALOGS + 2)[1..] == Observes(2 * CATALOGS + 1);
      PollReports(t);
    }
  }
}
