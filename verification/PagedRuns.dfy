/** Theorems over whole runs of a paged queue: any sequence of operations, restarts and crashes. */
module PagedRuns {
  import opened Wrappers
  import opened PageNames
  import opened Paging
  import opened Subsequences
  import Runs

  datatype Operation<T> =
    | PushBackAt(item: T, now: nat)
    | PushFrontOf(item: T)
    | Pop
    | Peek

  datatype Event<T> =
    | Do(op: Operation<T>)
    | RestartAt(stop: nat, up: nat)
    | CrashAt(stop: nat, up: nat, writes: nat)

  function Operate<T>(m: Machine<T>, op: Operation<T>, cfg: Setting): Machine<T> {
    match op
    case PushBackAt(x, now) => PushBack(m, x, cfg.maxItems, now)
    case PushFrontOf(x) => PushFront(m, x)
    case Pop => PopFront(m).0
    case Peek => Front(m).0
  }

  function Step<T>(m: Machine<T>, e: Event<T>, cfg: Setting): Machine<T> {
    match e
    case Do(op) => Operate(m, op, cfg)
    case RestartAt(stop, up) => Restart(m, stop, up)
    case CrashAt(stop, up, writes) => Crash(m, cfg.queue, stop, up, writes)
  }

  /** The clock never goes back and keeps its digit width, a new process starts in a later second than the
      old one stopped in, and the files that an orphan scan meets have their counts written in order. */
  predicate Legal<T>(m: Machine<T>, e: Event<T>, cfg: Setting) {
    match e
    case Do(PushBackAt(_, now)) => ClockOk(m, now, cfg.width)
    case RestartAt(stop, up) => ClockOk(m, stop, cfg.width) && stop < up
    case CrashAt(stop, up, writes) =>
      ClockOk(m, stop, cfg.width) && stop < up && CountsInOrder(WrittenPages(m.shape, NextStamp(m, stop), writes))
    case _ => true
  }

  function Steps<T>(cfg: Setting): (Machine<T>, Event<T>) -> Machine<T> {
    (m: Machine<T>, e: Event<T>) => Step(m, e, cfg)
  }

  function Legality<T>(cfg: Setting): (Machine<T>, Event<T>) -> bool {
    (m: Machine<T>, e: Event<T>) => Legal(m, e, cfg)
  }

  predicate LegalRun<T>(m: Machine<T>, run: seq<Event<T>>, cfg: Setting) {
    Runs.Throughout(Steps(cfg), Legality(cfg), m, run)
  }

  function Final<T>(m: Machine<T>, run: seq<Event<T>>, cfg: Setting): Machine<T> {
    Runs.Final(Steps(cfg), m, run)
  }

  lemma StepInv<T>(m: Machine<T>, e: Event<T>, cfg: Setting)
    requires Inv(m, cfg) && Legal(m, e, cfg)
    ensures Inv(Step(m, e, cfg), cfg)
  {
    match e
    case Do(PushBackAt(x, now)) => PushBackAppends(m, x, cfg, now);
    case Do(PushFrontOf(x)) => PushFrontPrepends(m, x, cfg);
    case Do(Pop) => PopFrontRemovesHead(m, cfg);
    case Do(Peek) => FrontPeeks(m, cfg);
    case RestartAt(stop, up) => RestartKeepsAll(m, cfg, stop, up);
    case CrashAt(stop, up, writes) => CrashKeepsFiles(m, cfg, stop, up, writes);
  }

  lemma {:induction false} ReachableInv<T>(m: Machine<T>, run: seq<Event<T>>, cfg: Setting)
    requires Inv(m, cfg) && LegalRun(m, run, cfg)
    ensures Inv(Final(m, run, cfg), cfg)
    decreases |run|
  {
    if run != [] {
      StepInv(m, run[0], cfg);
      ReachableInv(Step(m, run[0], cfg), run[1..], cfg);
    }
  }

  // ---------- refinement of one sequence ----------

  /** What each pop and each peek returns. */
  function StepAnswer<T>(m: Machine<T>, e: Event<T>): seq<Option<T>> {
    match e
    case Do(Pop) => [PopFront(m).1]
    case Do(Peek) => [Front(m).1]
    case _ => []
  }

  function Answering<T>(): (Machine<T>, Event<T>) -> seq<Option<T>> {
    (m: Machine<T>, e: Event<T>) => StepAnswer(m, e)
  }

  function Answers<T>(m: Machine<T>, run: seq<Event<T>>, cfg: Setting): seq<Option<T>> {
    Runs.Output(Steps(cfg), Answering(), m, run)
  }

  /** The same run on a plain sequence, which knows of no pages, files, clocks or restarts. */
  function PlainStep<T>(q: seq<T>, e: Event<T>): seq<T> {
    match e
    case Do(PushBackAt(x, _)) => q + [x]
    case Do(PushFrontOf(x)) => [x] + q
    case Do(Pop) => if q == [] then [] else q[1..]
    case _ => q
  }

  function PlainFinal<T>(q: seq<T>, run: seq<Event<T>>): seq<T>
    decreases |run|
  {
    if run == [] then q else PlainFinal(PlainStep(q, run[0]), run[1..])
  }

  function PlainAnswer<T>(q: seq<T>, e: Event<T>): seq<Option<T>> {
    match e
    case Do(Pop) => [if q == [] then None else Some(q[0])]
    case Do(Peek) => [if q == [] then None else Some(q[0])]
    case _ => []
  }

  function PlainAnswers<T>(q: seq<T>, run: seq<Event<T>>): seq<Option<T>>
    decreases |run|
  {
    if run == [] then [] else PlainAnswer(q, run[0]) + PlainAnswers(PlainStep(q, run[0]), run[1..])
  }

  lemma StepRefines<T>(m: Machine<T>, e: Event<T>, cfg: Setting)
    requires Inv(m, cfg) && Legal(m, e, cfg) && !e.CrashAt?
    ensures Contents(Step(m, e, cfg).shape) == PlainStep(Contents(m.shape), e)
    ensures StepAnswer(m, e) == PlainAnswer(Contents(m.shape), e)
  {
    match e
    case Do(PushBackAt(x, now)) => PushBackAppends(m, x, cfg, now);
    case Do(PushFrontOf(x)) => PushFrontPrepends(m, x, cfg);
    case Do(Pop) => PopFrontRemovesHead(m, cfg);
    case Do(Peek) => FrontPeeks(m, cfg);
    case RestartAt(stop, up) => RestartKeepsAll(m, cfg, stop, up);
  }

  /** Without crashes, a paged queue cannot be told from one plain sequence: in every run of pushes at
      both ends, pops, peeks and clean restarts, all answers and the final contents are the same. */
  lemma {:induction false} RunRefinesSequence<T>(m: Machine<T>, run: seq<Event<T>>, cfg: Setting)
    requires Inv(m, cfg) && LegalRun(m, run, cfg)
    requires forall i :: 0 <= i < |run| ==> !run[i].CrashAt?
    ensures Contents(Final(m, run, cfg).shape) == PlainFinal(Contents(m.shape), run)
    ensures Answers(m, run, cfg) == PlainAnswers(Contents(m.shape), run)
    decreases |run|
  {
    if run != [] {
      var e, m' := run[0], Step(m, run[0], cfg);
      StepInv(m, e, cfg);
      StepRefines(m, e, cfg);
      RunRefinesSequence(m', run[1..], cfg);
    }
  }

  // ---------- runs with crashes ----------

  function OpPushed<T>(op: Operation<T>): seq<T> {
    if op.PushBackAt? then [op.item] else []
  }

  function OpPopped<T>(m: Machine<T>, op: Operation<T>): seq<T> {
    if op.Pop? && PopFront(m).1.Some? then [PopFront(m).1.value] else []
  }

  function StepPushed<T>(e: Event<T>): seq<T> {
    if e.Do? then OpPushed(e.op) else []
  }

  function StepPopped<T>(m: Machine<T>, e: Event<T>): seq<T> {
    if e.Do? then OpPopped(m, e.op) else []
  }

  function Pushing<T>(): Event<T> -> seq<T> {
    (e: Event<T>) => StepPushed(e)
  }

  function Pushed<T>(run: seq<Event<T>>): seq<T> {
    Runs.Input(Pushing(), run)
  }

  function Popping<T>(): (Machine<T>, Event<T>) -> seq<T> {
    (m: Machine<T>, e: Event<T>) => StepPopped(m, e)
  }

  function Popped<T>(m: Machine<T>, run: seq<Event<T>>, cfg: Setting): seq<T> {
    Runs.Output(Steps(cfg), Popping(), m, run)
  }

  function Crashes<T>(run: seq<Event<T>>): nat {
    if run == [] then 0 else (if run[0].CrashAt? then 1 else 0) + Crashes(run[1..])
  }

  predicate PushesFront<T>(e: Event<T>) {
    e.Do? && e.op.PushFrontOf?
  }

  predicate OnlyBackPushes<T>(run: seq<Event<T>>) {
    forall i :: 0 <= i < |run| ==> !PushesFront(run[i])
  }

  function LostInFront<T>(m: Machine<T>, e: Event<T>): seq<T> {
    if e.CrashAt? && e.writes < 1 then m.shape.first else []
  }

  function LostAtBack<T>(m: Machine<T>, e: Event<T>): seq<T> {
    if e.CrashAt? && e.writes < 2 then LastItems(m.shape) else []
  }

  /** One step other than push_front: what was there and what it pushes is what it pops, then what is
      left, apart from the two ends a crash cuts off. */
  lemma StepConserves<T>(m: Machine<T>, e: Event<T>, cfg: Setting)
    requires Inv(m, cfg) && Legal(m, e, cfg) && !PushesFront(e)
    ensures Contents(m.shape) + StepPushed(e)
            == StepPopped(m, e) + LostInFront(m, e) + Contents(Step(m, e, cfg).shape) + LostAtBack(m, e)
  {
    var c, c' := Contents(m.shape), Contents(Step(m, e, cfg).shape);
    if e.CrashAt? {
      CrashKeepsFiles(m, cfg, e.stop, e.up, e.writes);
      assert c == LostInFront(m, e) + c' + LostAtBack(m, e);
      EmptyParts(c, [], LostInFront(m, e), c', LostAtBack(m, e));
    } else {
      StepRefines(m, e, cfg);
      PlainStepConserves(c, e);
      assert e == Do(Pop) ==> StepAnswer(m, e)[0] == PopFront(m).1;
      assert StepPopped(m, e) == if e == Do(Pop) && c != [] then [c[0]] else [];
      EmptyParts(c + StepPushed(e), StepPopped(m, e), [], c', []);
    }
  }

  lemma EmptyParts<T>(whole: seq<T>, out: seq<T>, f: seq<T>, c: seq<T>, b: seq<T>)
    ensures f == [] && b == [] && whole == out + c ==> whole == out + f + c + b
    ensures out == [] && whole == f + c + b ==> whole + [] == out + f + c + b
  {
  }

  lemma PlainStepConserves<T>(q: seq<T>, e: Event<T>)
    requires !PushesFront(e)
    ensures q + StepPushed(e) == (if e == Do(Pop) && q != [] then [q[0]] else []) + PlainStep(q, e)
  {
  }

  lemma Regroup<T>(c0: seq<T>, pe: seq<T>, out: seq<T>, f: seq<T>, c1: seq<T>, b: seq<T>, p: seq<T>)
    requires c0 + pe == out + f + c1 + b
    ensures c0 + (pe + p) == out + (f + (c1 + b + p))
  {
    calc {
      c0 + (pe + p);
      (c0 + pe) + p;
      (out + f + c1 + b) + p;
      (out + f) + (c1 + b + p);
      out + (f + (c1 + b + p));
    }
  }

  lemma ComposeAll<T>(c0: seq<T>, pe: seq<T>, out: seq<T>, c1: seq<T>, p: seq<T>)
    requires c0 + pe == out + [] + c1 + []
    ensures c0 + (pe + p) == out + (c1 + p)
  {
    Regroup(c0, pe, out, [], c1, [], p);
    assert [] + (c1 + [] + p) == c1 + p;
  }

  lemma Compose<T>(c0: seq<T>, pe: seq<T>, out: seq<T>, f: seq<T>, c1: seq<T>, b: seq<T>, p: seq<T>, x: seq<T>)
    requires c0 + pe == out + f + c1 + b
    requires Subsequence(x, c1 + p)
    ensures Subsequence(out + x, c0 + (pe + p))
  {
    SubsequenceAround(x, c1, b, p);
    SubsequenceOfLonger(x, f, c1 + b + p);
    SubsequencePrepend(out, x, f + (c1 + b + p));
    Regroup(c0, pe, out, f, c1, b, p);
  }

  /** What a run hands out and what it leaves behind. */
  function Seen<T>(m: Machine<T>, run: seq<Event<T>>, cfg: Setting): seq<T> {
    Popped(m, run, cfg) + Contents(Final(m, run, cfg).shape)
  }

  lemma SeenUnfolds<T>(m: Machine<T>, run: seq<Event<T>>, cfg: Setting)
    requires run != []
    ensures Seen(m, run, cfg) == StepPopped(m, run[0]) + Seen(Step(m, run[0], cfg), run[1..], cfg)
  {
  }

  lemma {:induction false} RunLosesOnlyInCrashes<T>(m: Machine<T>, run: seq<Event<T>>, cfg: Setting)
    requires Inv(m, cfg) && LegalRun(m, run, cfg) && OnlyBackPushes(run)
    ensures Subsequence(Seen(m, run, cfg), Contents(m.shape) + Pushed(run))
    decreases |run|
  {
    hide Contents, Step, StepPopped, StepPushed, LostInFront, LostAtBack, Inv, Legal, Subsequence, PushesFront;
    if run == [] {
      assert Seen(m, run, cfg) == Contents(m.shape) == Contents(m.shape) + Pushed(run);
      SubsequenceReflexive(Contents(m.shape));
    } else {
      var e, m', rest := run[0], Step(m, run[0], cfg), run[1..];
      StepInv(m, e, cfg);
      RunLosesOnlyInCrashes(m', rest, cfg);
      StepConserves(m, e, cfg);
      SeenUnfolds(m, run, cfg);
      Compose(Contents(m.shape), StepPushed(e), StepPopped(m, e), LostInFront(m, e), Contents(m'.shape),
              LostAtBack(m, e), Pushed(rest), Seen(m', rest, cfg));
    }
  }

  lemma {:induction false} RunWithoutCrashLosesNothing<T>(m: Machine<T>, run: seq<Event<T>>, cfg: Setting)
    requires Inv(m, cfg) && LegalRun(m, run, cfg) && OnlyBackPushes(run) && Crashes(run) == 0
    ensures Seen(m, run, cfg) == Contents(m.shape) + Pushed(run)
    decreases |run|
  {
    hide Contents, Step, StepPopped, StepPushed, Inv, Legal, PushesFront;
    if run != [] {
      var e, m', rest := run[0], Step(m, run[0], cfg), run[1..];
      StepInv(m, e, cfg);
      RunWithoutCrashLosesNothing(m', rest, cfg);
      StepConserves(m, e, cfg);
      SeenUnfolds(m, run, cfg);
      ComposeAll(Contents(m.shape), StepPushed(e), StepPopped(m, e), Contents(m'.shape), Pushed(rest));
    }
  }

  /** The main safety theorem: in every run of push_back, pop_front, front, clean restarts and crashes that
      starts empty, the popped items followed by the current contents are a subsequence of the pushed items
      (nothing reordered, nothing delivered twice), and all of them if there was no crash. */
  lemma RunIsFifo<T>(run: seq<Event<T>>, cfg: Setting, start: nat)
    ensures var m: Machine<T> := Machine(Shape([], [], None), 0, 0, start);
            LegalRun(m, run, cfg) && OnlyBackPushes(run) ==>
              && Subsequence(Seen(m, run, cfg), Pushed(run))
              && (Crashes(run) == 0 ==> Seen(m, run, cfg) == Pushed(run))
  {
    var m: Machine<T> := Machine(Shape([], [], None), 0, 0, start);
    InitialInv<T>(cfg, start);
    if LegalRun(m, run, cfg) && OnlyBackPushes(run) {
      RunLosesOnlyInCrashes(m, run, cfg);
      if Crashes(run) == 0 { RunWithoutCrashLosesNothing(m, run, cfg); }
      assert Contents(m.shape) + Pushed(run) == Pushed(run);
    }
  }

  // ---------- conservation, pushes at both ends included ----------

  function StepGiven<T>(e: Event<T>): multiset<T> {
    if e.Do? && (e.op.PushBackAt? || e.op.PushFrontOf?) then multiset{e.op.item} else multiset{}
  }

  function Given<T>(run: seq<Event<T>>): multiset<T> {
    if run == [] then multiset{} else StepGiven(run[0]) + Given(run[1..])
  }

  function StepLost<T>(m: Machine<T>, e: Event<T>): multiset<T> {
    multiset(LostInFront(m, e)) + multiset(LostAtBack(m, e))
  }

  /** What the crashes of a run cut off. */
  function Lost<T>(m: Machine<T>, run: seq<Event<T>>, cfg: Setting): multiset<T>
    decreases |run|
  {
    if run == [] then multiset{} else StepLost(m, run[0]) + Lost(Step(m, run[0], cfg), run[1..], cfg)
  }

  lemma StepBalances<T>(m: Machine<T>, e: Event<T>, cfg: Setting)
    requires Inv(m, cfg) && Legal(m, e, cfg)
    ensures multiset(StepPopped(m, e)) + multiset(Contents(Step(m, e, cfg).shape)) + StepLost(m, e)
            == multiset(Contents(m.shape)) + StepGiven(e)
  {
    if PushesFront(e) {
      PushFrontPrepends(m, e.op.item, cfg);
    } else {
      StepConserves(m, e, cfg);
      hide Contents, Step, StepPopped, LostInFront, LostAtBack;
      Parts(Contents(m.shape), StepPushed(e), StepPopped(m, e), LostInFront(m, e), Contents(Step(m, e, cfg).shape),
            LostAtBack(m, e));
    }
  }

  lemma Parts<T>(c: seq<T>, pushed: seq<T>, popped: seq<T>, f: seq<T>, c': seq<T>, b: seq<T>)
    requires c + pushed == popped + f + c' + b
    ensures multiset(popped) + multiset(c') + (multiset(f) + multiset(b)) == multiset(c) + multiset(pushed)
  {
    assert multiset(c + pushed) == multiset(popped + f + c' + b);
  }

  /** In every run, pushes at the front and crashes included, what was there and what was pushed is what comes out,
      what is left, and what the crashes cut off: nothing is handed out twice. */
  lemma {:induction false} RunConserves<T>(m: Machine<T>, run: seq<Event<T>>, cfg: Setting)
    requires Inv(m, cfg) && LegalRun(m, run, cfg)
    ensures multiset(Seen(m, run, cfg)) + Lost(m, run, cfg) == multiset(Contents(m.shape)) + Given(run)
    ensures multiset(Seen(m, run, cfg)) <= multiset(Contents(m.shape)) + Given(run)
    decreases |run|
  {
    hide Contents, Step, StepPopped, StepGiven, StepLost, Inv, Legal;
    if run == [] {
      assert Seen(m, run, cfg) == Contents(m.shape);
    } else {
      var e, m', rest := run[0], Step(m, run[0], cfg), run[1..];
      StepInv(m, e, cfg);
      RunConserves(m', rest, cfg);
      StepBalances(m, e, cfg);
      SeenUnfolds(m, run, cfg);
      Balance(multiset(StepPopped(m, e)), multiset(Contents(m'.shape)), StepLost(m, e), multiset(Contents(m.shape)),
              StepGiven(e), multiset(Seen(m', rest, cfg)), Lost(m', rest, cfg), Given(rest));
    }
  }

  lemma Balance<T>(out: multiset<T>, next: multiset<T>, lost: multiset<T>, here: multiset<T>, given: multiset<T>,
                   seen: multiset<T>, moreLost: multiset<T>, moreGiven: multiset<T>)
    requires out + next + lost == here + given && seen + moreLost == next + moreGiven
    ensures (out + seen) + (lost + moreLost) == here + (given + moreGiven)
  {
    calc {
      (out + seen) + (lost + moreLost);
      (out + lost) + (seen + moreLost);
      (out + lost) + (next + moreGiven);
      (out + next + lost) + moreGiven;
      (here + given) + moreGiven;
      here + (given + moreGiven);
    }
  }

  // ---------- how much a crash can lose ----------

  lemma StepKeepsFirstSmall<T>(m: Machine<T>, e: Event<T>, cfg: Setting)
    requires Inv(m, cfg) && Legal(m, e, cfg) && !PushesFront(e)
    requires |m.shape.first| <= Cap(cfg.maxItems)
    ensures |Step(m, e, cfg).shape.first| <= Cap(cfg.maxItems)
  {
    match e
    case Do(PushBackAt(x, now)) =>
    case Do(Pop) =>
    case Do(Peek) =>
    case RestartAt(stop, up) =>
      LoadFirstSmall(m.shape, NextStamp(m, stop), 2, cfg);
    case CrashAt(stop, up, writes) =>
      WrittenPagesKeep(m, cfg, stop, up, writes);
      OrphanOrderIff(cfg.queue, WrittenPages(m.shape, NextStamp(m, stop), writes), cfg.width);
      LoadFirstSmall(m.shape, NextStamp(m, stop), writes, cfg);
  }

  lemma LoadFirstSmall<T>(s: Shape<T>, stamp: Stamp, writes: nat, cfg: Setting)
    requires ShapeInv(s, Cap(cfg.maxItems)) && |s.first| <= Cap(cfg.maxItems)
    ensures |Load(WrittenPages(s, stamp, writes)).first| <= Cap(cfg.maxItems)
  {
  }

  /** Without push_front at most two pages are in memory, so each crash loses at most two pages of items. */
  lemma {:induction false} CrashLossIsBounded<T>(m: Machine<T>, run: seq<Event<T>>, cfg: Setting)
    requires Inv(m, cfg) && LegalRun(m, run, cfg) && OnlyBackPushes(run)
    requires |m.shape.first| <= Cap(cfg.maxItems)
    ensures var s := Final(m, run, cfg).shape;
            |s.first| + |LastItems(s)| <= 2 * Cap(cfg.maxItems)
    ensures |Contents(m.shape)| + |Pushed(run)|
            <= |Popped(m, run, cfg)| + |Contents(Final(m, run, cfg).shape)| + 2 * Cap(cfg.maxItems) * Crashes(run)
    decreases |run|
  {
    hide Contents, StepPushed, StepPopped, Inv, Legal, Step;
    InMemory(m, cfg);
    if run != [] {
      var e, m' := run[0], Step(m, run[0], cfg);
      StepInv(m, e, cfg);
      StepKeepsFirstSmall(m, e, cfg);
      CrashLossIsBounded(m', run[1..], cfg);
      StepConserves(m, e, cfg);
      LossStep(Cap(cfg.maxItems), |LostInFront(m, e)| + |LostAtBack(m, e)|, Crashes(run[1..]), e.CrashAt?);
      CountLengths(m, run, cfg);
      LengthsOfStep(Contents(m.shape), StepPushed(e), StepPopped(m, e), LostInFront(m, e), Contents(m'.shape),
                    LostAtBack(m, e));
    }
  }

  lemma InMemory<T>(m: Machine<T>, cfg: Setting)
    requires Inv(m, cfg) && |m.shape.first| <= Cap(cfg.maxItems)
    ensures |m.shape.first| + |LastItems(m.shape)| <= 2 * Cap(cfg.maxItems)
  {
  }

  lemma LengthsOfStep<T>(c: seq<T>, pushed: seq<T>, popped: seq<T>, f: seq<T>, c': seq<T>, b: seq<T>)
    requires c + pushed == popped + f + c' + b
    ensures |c| + |pushed| == |popped| + |f| + |c'| + |b|
  {
    assert |c + pushed| == |c| + |pushed|;
  }

  lemma CountLengths<T>(m: Machine<T>, run: seq<Event<T>>, cfg: Setting)
    requires run != []
    ensures |Pushed(run)| == |StepPushed(run[0])| + |Pushed(run[1..])|
    ensures |Popped(m, run, cfg)| == |StepPopped(m, run[0])| + |Popped(Step(m, run[0], cfg), run[1..], cfg)|
    ensures Crashes(run) == Crashes(run[1..]) + if run[0].CrashAt? then 1 else 0
  {
  }

  lemma LossStep(cap: nat, lost: nat, later: nat, crash: bool)
    requires lost <= if crash then 2 * cap else 0
    ensures lost + 2 * cap * later <= 2 * cap * (later + if crash then 1 else 0)
  {
  }

  // ---------- size ----------

  lemma StepKeepsFull<T>(m: Machine<T>, e: Event<T>, cfg: Setting)
    requires Inv(m, cfg) && Legal(m, e, cfg) && Full(m.shape.middle, Cap(cfg.maxItems))
    ensures Full(Step(m, e, cfg).shape.middle, Cap(cfg.maxItems))
  {
    match e
    case Do(PushBackAt(x, now)) =>
    case Do(PushFrontOf(x)) =>
    case Do(Pop) =>
    case Do(Peek) =>
    case RestartAt(stop, up) => LoadKeepsFull(m.shape, NextStamp(m, stop), 2, cfg);
    case CrashAt(stop, up, writes) =>
      WrittenPagesKeep(m, cfg, stop, up, writes);
      OrphanOrderIff(cfg.queue, WrittenPages(m.shape, NextStamp(m, stop), writes), cfg.width);
      LoadKeepsFull(m.shape, NextStamp(m, stop), writes, cfg);
  }

  lemma LoadKeepsFull<T>(s: Shape<T>, stamp: Stamp, writes: nat, cfg: Setting)
    requires Full(s.middle, Cap(cfg.maxItems))
    ensures Full(Load(WrittenPages(s, stamp, writes)).middle, Cap(cfg.maxItems))
  {
  }

  /** In every state that single shutdowns, restarts, crashes and operations reach from full listed pages, all listed
      pages are full, and the computed size is the length of the contents unless a page limit of 0 meets a page file. */
  lemma {:induction false} SizeInRuns<T>(m: Machine<T>, run: seq<Event<T>>, cfg: Setting)
    requires Inv(m, cfg) && LegalRun(m, run, cfg) && Full(m.shape.middle, Cap(cfg.maxItems))
    ensures var s := Final(m, run, cfg).shape;
            && Full(s.middle, Cap(cfg.maxItems))
            && (Size(s, cfg.maxItems) == |Contents(s)| <==> cfg.maxItems >= 1 || s.middle == [])
    decreases |run|
  {
    hide Inv, Full, Contents, Size, Step, Legal;
    if run == [] {
      SizeOfFull(m, cfg);
    } else {
      StepInv(m, run[0], cfg);
      StepKeepsFull(m, run[0], cfg);
      SizeInRuns(Step(m, run[0], cfg), run[1..], cfg);
    }
  }
}
