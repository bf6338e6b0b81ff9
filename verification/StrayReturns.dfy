/** When stray page files come back: exactly which runs hand an item out twice, and what it does to the size. */
module StrayReturns {
  import opened Wrappers
  import opened NameOrder
  import opened PageNames
  import opened Paging
  import opened Subsequences
  import PagedRuns
  import Runs
  import opened StrayRuns

  // ---------- items handed out twice ----------

  /** A further shutdown of two page objects, or the loss of the process after both page writes of one. */
  predicate MakesStray<T>(w: World<T>, e: Event<T>) {
    w.down && w.machine.shape.last.Some? && (e.Shutdown? || (e.Die? && e.writes >= 2))
  }

  function StrayMaking<T>(): (World<T>, Event<T>) -> bool {
    (w: World<T>, e: Event<T>) => MakesStray(w, e)
  }

  predicate Doubled<T>(w: World<T>, run: seq<Event<T>>, cfg: Setting) {
    Runs.Sometime(Steps(cfg), StrayMaking(), w, run)
  }

  lemma StepStrays<T>(w: World<T>, e: Event<T>, cfg: Setting)
    requires Kept(w, cfg) && Legal(w, e, cfg) && Safe(w, e)
    ensures Step(w, e, cfg).strays != [] <==> w.strays != [] || MakesStray(w, e)
  {
    hide Inv, FilesKept, PagedRuns.Operate, CountsInOrder, Load, ByName;
  }

  /** Stray page files exist exactly when some step of a safe run has made one. */
  lemma {:induction false} StraysIffDoubled<T>(w: World<T>, run: seq<Event<T>>, cfg: Setting)
    requires Kept(w, cfg) && SafeRun(w, run, cfg)
    ensures Final(w, run, cfg).strays != [] <==> w.strays != [] || Doubled(w, run, cfg)
    decreases |run|
  {
    hide Step, Safe, Legal, Kept, MakesStray;
    if run != [] {
      SafeStep(w, run[0], cfg);
      StepStrays(w, run[0], cfg);
      StraysIffDoubled(Step(w, run[0], cfg), run[1..], cfg);
    }
  }

  /** The items of the newest stray page are still in the queue or have been handed out. */
  ghost predicate Accounted<T>(w: World<T>, out: seq<T>) {
    w.strays != [] ==> forall x <- w.strays[|w.strays| - 1].items :: x in out || x in Held(w)
  }

  lemma OperateStay<T>(m: Machine<T>, op: PagedRuns.Operation<T>, cfg: Setting)
    requires Inv(m, cfg) && PagedRuns.Legal(m, PagedRuns.Do(op), cfg)
    ensures forall x <- Contents(m.shape) ::
              x in PagedRuns.OpPopped(m, op) || x in Contents(PagedRuns.Operate(m, op, cfg).shape)
  {
    PagedRuns.StepRefines(m, PagedRuns.Do(op), cfg);
    assert op.Pop? ==> PagedRuns.StepAnswer(m, PagedRuns.Do(op))[0] == PopFront(m).1;
  }

  /** The newest page file that the state file lists holds the items of the last page. */
  lemma LastIsHeld<T>(w: World<T>, cfg: Setting)
    requires Kept(w, cfg) && w.down && w.machine.shape.last.Some?
    ensures forall x <- w.machine.shape.last.value :: x in Held(w)
    ensures forall x <- w.tail[|w.tail| - 1].items :: x in w.machine.shape.last.value
  {
    hide Inv, FilesKept, Flatten;
    var n := |w.tail| - 1;
    FlattenConcat(FirstFile(w.machine.shape), w.tail);
    FlattenConcat(w.tail[..n], [w.tail[n]]);
    FlattenOne(w.tail[n]);
    assert w.tail == w.tail[..n] + [w.tail[n]];
  }

  lemma StepAccounted<T>(w: World<T>, e: Event<T>, cfg: Setting, out: seq<T>)
    requires Kept(w, cfg) && Legal(w, e, cfg) && Safe(w, e) && Accounted(w, out)
    ensures Accounted(Step(w, e, cfg), out + StepPopped(w, e))
  {
    hide Contents, Inv, FilesKept, Flatten, PagedRuns.Operate, Past, Load;
    match e
    case Do(op) =>
      if w.down { DownPeek(w, op, cfg); } else { OperateStay(w.machine, op, cfg); }
    case Shutdown(stop) => ShutdownAccounted(w, stop, cfg, out);
    case Die(stop, writes, up) =>
      if Listed(w) != [] { ListedAccounted(w, stop, writes, up, cfg, out); }
  }

  lemma ListedAccounted<T>(w: World<T>, stop: nat, writes: nat, up: nat, cfg: Setting, out: seq<T>)
    requires Kept(w, cfg) && Listed(w) != [] && Accounted(w, out)
    ensures Accounted(Step(w, Die(stop, writes, up), cfg), out + [])
  {
    var more, w' := if writes >= 2 then LastFile(w.machine, stop) else [], Step(w, Die(stop, writes, up), cfg);
    assert out + [] == out && w'.strays == w.strays + more;
    ListedHeld(w, stop, writes, up, cfg);
    if w.machine.shape.last.Some? { LastIsHeld(w, cfg); }
    hide Kept, Held, Step, Listed;
    assert more == [] ==> w'.strays == w.strays;
    assert more != [] ==> w'.strays[|w'.strays| - 1].items == w.machine.shape.last.value;
  }

  lemma ShutdownAccounted<T>(w: World<T>, stop: nat, cfg: Setting, out: seq<T>)
    requires Kept(w, cfg) && ClockOk(w.machine, stop, cfg.width) && Accounted(w, out)
    ensures Accounted(Step(w, Shutdown(stop), cfg), out + [])
  {
    var w' := Step(w, Shutdown(stop), cfg);
    assert out + [] == out;
    ShutdownHeld(w, stop, cfg);
    if w.down && w.machine.shape.last.Some? {
      assert w'.strays == w.strays + w.tail && w.tail != [];
      LastIsHeld(w, cfg);
      hide Kept, Held, LastItems, Step;
      var last := w.tail[|w.tail| - 1];
      assert w'.strays[|w'.strays| - 1] == last;
      forall x | x in last.items ensures x in Held(w') {
        LastItemHeld(w.machine.shape, x);
      }
    } else {
      if w.down { OnlyFirst(w); }
      assert w'.strays == w.strays + [] == w.strays;
      hide Kept, Held, Step;
    }
  }

  lemma LastItemHeld<T>(s: Shape<T>, x: T)
    requires s.last.Some? && x in s.last.value
    ensures x in s.first + LastItems(s)
  {
  }

  lemma OnlyFirst<T>(w: World<T>)
    requires w.down && w.tail == []
    ensures Held(w) == w.machine.shape.first
  {
    FlattenNothing<T>();
    FlattenOne(StoredPage(Zero, w.machine.shape.first));
    assert FirstFile(w.machine.shape) + [] == FirstFile(w.machine.shape);
  }

  lemma {:induction false} RunAccounted<T>(w: World<T>, run: seq<Event<T>>, cfg: Setting, out: seq<T>)
    requires Kept(w, cfg) && SafeRun(w, run, cfg) && Accounted(w, out)
    ensures Accounted(Final(w, run, cfg), out + Popped(w, run, cfg))
    decreases |run|
  {
    hide Kept, Step, Safe, Legal, Accounted, StepPopped;
    if run == [] {
      assert out + [] == out;
    } else {
      var popped, w' := StepPopped(w, run[0]), Step(w, run[0], cfg);
      SafeStep(w, run[0], cfg);
      StepAccounted(w, run[0], cfg, out);
      RunAccounted(w', run[1..], cfg, out + popped);
      assert out + popped + Popped(w', run[1..], cfg) == out + (popped + Popped(w', run[1..], cfg));
    }
  }

  function Pops<T>(n: nat): seq<Event<T>> {
    if n == 0 then [] else [Do(PagedRuns.Pop)] + Pops(n - 1)
  }

  /** Popping as often as there are items hands out the whole sequence, and touches no stray page. */
  lemma {:induction false} PopsDrain<T>(w: World<T>, cfg: Setting, n: nat)
    requires Kept(w, cfg) && !w.down && n == |Contents(w.machine.shape)|
    ensures var w', pops := Final(w, Pops(n), cfg), Pops<T>(n);
            && SafeRun(w, pops, cfg) && OnlyBackPushes(pops)
            && Popped(w, pops, cfg) == Contents(w.machine.shape) && Pushed(w, pops, cfg) == []
            && w' == w.(machine := w'.machine) && w'.machine.time == w.machine.time
            && w'.machine.shape == Shape([], [], None)
    decreases n
  {
    hide Contents, Kept, Inv;
    KeptInv(w, cfg);
    if n == 0 {
      EmptyIsOnePage(w.machine, cfg);
    } else {
      var e: Event<T> := Do(PagedRuns.Pop);
      PopFrontRemovesHead(w.machine, cfg);
      StepKept(w, e, cfg);
      PopsDrain(Step(w, e, cfg), cfg, n - 1);
      assert Pops<T>(n)[1..] == Pops<T>(n - 1);
    }
  }

  lemma KeptInv<T>(w: World<T>, cfg: Setting)
    requires Kept(w, cfg)
    ensures Inv(w.machine, cfg) && (!w.down ==> w.tail == [])
  {
  }

  lemma {:induction false} FlattenHas<T>(pages: seq<StoredPage<T>>, p: StoredPage<T>, x: T)
    requires p in pages && x in p.items
    ensures x in Flatten(pages)
  {
    if pages[0] != p { FlattenHas(pages[1..], p, x); }
  }

  lemma StraysComeBack<T>(strays: seq<StoredPage<T>>, queue: string, p: StoredPage<T>, x: T)
    requires p in strays && x in p.items
    ensures x in Flatten(ByName(queue, strays))
  {
    assert p in multiset(strays);
    FlattenHas(ByName(queue, strays), p, x);
  }

  /** The loss of a drained queue brings every stray page back. */
  lemma DrainedCrash<T>(w: World<T>, stop: nat, up: nat, cfg: Setting)
    requires w.machine.shape == Shape([], [], None) && !w.down && w.tail == []
    ensures Held(Step(w, Die(stop, 0, up), cfg)) == Flatten(ByName(cfg.queue, w.strays))
  {
    hide Load, Contents, Sort;
    assert CrashPages(w, stop, 0) == w.strays;
    LoadContents(ByName(cfg.queue, w.strays));
  }

  /** A run is continued by draining the queue and losing the process. */
  function DrainAndCrash<T>(w: World<T>, stop: nat, up: nat): seq<Event<T>> {
    Pops(|Contents(w.machine.shape)|) + [Die(stop, 0, up)]
  }

  lemma DrainAndCrashSeen<T>(w: World<T>, stop: nat, up: nat, cfg: Setting)
    requires Kept(w, cfg) && !w.down && ClockOk(w.machine, stop, cfg.width) && stop < up
    ensures var run := DrainAndCrash(w, stop, up);
            && OnlyBackPushes(run) && Pushed(w, run, cfg) == []
            && (w.strays == [] ==> SafeRun(w, run, cfg))
            && Seen(w, run, cfg) == Contents(w.machine.shape) + Flatten(ByName(cfg.queue, w.strays))
  {
    hide Contents, Kept, Inv, ByName, Flatten, Final, SafeRun, Popped, Pushed, Seen, Step, Held, OnlyBackPushes, Legal, Safe;
    var n, e: Event<T> := |Contents(w.machine.shape)|, Die(stop, 0, up);
    var w' := Final(w, Pops(n), cfg);
    PopsDrain(w, cfg, n);
    KeptInv(w, cfg);
    RunConcat(w, Pops(n), [e], cfg);
    DrainedCrash(w', stop, up, cfg);
    OneStep(w', e, cfg);
    NothingFirst(Contents(w.machine.shape), Held(Step(w', e, cfg)));
    if w.strays == [] { EmptyScan(w', stop, up, cfg); }
    NoPushes(Pops(n), e);
  }

  lemma NothingFirst<T>(a: seq<T>, b: seq<T>)
    ensures a + ([] + b) == a + b
  {
  }

  lemma NoPushes<T>(pops: seq<Event<T>>, e: Event<T>)
    requires OnlyBackPushes(pops) && e.Die?
    ensures OnlyBackPushes(pops + [e])
  {
  }

  lemma EmptyScan<T>(w: World<T>, stop: nat, up: nat, cfg: Setting)
    requires w.machine.shape == Shape([], [], None) && !w.down && w.tail == [] && w.strays == []
    requires ClockOk(w.machine, stop, cfg.width) && stop < up
    ensures Legal(w, Die(stop, 0, up), cfg) && Safe(w, Die(stop, 0, up))
  {
    assert CrashPages(w, stop, 0) == [];
  }

  lemma OneStep<T>(w: World<T>, e: Event<T>, cfg: Setting)
    ensures Seen(w, [e], cfg) == StepPopped(w, e) + Held(Step(w, e, cfg))
    ensures Pushed(w, [e], cfg) == StepPushed(w, e)
    ensures Legal(w, e, cfg) && Safe(w, e) ==> SafeRun(w, [e], cfg)
  {
    hide Held, Step, StepPopped, StepPushed, Legal, Safe;
    var run, w' := [e], Step(w, e, cfg);
    RunUnfolds(w, run, cfg);
    assert run[1..] == [];
    assert Seen(w', [], cfg) == Held(w') && Pushed(w', [], cfg) == [];
    assert StepPushed(w, e) + [] == StepPushed(w, e);
    assert Runs.Throughout(Steps(cfg), LegalSafe(cfg), w', []);
  }

  lemma RunConcat<T>(w: World<T>, a: seq<Event<T>>, b: seq<Event<T>>, cfg: Setting)
    ensures Seen(w, a + b, cfg) == Popped(w, a, cfg) + Seen(Final(w, a, cfg), b, cfg)
    ensures Pushed(w, a + b, cfg) == Pushed(w, a, cfg) + Pushed(Final(w, a, cfg), b, cfg)
    ensures SafeRun(w, a, cfg) && SafeRun(Final(w, a, cfg), b, cfg) ==> SafeRun(w, a + b, cfg)
  {
    hide Held, Runs.Final, Runs.Output, Runs.Throughout;
    Runs.FinalConcat(Steps(cfg), w, a, b);
    Runs.OutputConcat(Steps(cfg), Popping(), w, a, b);
    Runs.OutputConcat(Steps(cfg), Pushing(), w, a, b);
    Runs.ThroughoutConcat(Steps(cfg), LegalSafe(cfg), w, a, b);
  }

  /** With a stray page file there is an item that has been handed out, or is in the queue, and will come back. */
  lemma StrayItem<T>(w: World<T>, out: seq<T>, cfg: Setting) returns (x: T)
    requires Kept(w, cfg) && !w.down && Accounted(w, out) && w.strays != []
    ensures x in out + Contents(w.machine.shape) && x in Flatten(ByName(cfg.queue, w.strays))
  {
    StrayIsFilled(w, cfg);
    hide Contents, Kept, ByName, Flatten;
    var p := w.strays[|w.strays| - 1];
    x := p.items[0];
    StraysComeBack(w.strays, cfg.queue, p, x);
  }

  lemma SeenTwice<T>(w: World<T>, out: seq<T>, cfg: Setting)
    requires Kept(w, cfg) && !w.down && Accounted(w, out) && w.strays != []
    ensures !Distinct(out + (Contents(w.machine.shape) + Flatten(ByName(cfg.queue, w.strays))))
  {
    hide *;
    var x := StrayItem(w, out, cfg);
    var before, back := out + Contents(w.machine.shape), Flatten(ByName(cfg.queue, w.strays));
    InBoth(before, back, x);
    assert before + back == out + (Contents(w.machine.shape) + back);
  }

  lemma InBoth<T>(a: seq<T>, b: seq<T>, x: T)
    requires x in a && x in b
    ensures !Distinct(a + b)
  {
    var i, j :| 0 <= i < |a| && a[i] == x && 0 <= j < |b| && b[j] == x;
    assert (a + b)[i] == (a + b)[|a| + j];
  }

  lemma StrayIsFilled<T>(w: World<T>, cfg: Setting)
    requires Kept(w, cfg) && w.strays != []
    ensures w.strays[|w.strays| - 1].items != []
  {
    assert OnFile(w)[|w.strays| - 1] == w.strays[|w.strays| - 1];
  }

  /** Exactly when stray page files do harm: take any safe run of distinct pushes from an empty queue that ends in a
      running process, then drain the queue and lose the process. Everything seen is a subsequence of what was pushed,
      nothing handed out twice, if and only if no step of the run has made a stray page file. */
  lemma DoubleShutdownDecides<T>(run: seq<Event<T>>, cfg: Setting, start: nat, stop: nat, up: nat)
    requires SafeRun(Fresh<T>(start), run, cfg) && OnlyBackPushes(run) && Distinct(Pushed(Fresh<T>(start), run, cfg))
    requires var w' := Final(Fresh<T>(start), run, cfg);
             !w'.down && ClockOk(w'.machine, stop, cfg.width) && stop < up
    ensures var w := Fresh<T>(start);
            var longer := run + DrainAndCrash(Final(w, run, cfg), stop, up);
            && Pushed(w, longer, cfg) == Pushed(w, run, cfg)
            && (Subsequence(Seen(w, longer, cfg), Pushed(w, longer, cfg)) <==> !Doubled(w, run, cfg))
  {
    hide Contents, Kept, SafeRun, Final, Popped, Seen, Pushed, Doubled, ByName, Flatten, Subsequence, ClockOk, Accounted;
    var w := Fresh<T>(start);
    FreshKept<T>(cfg, start);
    SafeIsOrdered(w, run, cfg);
    RunKept(w, run, cfg);
    StraysIffDoubled(w, run, cfg);
    var w' := Final(w, run, cfg);
    var more := DrainAndCrash(w', stop, up);
    DrainAndCrashSeen(w', stop, up, cfg);
    RunConcat(w, run, more, cfg);
    if w'.strays == [] {
      RunIsFifo(run + more, cfg, start);
    } else {
      FreshAccounted<T>(start);
      RunAccounted(w, run, cfg, []);
      assert [] + Popped(w, run, cfg) == Popped(w, run, cfg);
      SeenTwice(w', Popped(w, run, cfg), cfg);
      if Subsequence(Seen(w, run + more, cfg), Pushed(w, run, cfg)) {
        SubsequenceDistinct(Seen(w, run + more, cfg), Pushed(w, run, cfg));
      }
    }
  }

  lemma FreshAccounted<T>(start: nat)
    ensures Accounted(Fresh<T>(start), [])
  {
  }

  // ---------- one double shutdown ----------

  /** A second shutdown of one page in front and one at the back leaves a stray copy of the last one. */
  lemma LastIsStray<T>(w: World<T>, stop: nat, again: nat, up: nat, cfg: Setting)
    requires !w.down && w.strays == [] && w.tail == []
    requires w.machine.shape.first != [] && w.machine.shape.middle == [] && w.machine.shape.last.Some?
    ensures var listed := Step(Step(w, Shutdown(stop), cfg), Shutdown(again), cfg);
            var w' := Step(listed, Die(again, 0, up), cfg);
            && !w'.down && w'.tail == [] && w'.machine.shape == w.machine.shape
            && w'.machine.lastSeq == 0 && w'.machine.count == 0 && w'.machine.time == up
            && w'.strays == [StoredPage(NextStamp(w.machine, stop), w.machine.shape.last.value)]
  {
    hide NextStamp;
  }

  /** Why the queue is drained first: a loss right after the double shutdown of pages [a] and [b] loses both pages from
      memory, and the stray copy of [b] is all there is. */
  lemma OnlyCopy<T>(a: T, b: T, w: World<T>, stop: nat, up: nat, cfg: Setting)
    requires !w.down && w.tail == [] && w.machine.shape == Shape([a], [], Some([b]))
    requires |w.strays| == 1 && w.strays[0].items == [b]
    ensures Held(Step(w, Die(stop, 0, up), cfg)) == [b]
  {
    hide NextStamp, LexLess, PageFile, Load, Contents;
    var p := w.strays[0];
    assert w.strays == [p] && CrashPages(w, stop, 0) == [p];
    SortOfAscending(NameOf(cfg.queue), [p]);
    LoadContents([p]);
    FlattenOne(p);
  }

  // ---------- no more items than a page holds ----------

  /** The pushes of a run, at either end, refused or not. */
  function Pushes<T>(run: seq<Event<T>>): nat {
    if run == [] then 0
    else (if run[0].Do? && (run[0].op.PushBackAt? || run[0].op.PushFrontOf?) then 1 else 0) + Pushes(run[1..])
  }

  /** One page object, no page file. */
  predicate OnePage<T>(w: World<T>) {
    w.machine.shape.last.None? && OnFile(w) == []
  }

  lemma StepOnePage<T>(w: World<T>, e: Event<T>, cfg: Setting)
    requires OnePage(w) && |w.machine.shape.first| + Pushes([e]) <= cfg.maxItems
    ensures var w' := Step(w, e, cfg);
            OnePage(w') && |w'.machine.shape.first| <= |w.machine.shape.first| + Pushes([e])
  {
    hide NextStamp;
    assert w.strays == [] && w.tail == [] && w.machine.shape.middle == [];
    if e.Die? { DieOnePage(w, e.stop, e.writes, e.up, cfg); }
  }

  lemma DieOnePage<T>(w: World<T>, stop: nat, writes: nat, up: nat, cfg: Setting)
    requires OnePage(w)
    ensures var w' := Step(w, Die(stop, writes, up), cfg);
            OnePage(w') && |w'.machine.shape.first| <= |w.machine.shape.first|
  {
    hide NextStamp, Sort;
    var first, pages := w.machine.shape.first, CrashPages(w, stop, writes);
    assert w.strays == [] && w.tail == [] && w.machine.shape.middle == [];
    assert pages == if writes >= 1 then FirstFile(w.machine.shape) else [];
    OneFound(pages, cfg.queue, first);
  }

  lemma OneFound<T>(pages: seq<StoredPage<T>>, queue: string, first: seq<T>)
    requires |pages| <= 1 && forall p <- pages :: p.items == first
    ensures ByName(queue, pages) == pages
  {
    hide PageFile, LexLess;
    assert Ascending(Names(queue, pages));
    SortOfAscending(NameOf(queue), pages);
  }

  /** Runs that push no more items than a page holds, from one page object without page files: there is one page object
      at any time and no page file, so that any number of shutdowns leaves nothing stray, whenever the process is lost. */
  lemma {:induction false} FewPushesOnePage<T>(w: World<T>, run: seq<Event<T>>, cfg: Setting)
    requires OnePage(w) && |w.machine.shape.first| + Pushes(run) <= cfg.maxItems
    ensures OnePage(Final(w, run, cfg)) && Final(w, run, cfg).strays == []
    decreases |run|
  {
    hide Step, OnFile;
    if run == [] {
      NoStraysOnePage(w);
    } else {
      assert run == [run[0]] + run[1..] && [run[0]][1..] == [];
      StepOnePage(w, run[0], cfg);
      FewPushesOnePage(Step(w, run[0], cfg), run[1..], cfg);
    }
  }

  lemma NoStraysOnePage<T>(w: World<T>)
    requires OnePage(w)
    ensures w.strays == []
  {
  }

  // ---------- size ----------

  /** All listed pages are full; the last one that a state file lists need not be. */
  ghost predicate AllFull<T>(w: World<T>, cap: nat) {
    Full(w.machine.shape.middle, cap) && (w.tail != [] ==> Full(w.tail[..|w.tail| - 1], cap))
  }

  lemma StepFull<T>(w: World<T>, e: Event<T>, cfg: Setting)
    requires Kept(w, cfg) && Legal(w, e, cfg) && Safe(w, e) && AllFull(w, Cap(cfg.maxItems))
    ensures AllFull(Step(w, e, cfg), Cap(cfg.maxItems))
  {
    match e
    case Do(op) =>
      if w.down { DownPeek(w, op, cfg); } else { PagedRuns.StepKeepsFull(w.machine, PagedRuns.Do(op), cfg); }
    case Shutdown(stop) => ShutdownFull(w, stop, cfg);
    case Die(stop, writes, up) =>
      if Listed(w) == [] {
        SafeScan(w, stop, writes, up, cfg);
        PagedRuns.StepKeepsFull(w.machine, PagedRuns.CrashAt(stop, up, writes), cfg);
      } else {
        ListFull(FirstFile(w.machine.shape), w.tail, Cap(cfg.maxItems));
      }
  }

  lemma ShutdownFull<T>(w: World<T>, stop: nat, cfg: Setting)
    requires Kept(w, cfg) && AllFull(w, Cap(cfg.maxItems))
    ensures AllFull(Step(w, Shutdown(stop), cfg), Cap(cfg.maxItems))
  {
    var s, tail := w.machine.shape, w.machine.shape.middle + LastFile(w.machine, stop);
    assert s.last.Some? ==> tail[..|tail| - 1] == s.middle;
  }

  lemma ListFull<T>(head: seq<StoredPage<T>>, tail: seq<StoredPage<T>>, cap: nat)
    requires |head| <= 1 && (tail != [] ==> Full(tail[..|tail| - 1], cap))
    ensures Full(Load(head + tail).middle, cap)
  {
    var pages, n := head + tail, |tail| - 1;
    var kept := Load(pages).middle;
    forall i | 0 <= i < |kept| ensures |kept[i].items| == cap {
      var k := i + 1 - |head|;
      assert pages[i + 1] == tail[k] == tail[..n][k];
    }
  }

  /** Without a scan that meets stray page files, every listed page is full and the computed size is the length of the
      contents, unless a page limit of 0 meets a page file. */
  lemma {:induction false} SizeInSafeRuns<T>(w: World<T>, run: seq<Event<T>>, cfg: Setting)
    requires Kept(w, cfg) && SafeRun(w, run, cfg) && AllFull(w, Cap(cfg.maxItems))
    ensures var s := Final(w, run, cfg).machine.shape;
            && AllFull(Final(w, run, cfg), Cap(cfg.maxItems))
            && (Size(s, cfg.maxItems) == |Contents(s)| <==> cfg.maxItems >= 1 || s.middle == [])
    decreases |run|
  {
    hide Inv, AllFull, Contents, Size, Step, Legal, Safe, FilesKept, ListKept;
    if run == [] {
      SizeOfAllFull(w, cfg);
    } else {
      SafeStep(w, run[0], cfg);
      StepFull(w, run[0], cfg);
      SizeInSafeRuns(Step(w, run[0], cfg), run[1..], cfg);
    }
  }

  lemma SizeOfAllFull<T>(w: World<T>, cfg: Setting)
    requires Inv(w.machine, cfg) && AllFull(w, Cap(cfg.maxItems))
    ensures var s := w.machine.shape;
            Size(s, cfg.maxItems) == |Contents(s)| <==> cfg.maxItems >= 1 || s.middle == []
  {
    SizeOfFull(w.machine, cfg);
  }

  /** A scan that meets a short stray page puts it between full ones, and the computed size is wrong. After a double
      shutdown of pages [a, b] and [c] (`LastIsStray`) two more pushes spill the last page, and the process is lost once
      it has written its first page: five items, of which the size makes six. */
  lemma ShortPageSize<T>(w: World<T>, a: T, b: T, c: T, d: T, e: T, now: nat, up: nat, cfg: Setting)
    requires cfg.maxItems == 2 && !w.down && w.tail == [] && w.machine.shape == Shape([a, b], [], Some([c]))
    requires |w.strays| == 1 && w.strays[0].items == [c] && Wide(w.strays[0].stamp, cfg.width)
    requires w.strays[0].stamp.At? && w.strays[0].stamp.sec < now
    requires ClockOk(w.machine, now, cfg.width)
    ensures var pushed := Step(Step(w, Do(PagedRuns.PushBackAt(d, now)), cfg), Do(PagedRuns.PushBackAt(e, now)), cfg);
            var s := Step(pushed, Die(now, 1, up), cfg).machine.shape;
            && s == Shape([a, b], [w.strays[0]], Some([c, d]))
            && Size(s, cfg.maxItems) == 6 && |Contents(s)| == 5
  {
    TwoPushes(w.machine, a, b, c, d, e, now);
    var pushed := Step(Step(w, Do(PagedRuns.PushBackAt(d, now)), cfg), Do(PagedRuns.PushBackAt(e, now)), cfg);
    assert pushed == w.(machine := PushBack(PushBack(w.machine, d, 2, now), e, 2, now));
    hide PushBack, Step, Size, Contents;
    ScanWithStray(pushed, a, b, [c, d], [e], NextStamp(w.machine, now), now, up, cfg);
    ShortSize(a, b, c, d, w.strays[0]);
  }

  /** A stray page file sorts between "0" and a later page file. */
  lemma ScanWithStray<T>(w: World<T>, a: T, b: T, spilled: seq<T>, last: seq<T>, stamp: Stamp, now: nat, up: nat,
                         cfg: Setting)
    requires !w.down && w.tail == [] && w.machine.shape == Shape([a, b], [StoredPage(stamp, spilled)], Some(last))
    requires |w.strays| == 1 && Wide(w.strays[0].stamp, cfg.width) && Wide(stamp, cfg.width)
    requires w.strays[0].stamp.At? && stamp.At? && w.strays[0].stamp.sec < stamp.sec
    ensures Step(w, Die(now, 1, up), cfg).machine.shape == Shape([a, b], [w.strays[0]], Some(spilled))
  {
    hide Sort, Dec, NextStamp;
    var pages := [StoredPage(Zero, [a, b]), w.strays[0], StoredPage(stamp, spilled)];
    assert CrashPages(w, now, 1) == pages;
    StrayIncreases(pages[0], pages[1], pages[2], cfg.width);
    hide Increasing, CountsInOrder, CrashPages;
    OrphanOrderIff(cfg.queue, pages, cfg.width);
  }

  lemma StrayIncreases<T>(p: StoredPage<T>, q: StoredPage<T>, r: StoredPage<T>, width: nat)
    requires p.stamp.Zero? && q.stamp.At? && r.stamp.At? && q.stamp.sec < r.stamp.sec
    requires Wide(q.stamp, width) && Wide(r.stamp, width)
    ensures Increasing([p, q, r], width) && CountsInOrder([p, q, r])
  {
    hide Dec, Precedes;
  }

  lemma ShortSize<T>(a: T, b: T, c: T, d: T, stray: StoredPage<T>)
    requires stray.items == [c]
    ensures var s := Shape([a, b], [stray], Some([c, d]));
            Size(s, 2) == 6 && |Contents(s)| == 5
  {
    FlattenOne(stray);
  }

  lemma TwoPushes<T>(m: Machine<T>, a: T, b: T, c: T, d: T, e: T, now: nat)
    requires m.shape == Shape([a, b], [], Some([c]))
    ensures PushBack(PushBack(m, d, 2, now), e, 2, now).shape
            == Shape([a, b], [StoredPage(NextStamp(m, now), [c, d])], Some([e]))
  {
    assert [c] + [d] == [c, d];
  }
}
