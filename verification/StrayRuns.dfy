/** Runs in which a queue may be shut down any number of times before its process ends, by explicit calls and by the
    destructor, and may be lost at any point between or within: which page files are forgotten, and what happens when
    they come back. */
module StrayRuns {
  import opened Wrappers
  import opened NameOrder
  import opened PageNames
  import opened Paging
  import opened Subsequences
  import PagedRuns
  import Runs

  /** `strays` are the page files that no list mentions any more. Once the queue is `down`, the state file lists
      "0" for a non-empty first page and then `tail`. */
  datatype World<T> = World(machine: Machine<T>, strays: seq<StoredPage<T>>, tail: seq<StoredPage<T>>, down: bool)

  /** `Die` ends the process after so many page writes of a shutdown at second `stop` (0: none under way); the next
      process starts at second `up`. */
  datatype Event<T> =
    | Do(op: PagedRuns.Operation<T>)
    | Shutdown(stop: nat)
    | Die(stop: nat, writes: nat, up: nat)

  /** The page files under generated names, in no particular order. */
  function OnFile<T>(w: World<T>): seq<StoredPage<T>> {
    w.strays + w.tail + w.machine.shape.middle
  }

  function FirstFile<T>(s: Shape<T>): seq<StoredPage<T>> {
    if s.first != [] then [StoredPage(Zero, s.first)] else []
  }

  function LastFile<T>(m: Machine<T>, stop: nat): seq<StoredPage<T>> {
    if m.shape.last.Some? then [StoredPage(NextStamp(m, stop), m.shape.last.value)] else []
  }

  /** What the state file lists; nothing if there is no state file. */
  function Listed<T>(w: World<T>): seq<StoredPage<T>> {
    if w.down then FirstFile(w.machine.shape) + w.tail else []
  }

  /** All page files after so many page writes. */
  function CrashPages<T>(w: World<T>, stop: nat, writes: nat): seq<StoredPage<T>> {
    WrittenPages(w.machine.shape.(middle := OnFile(w)), NextStamp(w.machine, stop), writes)
  }

  function Started<T>(pages: seq<StoredPage<T>>, strays: seq<StoredPage<T>>, up: nat): World<T> {
    World(Machine(Load(pages), 0, 0, up), strays, [], false)
  }

  /** The page files that the next process lists: those of the state file, or without one all that it finds. */
  function Recovered<T>(w: World<T>, stop: nat, writes: nat, queue: string): seq<StoredPage<T>> {
    if Listed(w) != [] then Listed(w) else ByName(queue, CrashPages(w, stop, writes))
  }

  /** After a shutdown, `pop_front` and the pushes are refused and `front` is not. */
  function Step<T>(w: World<T>, e: Event<T>, cfg: Setting): World<T> {
    var m := w.machine;
    match e
    case Do(op) => if w.down && !op.Peek? then w else w.(machine := PagedRuns.Operate(m, op, cfg))
    case Shutdown(stop) => World(AfterShutdown(m, stop), w.strays + w.tail, m.shape.middle + LastFile(m, stop), true)
    case Die(stop, writes, up) =>
      if Listed(w) != [] then
        Started(Listed(w), w.strays + (if writes >= 2 then LastFile(m, stop) else []), up)
      else
        Started(ByName(cfg.queue, CrashPages(w, stop, writes)), [], up)
  }

  /** The clock never goes back and keeps its digit width, a new process starts in a later second, and `front` does
      not merge the two pages of a queue that has been shut down. */
  predicate Legal<T>(w: World<T>, e: Event<T>, cfg: Setting) {
    match e
    case Do(PushBackAt(_, now)) => ClockOk(w.machine, now, cfg.width)
    case Do(Peek) => !w.down || w.machine.shape.first != [] || w.machine.shape.last.None?
    case Do(_) => true
    case Shutdown(stop) => ClockOk(w.machine, stop, cfg.width)
    case Die(stop, _, up) => ClockOk(w.machine, stop, cfg.width) && stop < up
  }

  /** The next process finds no state file. */
  predicate Scans<T>(w: World<T>, e: Event<T>) {
    e.Die? && Listed(w) == []
  }

  /** An orphan scan meets files whose counts are written in order. */
  predicate Ordered<T>(w: World<T>, e: Event<T>) {
    Scans(w, e) ==> CountsInOrder(CrashPages(w, e.stop, e.writes))
  }

  /** And it meets no stray page file. */
  predicate Safe<T>(w: World<T>, e: Event<T>) {
    Ordered(w, e) && (Scans(w, e) ==> w.strays == [])
  }

  /** What is in the queue: what a running process holds, or what the state file lists. */
  function Held<T>(w: World<T>): seq<T> {
    if w.down then Flatten(Listed(w)) else Contents(w.machine.shape)
  }

  /** The page files are apart, given out before, and hold some items but no more than a page. */
  ghost predicate FilesKept<T>(w: World<T>, cfg: Setting) {
    && Separate(OnFile(w), cfg.width)
    && forall i :: 0 <= i < |OnFile(w)| ==>
         Past(OnFile(w)[i].stamp, w.machine) && 1 <= |OnFile(w)[i].items| <= Cap(cfg.maxItems)
  }

  /** The state file lists the two pages, and nothing that is listed is in `persistedFileNames`. */
  ghost predicate ListKept<T>(w: World<T>, cfg: Setting) {
    var s := w.machine.shape;
    if w.down then
      && s.middle == [] && Increasing(w.tail, cfg.width)
      && (if s.last.Some? then w.tail != [] && w.tail[|w.tail| - 1].items == s.last.value else w.tail == [])
    else
      w.tail == []
  }

  ghost predicate Kept<T>(w: World<T>, cfg: Setting) {
    Inv(w.machine, cfg) && FilesKept(w, cfg) && ListKept(w, cfg)
  }

  // ---------- page files ----------

  lemma PastIsBefore<T>(stamp: Stamp, m: Machine<T>, now: nat, width: nat)
    requires Past(stamp, m) && ClockOk(m, now, width)
    ensures NextStamp(m, now).At? && Wide(NextStamp(m, now), width) && Before(stamp, NextStamp(m, now))
  {
  }

  lemma NextIsWide<T>(m: Machine<T>, now: nat, width: nat)
    requires ClockOk(m, now, width)
    ensures NextStamp(m, now).At? && Wide(NextStamp(m, now), width)
  {
  }

  /** A page under the next stamp is apart from all there are. */
  lemma OneMoreFile<T>(w: World<T>, p: StoredPage<T>, now: nat, cfg: Setting)
    requires FilesKept(w, cfg) && ClockOk(w.machine, now, cfg.width) && p.stamp == NextStamp(w.machine, now)
    ensures Separate(OnFile(w) + [p], cfg.width)
  {
    hide Before, Wide, Past, NextStamp, ClockOk;
    var all := OnFile(w);
    NextIsWide(w.machine, now, cfg.width);
    forall i | 0 <= i < |all| ensures all[i].stamp != p.stamp {
      PastIsBefore(all[i].stamp, w.machine, now, cfg.width);
      BeforeIsStrict(all[i].stamp, p.stamp);
    }
  }

  lemma {:induction false} TwoPlaces<T>(s: seq<T>, x: T) returns (i: nat, j: nat)
    requires multiset(s)[x] >= 2
    ensures i < j < |s| && s[i] == x && s[j] == x
  {
    var n := |s| - 1;
    assert s == s[..n] + [s[n]];
    if s[n] == x {
      assert x in s[..n];
      i :| 0 <= i < n && s[..n][i] == x;
      j := n;
    } else {
      i, j := TwoPlaces(s[..n], x);
    }
  }

  /** Leaving page files out, and moving them, keeps them apart. */
  lemma SeparatePart<T>(part: seq<StoredPage<T>>, all: seq<StoredPage<T>>, width: nat)
    requires Separate(all, width) && multiset(part) <= multiset(all)
    ensures Separate(part, width)
  {
    hide Wide;
    forall p | p in part ensures p in all {
      assert p in multiset(part) && p in multiset(all);
    }
    forall i | 0 <= i < |part| ensures Wide(part[i].stamp, width) {
      assert part[i] in part;
      var k :| 0 <= k < |all| && all[k] == part[i];
    }
    forall i, j | 0 <= i < j < |part| ensures part[i].stamp != part[j].stamp {
      if part[i] == part[j] {
        TwiceIn(part, i, j);
        var k, l := TwoPlaces(all, part[i]);
      } else {
        assert part[i] in part && part[j] in part;
        var k :| 0 <= k < |all| && all[k] == part[i];
        var l :| 0 <= l < |all| && all[l] == part[j];
      }
    }
  }

  lemma TwiceIn<T>(s: seq<T>, i: nat, j: nat)
    requires i < j < |s| && s[i] == s[j]
    ensures multiset(s)[s[i]] >= 2
  {
    assert s == s[..j] + s[j..];
    assert s[..j][i] == s[i] && s[j..][0] == s[i];
    assert s[i] in s[..j] && s[i] in s[j..];
  }

  lemma FilesFrom<T>(w: World<T>, w': World<T>, more: seq<StoredPage<T>>, cfg: Setting)
    requires FilesKept(w, cfg) && Separate(OnFile(w'), cfg.width)
    requires forall p <- OnFile(w') :: p in OnFile(w) || p in more
    requires forall p <- OnFile(w) :: Past(p.stamp, w.machine) ==> Past(p.stamp, w'.machine)
    requires forall p <- more :: Past(p.stamp, w'.machine) && 1 <= |p.items| <= Cap(cfg.maxItems)
    ensures FilesKept(w', cfg)
  {
    hide Past, Separate;
    forall i | 0 <= i < |OnFile(w')|
      ensures Past(OnFile(w')[i].stamp, w'.machine) && 1 <= |OnFile(w')[i].items| <= Cap(cfg.maxItems)
    {
      var p := OnFile(w')[i];
      assert p in OnFile(w');
      if p in OnFile(w) {
        var k :| 0 <= k < |OnFile(w)| && OnFile(w)[k] == p;
      }
    }
  }

  // ---------- one step ----------

  lemma OperateInv<T>(m: Machine<T>, op: PagedRuns.Operation<T>, cfg: Setting)
    requires Inv(m, cfg) && PagedRuns.Legal(m, PagedRuns.Do(op), cfg)
    ensures Inv(PagedRuns.Operate(m, op, cfg), cfg)
  {
    PagedRuns.StepInv(m, PagedRuns.Do(op), cfg);
  }

  /** What an operation does to the page files: nothing, or the first goes, or the last page joins them. */
  lemma OperateMiddle<T>(m: Machine<T>, op: PagedRuns.Operation<T>, cfg: Setting)
    requires Inv(m, cfg)
    ensures var kept := PagedRuns.Operate(m, op, cfg).shape.middle;
            || kept == m.shape.middle
            || (m.shape.middle != [] && kept == m.shape.middle[1..])
            || (op.PushBackAt? && kept == m.shape.middle + LastFile(m, op.now) && m.shape.last.Some?)
  {
  }

  lemma PastOperate<T>(stamp: Stamp, m: Machine<T>, op: PagedRuns.Operation<T>, cfg: Setting)
    requires Inv(m, cfg) && Past(stamp, m) && PagedRuns.Legal(m, PagedRuns.Do(op), cfg)
    ensures Past(stamp, PagedRuns.Operate(m, op, cfg))
  {
  }

  lemma OperateKept<T>(w: World<T>, op: PagedRuns.Operation<T>, cfg: Setting)
    requires Kept(w, cfg) && !w.down && PagedRuns.Legal(w.machine, PagedRuns.Do(op), cfg)
    ensures Kept(w.(machine := PagedRuns.Operate(w.machine, op, cfg)), cfg)
  {
    var m, m' := w.machine, PagedRuns.Operate(w.machine, op, cfg);
    var w' := w.(machine := m');
    var was, kept := m.shape.middle, m'.shape.middle;
    hide Past, PagedRuns.Operate, Before, Wide, PagedRuns.Legal, Separate;
    OperateInv(m, op, cfg);
    OperateMiddle(m, op, cfg);
    forall p | p in OnFile(w) && Past(p.stamp, m) ensures Past(p.stamp, m') {
      PastOperate(p.stamp, m, op, cfg);
    }
    if kept == was {
      FilesFrom(w, w', [], cfg);
    } else if was != [] && kept == was[1..] {
      Fewer(w.strays + w.tail, was);
      SeparatePart(OnFile(w'), OnFile(w), cfg.width);
      FilesFrom(w, w', [], cfg);
    } else {
      var p := StoredPage(NextStamp(m, op.now), m.shape.last.value);
      SpillMore(m, op, cfg);
      OneMoreFile(w, p, op.now, cfg);
      assert OnFile(w') == OnFile(w) + [p];
      assert kept[|was|] == p;
      FilesFrom(w, w', [p], cfg);
    }
  }

  lemma Fewer<T>(a: seq<T>, b: seq<T>)
    requires b != []
    ensures multiset(a + b[1..]) <= multiset(a + b)
  {
    assert b == [b[0]] + b[1..];
  }

  lemma SpillMore<T>(m: Machine<T>, op: PagedRuns.Operation<T>, cfg: Setting)
    requires PagedRuns.Legal(m, PagedRuns.Do(op), cfg) && op.PushBackAt?
    ensures ClockOk(m, op.now, cfg.width)
  {
  }

  lemma DoKept<T>(w: World<T>, op: PagedRuns.Operation<T>, cfg: Setting)
    requires Kept(w, cfg) && Legal(w, Do(op), cfg)
    ensures Kept(Step(w, Do(op), cfg), cfg)
  {
    if !w.down {
      OperateKept(w, op, cfg);
    } else {
      assert Step(w, Do(op), cfg) == w;
    }
  }

  lemma PastAfterShutdown<T>(stamp: Stamp, m: Machine<T>, stop: nat)
    requires Past(stamp, m) && m.time <= stop
    ensures Past(stamp, AfterShutdown(m, stop))
  {
  }

  lemma ShutdownKept<T>(w: World<T>, stop: nat, cfg: Setting)
    requires Kept(w, cfg) && ClockOk(w.machine, stop, cfg.width)
    ensures Kept(Step(w, Shutdown(stop), cfg), cfg)
  {
    var m, w' := w.machine, Step(w, Shutdown(stop), cfg);
    AfterShutdownInv(m, cfg, stop);
    ShutdownTail(m, cfg, stop);
    hide Inv, Past, Before, Wide, Separate, Increasing, NextStamp, ClockOk;
    forall p | p in OnFile(w) && Past(p.stamp, m) ensures Past(p.stamp, w'.machine) {
      PastAfterShutdown(p.stamp, m, stop);
    }
    if m.shape.last.None? {
      assert OnFile(w') == OnFile(w);
      FilesFrom(w, w', [], cfg);
    } else {
      var p := StoredPage(NextStamp(m, stop), m.shape.last.value);
      OneMoreFile(w, p, stop, cfg);
      assert OnFile(w') == OnFile(w) + [p];
      FilesFrom(w, w', [p], cfg);
    }
  }

  /** What a shutdown lists after "0", and that the new stamp is given out by then. */
  lemma ShutdownTail<T>(m: Machine<T>, cfg: Setting, stop: nat)
    requires Inv(m, cfg) && ClockOk(m, stop, cfg.width)
    ensures Increasing(m.shape.middle + LastFile(m, stop), cfg.width)
    ensures m.shape.last.None? ==> m.shape.middle == []
    ensures m.shape.last.Some? ==>
              Past(NextStamp(m, stop), AfterShutdown(m, stop)) && 1 <= |m.shape.last.value| <= Cap(cfg.maxItems)
  {
    NextStampIsLater(m, cfg, stop);
  }

  // ---------- the end of a process ----------

  /** A page file that is past when its process ends: of an earlier second than the next start, and of a page's size. */
  predicate Older<T>(p: StoredPage<T>, up: nat, cfg: Setting) {
    p.stamp.At? ==> p.stamp.sec < up && 1 <= |p.items| <= Cap(cfg.maxItems)
  }

  lemma OlderPages<T>(pages: seq<StoredPage<T>>, up: nat, cfg: Setting)
    requires Increasing(pages, cfg.width) && forall p <- pages :: Older(p, up, cfg)
    ensures PagesOk(pages, cfg) && OlderThan(pages, up)
  {
    hide Cap;
    forall i | 0 <= i < |pages| ensures pages[i].stamp.At? ==> pages[i].stamp.sec < up {
      assert pages[i] in pages;
    }
    forall i | 0 < i < |pages| ensures 1 <= |pages[i].items| <= Cap(cfg.maxItems) {
      assert Before(pages[0].stamp, pages[i].stamp) && pages[i] in pages;
    }
  }

  lemma StartKept<T>(pages: seq<StoredPage<T>>, strays: seq<StoredPage<T>>, up: nat, cfg: Setting)
    requires PagesOk(pages, cfg) && OlderThan(pages, up)
    requires Separate(strays + Load(pages).middle, cfg.width)
    requires forall p <- strays :: p.stamp.At? && Older(p, up, cfg)
    ensures Kept(Started(pages, strays, up), cfg)
  {
    var w := Started(pages, strays, up);
    LoadInv(pages, cfg, up);
    hide Load, PagesOk, OlderThan, Separate, Increasing;
    assert OnFile(w) == strays + w.machine.shape.middle;
    forall i | 0 <= i < |OnFile(w)|
      ensures Past(OnFile(w)[i].stamp, w.machine) && 1 <= |OnFile(w)[i].items| <= Cap(cfg.maxItems)
    {
      if i < |strays| {
        assert OnFile(w)[i] == strays[i] && strays[i] in strays;
      } else {
        assert OnFile(w)[i] == w.machine.shape.middle[i - |strays|];
      }
    }
  }

  lemma FilesOlder<T>(w: World<T>, stop: nat, up: nat, cfg: Setting)
    requires FilesKept(w, cfg) && w.machine.time <= stop < up
    ensures forall p <- OnFile(w) :: p.stamp.At? && Older(p, up, cfg)
  {
    forall p | p in OnFile(w) ensures p.stamp.At? && Older(p, up, cfg) {
      var i :| 0 <= i < |OnFile(w)| && OnFile(w)[i] == p;
      assert Past(p.stamp, w.machine);
    }
  }

  lemma LastOlder<T>(m: Machine<T>, stop: nat, up: nat, cfg: Setting)
    requires Inv(m, cfg) && ClockOk(m, stop, cfg.width) && stop < up
    ensures forall p <- LastFile(m, stop) :: p.stamp.At? && Older(p, up, cfg)
  {
  }

  lemma ListIncreases<T>(w: World<T>, cfg: Setting)
    requires FilesKept(w, cfg) && ListKept(w, cfg)
    ensures Increasing(Listed(w), cfg.width)
  {
    forall i | 0 <= i < |w.tail| ensures w.tail[i].stamp.At? {
      assert OnFile(w)[|w.strays| + i] == w.tail[i];
      assert Past(OnFile(w)[|w.strays| + i].stamp, w.machine);
    }
  }

  /** The page files that a start from the state file does not load are in the tail. */
  lemma LoadMiddle<T>(head: seq<StoredPage<T>>, tail: seq<StoredPage<T>>)
    requires |head| <= 1
    ensures multiset(Load(head + tail).middle) <= multiset(tail)
  {
    var pages, n := head + tail, |tail| - 1;
    if |pages| >= 2 {
      if head == [] {
        assert pages == tail;
        SliceOf(tail, 1, n);
      } else {
        forall i | 0 <= i < n ensures pages[1..|pages| - 1][i] == tail[0..n][i] {
        }
        assert pages[1..|pages| - 1] == tail[0..n];
        SliceOf(tail, 0, n);
      }
    }
  }

  lemma SliceOf<T>(s: seq<T>, from: nat, to: nat)
    requires from <= to <= |s|
    ensures multiset(s[from..to]) <= multiset(s)
  {
    assert s == s[..from] + s[from..to] + s[to..];
  }

  lemma WithLastSeparate<T>(w: World<T>, stop: nat, cfg: Setting)
    requires FilesKept(w, cfg) && ClockOk(w.machine, stop, cfg.width)
    ensures Separate(OnFile(w) + LastFile(w.machine, stop), cfg.width)
  {
    if w.machine.shape.last.Some? {
      OneMoreFile(w, StoredPage(NextStamp(w.machine, stop), w.machine.shape.last.value), stop, cfg);
    } else {
      assert OnFile(w) + [] == OnFile(w);
    }
  }

  lemma ListedOlder<T>(w: World<T>, stop: nat, up: nat, cfg: Setting)
    requires Kept(w, cfg) && w.machine.time <= stop < up
    ensures PagesOk(Listed(w), cfg) && OlderThan(Listed(w), up)
  {
    ListIncreases(w, cfg);
    FilesOlder(w, stop, up, cfg);
    ZeroIsOlder(w.machine.shape, up, cfg);
    hide Inv, Past, Increasing, Separate, Older, PagesOk, OlderThan;
    forall p | p in Listed(w) ensures Older(p, up, cfg) {
      assert p in FirstFile(w.machine.shape) || p in OnFile(w);
    }
    OlderPages(Listed(w), up, cfg);
  }

  lemma ListedKept<T>(w: World<T>, stop: nat, writes: nat, up: nat, cfg: Setting)
    requires Kept(w, cfg) && ClockOk(w.machine, stop, cfg.width) && stop < up && Listed(w) != []
    ensures Kept(Step(w, Die(stop, writes, up), cfg), cfg)
  {
    var last, more := LastFile(w.machine, stop), if writes >= 2 then LastFile(w.machine, stop) else [];
    var rest := Load(Listed(w)).middle;
    ListedOlder(w, stop, up, cfg);
    FilesOlder(w, stop, up, cfg);
    LastOlder(w.machine, stop, up, cfg);
    WithLastSeparate(w, stop, cfg);
    LoadMiddle(FirstFile(w.machine.shape), w.tail);
    hide Inv, Past, Increasing, Separate, Older, ClockOk, Load, PagesOk, OlderThan, LastFile;
    Rest(w.strays, w.tail, w.machine.shape.middle, last, more, rest);
    SeparatePart(w.strays + more + rest, OnFile(w) + last, cfg.width);
    StartKept(Listed(w), w.strays + more, up, cfg);
  }

  lemma Rest<T>(a: seq<T>, b: seq<T>, c: seq<T>, last: seq<T>, more: seq<T>, rest: seq<T>)
    requires multiset(rest) <= multiset(b) && (more == last || more == [])
    ensures multiset(a + more + rest) <= multiset(a + b + c + last)
  {
  }

  lemma ZeroIsOlder<T>(s: Shape<T>, up: nat, cfg: Setting)
    ensures forall p <- FirstFile(s) :: Older(p, up, cfg)
  {
  }

  /** The page files of a crash are apart, and older than the next process. */
  lemma CrashPagesApart<T>(w: World<T>, stop: nat, writes: nat, up: nat, cfg: Setting)
    requires Kept(w, cfg) && ClockOk(w.machine, stop, cfg.width) && stop < up
    ensures Separate(CrashPages(w, stop, writes), cfg.width)
    ensures forall p <- CrashPages(w, stop, writes) :: Older(p, up, cfg)
  {
    var head := if writes >= 1 then FirstFile(w.machine.shape) else [];
    var rest := OnFile(w) + (if writes >= 2 then LastFile(w.machine, stop) else []);
    assert CrashPages(w, stop, writes) == head + rest;
    FilesOlder(w, stop, up, cfg);
    LastOlder(w.machine, stop, up, cfg);
    WithLastSeparate(w, stop, cfg);
    ZeroIsOlder(w.machine.shape, up, cfg);
    hide Inv, Past, Separate, Older, ClockOk, CrashPages, OnFile, LastFile, ListKept;
    assert OnFile(w) + [] == OnFile(w);
    WithZero(w.machine.shape, rest, cfg.width);
    assert [] + rest == rest;
  }

  lemma WithZero<T>(s: Shape<T>, pages: seq<StoredPage<T>>, width: nat)
    requires Separate(pages, width) && forall p <- pages :: p.stamp.At?
    ensures Separate(FirstFile(s) + pages, width)
  {
  }

  lemma ScanKept<T>(w: World<T>, stop: nat, writes: nat, up: nat, cfg: Setting)
    requires Kept(w, cfg) && ClockOk(w.machine, stop, cfg.width) && stop < up
    requires CountsInOrder(CrashPages(w, stop, writes))
    ensures var found := ByName(cfg.queue, CrashPages(w, stop, writes));
            PagesOk(found, cfg) && OlderThan(found, up) && Kept(Started(found, [], up), cfg)
  {
    hide CrashPages, Sort, Older, CountsInOrder, ClockOk;
    var pages := CrashPages(w, stop, writes);
    var found := ByName(cfg.queue, pages);
    CrashPagesApart(w, stop, writes, up, cfg);
    ScanOrderIff(cfg.queue, pages, cfg.width);
    FoundOlder(pages, found, up, cfg);
    LoadInv(found, cfg, up);
    IncreasingIsSeparate(Load(found).middle, cfg.width);
    assert [] + Load(found).middle == Load(found).middle;
    StartKept(found, [], up, cfg);
  }

  lemma FoundOlder<T>(pages: seq<StoredPage<T>>, found: seq<StoredPage<T>>, up: nat, cfg: Setting)
    requires multiset(found) == multiset(pages) && Increasing(found, cfg.width)
    requires forall p <- pages :: Older(p, up, cfg)
    ensures PagesOk(found, cfg) && OlderThan(found, up)
  {
    SamePages(pages, found);
    OlderPages(found, up, cfg);
  }

  /** Every step keeps the invariant, orphan scans that meet stray page files included. */
  lemma StepKept<T>(w: World<T>, e: Event<T>, cfg: Setting)
    requires Kept(w, cfg) && Legal(w, e, cfg) && Ordered(w, e)
    ensures Kept(Step(w, e, cfg), cfg)
  {
    hide Kept;
    match e
    case Do(op) => DoKept(w, op, cfg);
    case Shutdown(stop) => ShutdownKept(w, stop, cfg);
    case Die(stop, writes, up) =>
      if Listed(w) != [] { ListedKept(w, stop, writes, up, cfg); } else { ScanKept(w, stop, writes, up, cfg); }
  }

  // ---------- runs ----------

  function Steps<T>(cfg: Setting): (World<T>, Event<T>) -> World<T> {
    (w: World<T>, e: Event<T>) => Step(w, e, cfg)
  }

  function LegalOrdered<T>(cfg: Setting): (World<T>, Event<T>) -> bool {
    (w: World<T>, e: Event<T>) => Legal(w, e, cfg) && Ordered(w, e)
  }

  function LegalSafe<T>(cfg: Setting): (World<T>, Event<T>) -> bool {
    (w: World<T>, e: Event<T>) => Legal(w, e, cfg) && Safe(w, e)
  }

  /** Every step is legal, and orphan scans meet counts written in order. */
  predicate OrderedRun<T>(w: World<T>, run: seq<Event<T>>, cfg: Setting) {
    Runs.Throughout(Steps(cfg), LegalOrdered(cfg), w, run)
  }

  /** And no orphan scan meets a stray page file. */
  predicate SafeRun<T>(w: World<T>, run: seq<Event<T>>, cfg: Setting) {
    Runs.Throughout(Steps(cfg), LegalSafe(cfg), w, run)
  }

  function Final<T>(w: World<T>, run: seq<Event<T>>, cfg: Setting): World<T> {
    Runs.Final(Steps(cfg), w, run)
  }

  /** The items accepted and the items handed out: a queue that has been shut down refuses both. */
  function StepPushed<T>(w: World<T>, e: Event<T>): seq<T> {
    if e.Do? && !w.down then PagedRuns.OpPushed(e.op) else []
  }

  function StepPopped<T>(w: World<T>, e: Event<T>): seq<T> {
    if e.Do? && !w.down then PagedRuns.OpPopped(w.machine, e.op) else []
  }

  function Pushing<T>(): (World<T>, Event<T>) -> seq<T> {
    (w: World<T>, e: Event<T>) => StepPushed(w, e)
  }

  function Popping<T>(): (World<T>, Event<T>) -> seq<T> {
    (w: World<T>, e: Event<T>) => StepPopped(w, e)
  }

  function Pushed<T>(w: World<T>, run: seq<Event<T>>, cfg: Setting): seq<T> {
    Runs.Output(Steps(cfg), Pushing(), w, run)
  }

  function Popped<T>(w: World<T>, run: seq<Event<T>>, cfg: Setting): seq<T> {
    Runs.Output(Steps(cfg), Popping(), w, run)
  }

  /** What a run hands out and what it leaves behind. */
  function Seen<T>(w: World<T>, run: seq<Event<T>>, cfg: Setting): seq<T> {
    Popped(w, run, cfg) + Held(Final(w, run, cfg))
  }

  predicate PushesFront<T>(e: Event<T>) {
    e.Do? && e.op.PushFrontOf?
  }

  predicate OnlyBackPushes<T>(run: seq<Event<T>>) {
    forall i :: 0 <= i < |run| ==> !PushesFront(run[i])
  }

  function Fresh<T>(start: nat): World<T> {
    World(Machine(Shape([], [], None), 0, 0, start), [], [], false)
  }

  lemma FreshKept<T>(cfg: Setting, start: nat)
    ensures Kept(Fresh<T>(start), cfg)
  {
  }

  lemma {:induction false} RunKept<T>(w: World<T>, run: seq<Event<T>>, cfg: Setting)
    requires Kept(w, cfg) && OrderedRun(w, run, cfg)
    ensures Kept(Final(w, run, cfg), cfg)
    decreases |run|
  {
    hide Kept, Step, Legal, Ordered;
    if run != [] {
      StepKept(w, run[0], cfg);
      RunKept(Step(w, run[0], cfg), run[1..], cfg);
    }
  }

  lemma {:induction false} SafeIsOrdered<T>(w: World<T>, run: seq<Event<T>>, cfg: Setting)
    requires SafeRun(w, run, cfg)
    ensures OrderedRun(w, run, cfg)
    decreases |run|
  {
    hide Step, Legal, Ordered;
    if run != [] { SafeIsOrdered(Step(w, run[0], cfg), run[1..], cfg); }
  }

  // ---------- order ----------

  /** A shutdown lists what is in the queue the first time, and the two pages the next times. */
  lemma ShutdownHeld<T>(w: World<T>, stop: nat, cfg: Setting)
    requires Kept(w, cfg) && ClockOk(w.machine, stop, cfg.width)
    ensures var w' := Step(w, Shutdown(stop), cfg);
            && (!w.down ==> Held(w') == Held(w))
            && (w.down ==> Held(w') == w.machine.shape.first + LastItems(w.machine.shape))
  {
    ShutdownLists(w, stop, cfg);
    ShutdownPagesKeep(w.machine, cfg, stop);
    if w.down { NoMiddle(w.machine.shape); }
    hide Inv, FilesKept, Flatten, ShutdownPages, Listed, Contents, Step;
    var w' := Step(w, Shutdown(stop), cfg);
    assert Held(w') == Contents(w.machine.shape);
  }

  lemma ShutdownLists<T>(w: World<T>, stop: nat, cfg: Setting)
    ensures var w' := Step(w, Shutdown(stop), cfg);
            w'.down && Listed(w') == ShutdownPages(w.machine.shape, NextStamp(w.machine, stop))
  {
    hide NextStamp;
    var s := w.machine.shape;
    assert FirstFile(s) + (s.middle + LastFile(w.machine, stop)) == FirstFile(s) + s.middle + LastFile(w.machine, stop);
  }

  lemma NoMiddle<T>(s: Shape<T>)
    ensures s.middle == [] ==> Contents(s) == s.first + LastItems(s)
  {
  }

  /** The state file of a queue that has been shut down lists its two pages, and the page files in between. */
  lemma DownHolds<T>(w: World<T>, cfg: Setting)
    requires Kept(w, cfg) && w.down
    ensures Subsequence(w.machine.shape.first + LastItems(w.machine.shape), Held(w))
  {
    hide Inv, FilesKept, Flatten, Subsequence;
    var s, n := w.machine.shape, |w.tail| - 1;
    FlattenConcat(FirstFile(s), w.tail);
    FlattenOne(StoredPage(Zero, s.first));
    FlattenNothing<T>();
    assert Held(w) == s.first + Flatten(w.tail);
    SubsequenceReflexive(LastItems(s));
    if s.last.Some? {
      assert w.tail == w.tail[..n] + [w.tail[n]];
      FlattenConcat(w.tail[..n], [w.tail[n]]);
      FlattenOne(w.tail[n]);
      SubsequenceOfLonger(LastItems(s), Flatten(w.tail[..n]), LastItems(s));
    }
    SubsequencePrepend(s.first, LastItems(s), Flatten(w.tail));
  }

  /** A start from a state file loses nothing, however many of the page writes of a further shutdown were done. */
  lemma ListedHeld<T>(w: World<T>, stop: nat, writes: nat, up: nat, cfg: Setting)
    requires Listed(w) != []
    ensures Held(Step(w, Die(stop, writes, up), cfg)) == Held(w)
  {
    LoadContents(Listed(w));
  }

  /** A safe scan is the crash of the run model. */
  lemma SafeScan<T>(w: World<T>, stop: nat, writes: nat, up: nat, cfg: Setting)
    requires Kept(w, cfg) && Safe(w, Die(stop, writes, up)) && Listed(w) == []
    requires ClockOk(w.machine, stop, cfg.width) && stop < up
    ensures Step(w, Die(stop, writes, up), cfg)
            == World(PagedRuns.Step(w.machine, PagedRuns.CrashAt(stop, up, writes), cfg), [], [], false)
    ensures PagedRuns.Legal(w.machine, PagedRuns.CrashAt(stop, up, writes), cfg)
    ensures w.down ==> w.machine.shape == Shape([], [], None)
  {
    hide Inv, FilesKept, Load, Sort, NextStamp;
    assert OnFile(w) == w.machine.shape.middle;
    assert w.machine.shape.(middle := OnFile(w)) == w.machine.shape;
  }

  lemma Alone<T>(seen: seq<T>, here: seq<T>)
    requires Subsequence(seen, here)
    ensures Subsequence([] + seen, here + [])
  {
    assert [] + seen == seen && here + [] == here;
  }

  lemma StepKeepsOrder<T>(w: World<T>, e: Event<T>, cfg: Setting)
    requires Kept(w, cfg) && Legal(w, e, cfg) && Safe(w, e) && !PushesFront(e)
    ensures Subsequence(StepPopped(w, e) + Held(Step(w, e, cfg)), Held(w) + StepPushed(w, e))
  {
    hide Contents, Inv, Increasing, Past, Subsequence, Flatten, FilesKept, PagedRuns.Operate, Crash, Restart;
    match e {
      case Do(op) =>
        if w.down {
          assert Step(w, e, cfg) == w by { DownPeek(w, op, cfg); }
          SubsequenceReflexive(Held(w));
          Alone(Held(w), Held(w));
        } else {
          OneEvent(w.machine, PagedRuns.Do(op), cfg);
        }
      case Shutdown(stop) =>
        ShutdownHeld(w, stop, cfg);
        SubsequenceReflexive(Held(w));
        if w.down { DownHolds(w, cfg); }
        Alone(Held(Step(w, e, cfg)), Held(w));
      case Die(stop, writes, up) =>
        if Listed(w) != [] {
          ListedHeld(w, stop, writes, up, cfg);
          SubsequenceReflexive(Held(w));
          Alone(Held(w), Held(w));
        } else {
          SafeScan(w, stop, writes, up, cfg);
          OneEvent(w.machine, PagedRuns.CrashAt(stop, up, writes), cfg);
          NothingListed(w);
        }
    }
  }

  lemma DownPeek<T>(w: World<T>, op: PagedRuns.Operation<T>, cfg: Setting)
    requires Kept(w, cfg) && w.down && Legal(w, Do(op), cfg)
    ensures Step(w, Do(op), cfg) == w
  {
  }

  lemma NothingListed<T>(w: World<T>)
    requires Listed(w) == []
    ensures w.down && w.machine.shape == Shape([], [], None) ==> Held(w) == Contents(w.machine.shape)
  {
  }

  lemma OneEvent<T>(m: Machine<T>, e: PagedRuns.Event<T>, cfg: Setting)
    requires Inv(m, cfg) && PagedRuns.Legal(m, e, cfg) && !PagedRuns.PushesFront(e)
    ensures Subsequence(PagedRuns.StepPopped(m, e) + Contents(PagedRuns.Step(m, e, cfg).shape),
                        Contents(m.shape) + PagedRuns.StepPushed(e))
  {
    hide Contents, PagedRuns.Step, PagedRuns.StepPushed, PagedRuns.StepPopped, Subsequence, Inv;
    var c' := Contents(PagedRuns.Step(m, e, cfg).shape);
    PagedRuns.StepConserves(m, e, cfg);
    SubsequenceReflexive(c');
    assert c' + [] == c' && PagedRuns.StepPushed(e) + [] == PagedRuns.StepPushed(e);
    PagedRuns.Compose(Contents(m.shape), PagedRuns.StepPushed(e), PagedRuns.StepPopped(m, e),
                      PagedRuns.LostInFront(m, e), c', PagedRuns.LostAtBack(m, e), [], c');
  }

  lemma RunUnfolds<T>(w: World<T>, run: seq<Event<T>>, cfg: Setting)
    requires run != []
    ensures Seen(w, run, cfg) == StepPopped(w, run[0]) + Seen(Step(w, run[0], cfg), run[1..], cfg)
    ensures Pushed(w, run, cfg) == StepPushed(w, run[0]) + Pushed(Step(w, run[0], cfg), run[1..], cfg)
  {
    hide Held, StepPushed, StepPopped, Step;
    var w' := Step(w, run[0], cfg);
    assert StepPopped(w, run[0]) + Popped(w', run[1..], cfg) + Held(Final(w', run[1..], cfg))
        == StepPopped(w, run[0]) + (Popped(w', run[1..], cfg) + Held(Final(w', run[1..], cfg)));
  }

  lemma {:induction false} RunKeepsOrder<T>(w: World<T>, run: seq<Event<T>>, cfg: Setting)
    requires Kept(w, cfg) && SafeRun(w, run, cfg) && OnlyBackPushes(run)
    ensures Subsequence(Seen(w, run, cfg), Held(w) + Pushed(w, run, cfg))
    decreases |run|
  {
    hide Held, StepPushed, StepPopped, Subsequence, Kept, Legal, Safe, Step, PushesFront;
    if run == [] {
      assert Seen(w, run, cfg) == Held(w) && Held(w) + Pushed(w, run, cfg) == Held(w);
      SubsequenceReflexive(Held(w));
    } else {
      var e, w', rest := run[0], Step(w, run[0], cfg), run[1..];
      SafeStep(w, e, cfg);
      RunKeepsOrder(w', rest, cfg);
      StepKeepsOrder(w, e, cfg);
      RunUnfolds(w, run, cfg);
      Chain(StepPopped(w, e), Seen(w', rest, cfg), Held(w'), Held(w), StepPushed(w, e), Pushed(w', rest, cfg));
    }
  }

  lemma SafeStep<T>(w: World<T>, e: Event<T>, cfg: Setting)
    requires Kept(w, cfg) && Legal(w, e, cfg) && Safe(w, e)
    ensures Ordered(w, e) && Kept(Step(w, e, cfg), cfg)
  {
    hide Kept, Legal, Ordered, Step;
    StepKept(w, e, cfg);
  }

  lemma Chain<T>(out: seq<T>, seen: seq<T>, next: seq<T>, here: seq<T>, pushed: seq<T>, later: seq<T>)
    requires Subsequence(out + next, here + pushed) && Subsequence(seen, next + later)
    ensures Subsequence(out + seen, here + (pushed + later))
  {
    hide Subsequence;
    SubsequencePrepend(out, seen, next + later);
    SubsequenceAppend(out + next, here + pushed, later);
    assert out + (next + later) == out + next + later && here + (pushed + later) == here + pushed + later;
    SubsequenceTransitive(out + seen, out + next + later, here + pushed + later);
  }

  /** Any number of shutdowns and losses included: as long as no orphan scan meets a stray page file, popped items and
      what is in the queue are a subsequence of the pushed items. */
  lemma RunIsFifo<T>(run: seq<Event<T>>, cfg: Setting, start: nat)
    ensures var w := Fresh<T>(start);
            SafeRun(w, run, cfg) && OnlyBackPushes(run) ==> Subsequence(Seen(w, run, cfg), Pushed(w, run, cfg))
  {
    hide SafeRun, Seen, Pushed, Subsequence;
    var w := Fresh<T>(start);
    if SafeRun(w, run, cfg) && OnlyBackPushes(run) {
      FreshKept<T>(cfg, start);
      RunKeepsOrder(w, run, cfg);
      assert Held(w) + Pushed(w, run, cfg) == Pushed(w, run, cfg);
    }
  }
}
