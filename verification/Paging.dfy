/** The state machine of a paged queue: where the items of one queue are (first page, page files,
    last page), which stamps the files carry, and how every operation, restart and crash moves them. */
module Paging {
  import opened Wrappers
  import opened NameOrder
  import opened PageNames

  /** A page that lives in a file. */
  datatype StoredPage<T> = StoredPage(stamp: Stamp, items: seq<T>)

  /** `last` is `None` while `lastPage` and `firstPage` are the same object. */
  datatype Shape<T> = Shape(first: seq<T>, middle: seq<StoredPage<T>>, last: Option<seq<T>>)

  /** `lastSeq` and `count` are `_lastSeqNum` and `_seqNumCount`; `time` is the latest clock reading. */
  datatype Machine<T> = Machine(shape: Shape<T>, lastSeq: nat, count: nat, time: nat)

  /** What stays the same across restarts; `width` is the digit width of the clock. */
  datatype Setting = Setting(queue: string, maxItems: nat, width: nat)

  function Flatten<T>(pages: seq<StoredPage<T>>): seq<T> {
    if pages == [] then [] else pages[0].items + Flatten(pages[1..])
  }

  function Contents<T>(s: Shape<T>): seq<T> {
    s.first + Flatten(s.middle) + LastItems(s)
  }

  function LastItems<T>(s: Shape<T>): seq<T> {
    if s.last.Some? then s.last.value else []
  }

  lemma {:induction false} FlattenConcat<T>(a: seq<StoredPage<T>>, b: seq<StoredPage<T>>)
    ensures Flatten(a + b) == Flatten(a) + Flatten(b)
  {
    if a == [] {
      assert a + b == b;
    } else {
      calc {
        Flatten(a + b);
        { assert (a + b)[0] == a[0] && (a + b)[1..] == a[1..] + b; }
        a[0].items + Flatten(a[1..] + b);
        { FlattenConcat(a[1..], b); }
        a[0].items + (Flatten(a[1..]) + Flatten(b));
        Flatten(a) + Flatten(b);
      }
    }
  }

  lemma FlattenNothing<T>()
    ensures Flatten<T>([]) == []
  {
  }

  lemma FlattenOne<T>(p: StoredPage<T>)
    ensures Flatten([p]) == p.items
  {
    assert Flatten([p][1..]) == [];
  }

  // ---------- operations ----------

  /** `seqNumber` at second `now`. */
  function NextStamp<T>(m: Machine<T>, now: nat): Stamp {
    At(now, if m.lastSeq == now then m.count + 1 else 0)
  }

  function PushBack<T>(m: Machine<T>, x: T, maxItems: nat, now: nat): Machine<T> {
    var s := m.shape;
    var target := if s.last.Some? then s.last.value else s.first;
    if |target| < maxItems then
      var s' := if s.last.Some? then s.(last := Some(target + [x])) else s.(first := target + [x]);
      m.(shape := s', time := now)
    else if s.last.None? then
      m.(shape := s.(last := Some([x])), time := now)
    else
      var stamp := NextStamp(m, now);
      Machine(Shape(s.first, s.middle + [StoredPage(stamp, target)], Some([x])), stamp.sec, stamp.count, now)
  }

  function PushFront<T>(m: Machine<T>, x: T): Machine<T> {
    m.(shape := m.shape.(first := [x] + m.shape.first))
  }

  /** What `front` and `pop_front` do to an empty first page. */
  function Refill<T>(s: Shape<T>): Shape<T> {
    if s.first != [] then s
    else if s.middle != [] then s.(first := s.middle[0].items, middle := s.middle[1..])
    else if s.last.Some? then Shape(s.last.value, [], None)
    else s
  }

  function Front<T>(m: Machine<T>): (r: (Machine<T>, Option<T>)) {
    var s := Refill(m.shape);
    (m.(shape := s), if s.first == [] then None else Some(s.first[0]))
  }

  function PopFront<T>(m: Machine<T>): (r: (Machine<T>, Option<T>)) {
    var s := Refill(m.shape);
    if s.first == [] then (m.(shape := s), None)
    else (m.(shape := s.(first := s.first[1..])), Some(s.first[0]))
  }

  /** The page files after `writes` of the writes of `shutdown`: none yet, the "0" page, both pages. */
  function WrittenPages<T>(s: Shape<T>, stamp: Stamp, writes: nat): seq<StoredPage<T>> {
    (if writes >= 1 && s.first != [] then [StoredPage(Zero, s.first)] else [])
    + s.middle
    + (if writes >= 2 && s.last.Some? then [StoredPage(stamp, s.last.value)] else [])
  }

  function ShutdownPages<T>(s: Shape<T>, stamp: Stamp): seq<StoredPage<T>> {
    WrittenPages(s, stamp, 2)
  }

  /** `loadFirstAndLastPage` on a list of page files. */
  function Load<T>(pages: seq<StoredPage<T>>): Shape<T> {
    if |pages| == 0 then Shape([], [], None)
    else if |pages| == 1 then Shape(pages[0].items, [], None)
    else Shape(pages[0].items, pages[1..|pages| - 1], Some(pages[|pages| - 1].items))
  }

  /** Shut down at second `stop`, start again at second `up` from the state file. */
  function Restart<T>(m: Machine<T>, stop: nat, up: nat): Machine<T> {
    Machine(Load(ShutdownPages(m.shape, NextStamp(m, stop))), 0, 0, up)
  }

  /** What a page file is called. */
  function NameOf<T>(queue: string): StoredPage<T> -> string {
    (p: StoredPage<T>) => PageFile(queue, p.stamp)
  }

  function Names<T>(queue: string, pages: seq<StoredPage<T>>): (names: seq<string>)
    ensures |names| == |pages|
    ensures forall i :: 0 <= i < |pages| ==> names[i] == PageFile(queue, pages[i].stamp)
  {
    NamesOf(NameOf(queue), pages)
  }

  /** The page files in the order an orphan scan finds them: sorted by file name. */
  function ByName<T>(queue: string, pages: seq<StoredPage<T>>): seq<StoredPage<T>> {
    Sort(NameOf(queue), pages)
  }

  /** Lose the process after `writes` writes of a shutdown at second `stop` (0: between operations),
      and start again at second `up` by the orphan scan. */
  function Crash<T>(m: Machine<T>, queue: string, stop: nat, up: nat, writes: nat): Machine<T> {
    Machine(Load(ByName(queue, WrittenPages(m.shape, NextStamp(m, stop), writes))), 0, 0, up)
  }

  // ---------- invariant ----------

  /** Full pages hold this many items; a limit of 0 behaves like a limit of 1. */
  function Cap(maxItems: nat): (cap: nat)
    ensures cap >= 1
  {
    if maxItems == 0 then 1 else maxItems
  }

  ghost predicate Increasing<T>(pages: seq<StoredPage<T>>, width: nat) {
    && (forall i :: 0 <= i < |pages| ==> Wide(pages[i].stamp, width))
    && (forall i, j :: 0 <= i < j < |pages| ==> Before(pages[i].stamp, pages[j].stamp))
  }

  /** No two pages carry the same stamp. */
  ghost predicate Separate<T>(pages: seq<StoredPage<T>>, width: nat) {
    && (forall i :: 0 <= i < |pages| ==> Wide(pages[i].stamp, width))
    && (forall i, j :: 0 <= i < j < |pages| ==> pages[i].stamp != pages[j].stamp)
  }

  /** The stamp was given out before the next one that `seqNumber` can give out. */
  predicate Past<T>(stamp: Stamp, m: Machine<T>) {
    stamp.At? && (stamp.sec < m.time || (stamp.sec == m.time == m.lastSeq && stamp.count <= m.count))
  }

  ghost predicate ShapeInv<T>(s: Shape<T>, cap: nat) {
    && (s.last.None? ==> s.middle == [])
    && (s.last.Some? ==> 1 <= |s.last.value| <= cap)
    && (forall i :: 0 <= i < |s.middle| ==> 1 <= |s.middle[i].items| <= cap)
  }

  ghost predicate Inv<T>(m: Machine<T>, cfg: Setting) {
    && ShapeInv(m.shape, Cap(cfg.maxItems))
    && Increasing(m.shape.middle, cfg.width)
    && (forall i :: 0 <= i < |m.shape.middle| ==> Past(m.shape.middle[i].stamp, m))
    && m.lastSeq <= m.time
  }

  /** A clock reading that does not go back and keeps the digit width. */
  predicate ClockOk<T>(m: Machine<T>, now: nat, width: nat) {
    m.time <= now && 1 <= now && |Dec(now)| == width
  }

  /** A list of page files that a queue can start from. */
  ghost predicate PagesOk<T>(pages: seq<StoredPage<T>>, cfg: Setting) {
    && Increasing(pages, cfg.width)
    && (forall i :: 0 < i < |pages| - 1 ==> 1 <= |pages[i].items| <= Cap(cfg.maxItems))
    && (|pages| >= 2 ==> 1 <= |pages[|pages| - 1].items| <= Cap(cfg.maxItems))
  }

  /** Every listed page is a full one. */
  ghost predicate Full<T>(pages: seq<StoredPage<T>>, cap: nat) {
    forall i :: 0 <= i < |pages| ==> |pages[i].items| == cap
  }

  /** Names of one second are written in the order they were given out. */
  predicate CountsInOrder<T>(pages: seq<StoredPage<T>>) {
    forall i, j :: 0 <= i < |pages| && 0 <= j < |pages| && Before(pages[i].stamp, pages[j].stamp) ==>
      InNameOrder(pages[i].stamp, pages[j].stamp)
  }

  ghost predicate OlderThan<T>(pages: seq<StoredPage<T>>, second: nat) {
    forall i :: 0 <= i < |pages| && pages[i].stamp.At? ==> pages[i].stamp.sec < second
  }

  lemma OlderThanLater<T>(pages: seq<StoredPage<T>>, second: nat, later: nat)
    requires OlderThan(pages, second) && second <= later
    ensures OlderThan(pages, later)
  {
  }

  lemma InitialInv<T>(cfg: Setting, time: nat)
    ensures Inv<T>(Machine(Shape([], [], None), 0, 0, time), cfg)
  {
  }

  lemma InvParts<T>(m: Machine<T>, cfg: Setting)
    requires Inv(m, cfg)
    ensures Increasing(m.shape.middle, cfg.width) && (m.shape.last.None? ==> m.shape.middle == [])
  {
  }

  /** The invariant does not depend on when the clock was last read. */
  lemma InvLater<T>(m: Machine<T>, cfg: Setting, time: nat)
    requires Inv(m, cfg) && m.time <= time
    ensures Inv(m.(time := time), cfg)
  {
    forall i | 0 <= i < |m.shape.middle| ensures Past(m.shape.middle[i].stamp, m.(time := time)) {
      assert Past(m.shape.middle[i].stamp, m);
    }
  }

  lemma NextStampIsLater<T>(m: Machine<T>, cfg: Setting, now: nat)
    requires Inv(m, cfg) && ClockOk(m, now, cfg.width)
    ensures var next := NextStamp(m, now);
            Wide(next, cfg.width) && forall i :: 0 <= i < |m.shape.middle| ==> Before(m.shape.middle[i].stamp, next)
  {
    forall i | 0 <= i < |m.shape.middle| ensures Before(m.shape.middle[i].stamp, NextStamp(m, now)) {
      assert Past(m.shape.middle[i].stamp, m);
    }
  }

  lemma PushBackInv<T>(m: Machine<T>, x: T, cfg: Setting, now: nat)
    requires Inv(m, cfg) && ClockOk(m, now, cfg.width)
    ensures Inv(PushBack(m, x, cfg.maxItems, now), cfg)
  {
    var m' := PushBack(m, x, cfg.maxItems, now);
    NextStampIsLater(m, cfg, now);
    forall i | 0 <= i < |m.shape.middle| ensures Past(m.shape.middle[i].stamp, m') {
      assert Past(m.shape.middle[i].stamp, m);
    }
  }

  lemma PushBackContents<T>(m: Machine<T>, x: T, maxItems: nat, now: nat)
    requires m.shape.last.None? ==> m.shape.middle == []
    ensures Contents(PushBack(m, x, maxItems, now).shape) == Contents(m.shape) + [x]
  {
    hide Flatten, NextStamp;
    var s := m.shape;
    FlattenNothing<T>();
    if s.last.Some? && |s.last.value| >= maxItems {
      var p := StoredPage(NextStamp(m, now), s.last.value);
      FlattenConcat(s.middle, [p]);
      FlattenOne(p);
      assert s.first + (Flatten(s.middle) + p.items) + [x] == s.first + Flatten(s.middle) + p.items + [x];
    }
  }

  /** push_back appends and keeps the invariant, whichever of its three branches it takes. */
  lemma PushBackAppends<T>(m: Machine<T>, x: T, cfg: Setting, now: nat)
    requires Inv(m, cfg) && ClockOk(m, now, cfg.width)
    ensures Inv(PushBack(m, x, cfg.maxItems, now), cfg)
    ensures Contents(PushBack(m, x, cfg.maxItems, now).shape) == Contents(m.shape) + [x]
  {
    PushBackInv(m, x, cfg, now);
    PushBackContents(m, x, cfg.maxItems, now);
  }

  /** When push_back starts a page: one page object becomes two exactly when the first page is full, and the last page
      goes to a file exactly when it is full. */
  lemma PushBackPages<T>(m: Machine<T>, x: T, maxItems: nat, now: nat)
    ensures var s, s' := m.shape, PushBack(m, x, maxItems, now).shape;
            && (s.last.None? ==> (s'.last.Some? <==> |s.first| >= maxItems))
            && (s.last.Some? ==> s'.last.Some? && s'.first == s.first)
            && |s'.middle| == |s.middle| + (if s.last.Some? && |s.last.value| >= maxItems then 1 else 0)
            && s'.middle[..|s.middle|] == s.middle
  {
  }

  /** push_front touches the first page only, full or not. */
  lemma PushFrontPrepends<T>(m: Machine<T>, x: T, cfg: Setting)
    requires Inv(m, cfg)
    ensures Inv(PushFront(m, x), cfg)
    ensures Contents(PushFront(m, x).shape) == [x] + Contents(m.shape)
    ensures PushFront(m, x).shape.middle == m.shape.middle && PushFront(m, x).shape.last == m.shape.last
  {
    var m' := PushFront(m, x);
    assert forall i :: 0 <= i < |m.shape.middle| ==> Past(m.shape.middle[i].stamp, m) ==> Past(m.shape.middle[i].stamp, m');
  }

  /** Refilling moves no item, and leaves the first page empty only if the whole queue is. */
  lemma RefillKeeps<T>(m: Machine<T>, cfg: Setting)
    requires Inv(m, cfg)
    ensures var m' := m.(shape := Refill(m.shape));
            && Inv(m', cfg)
            && Contents(m'.shape) == Contents(m.shape)
            && (m'.shape.first == [] <==> Contents(m.shape) == [])
            && (m.shape.first != [] ==> m' == m)
            && |m'.shape.middle| == |m.shape.middle| - (if m.shape.first == [] && m.shape.middle != [] then 1 else 0)
            && (m'.shape.last.None? <==> m.shape.last.None? || (m.shape.first == [] && m.shape.middle == []))
  {
    hide Flatten, Inv;
    var s := m.shape;
    FlattenNothing<T>();
    InvParts(m, cfg);
    if s.first == [] && s.middle != [] {
      LoadNext(m, cfg);
    } else if s.first == [] && s.last.Some? {
      LastBecomesFirst(m, cfg);
    }
  }

  /** The first page file takes the place of an empty first page. */
  lemma LoadNext<T>(m: Machine<T>, cfg: Setting)
    requires Inv(m, cfg) && m.shape.first == [] && m.shape.middle != []
    ensures var m' := m.(shape := m.shape.(first := m.shape.middle[0].items, middle := m.shape.middle[1..]));
            Inv(m', cfg) && Contents(m'.shape) == Contents(m.shape) && m'.shape.first != []
  {
    var s := m.shape;
    var m' := m.(shape := s.(first := s.middle[0].items, middle := s.middle[1..]));
    forall i | 0 <= i < |s.middle| ensures Past(s.middle[i].stamp, m') {
      assert Past(s.middle[i].stamp, m);
    }
    assert |s.middle[0].items| >= 1;
    assert Contents(s) == s.middle[0].items + Flatten(s.middle[1..]) + LastItems(s);
  }

  /** Without page files the last page takes the place of an empty first page. */
  lemma LastBecomesFirst<T>(m: Machine<T>, cfg: Setting)
    requires Inv(m, cfg) && m.shape.first == [] && m.shape.middle == [] && m.shape.last.Some?
    ensures var m' := m.(shape := Shape(m.shape.last.value, [], None));
            Inv(m', cfg) && Contents(m'.shape) == Contents(m.shape) && m'.shape.first != []
  {
  }

  lemma FrontPeeks<T>(m: Machine<T>, cfg: Setting)
    requires Inv(m, cfg)
    ensures var (m', r) := Front(m);
            && Inv(m', cfg)
            && Contents(m'.shape) == Contents(m.shape)
            && r == (if Contents(m.shape) == [] then None else Some(Contents(m.shape)[0]))
  {
    RefillKeeps(m, cfg);
  }

  lemma PopFrontRemovesHead<T>(m: Machine<T>, cfg: Setting)
    requires Inv(m, cfg)
    ensures var (m', r) := PopFront(m);
            && Inv(m', cfg)
            && (Contents(m.shape) == [] ==> r == None && Contents(m'.shape) == [])
            && (Contents(m.shape) != [] ==> r == Some(Contents(m.shape)[0]) && Contents(m'.shape) == Contents(m.shape)[1..])
            && (m.shape.first != [] ==> m'.shape.middle == m.shape.middle && m'.shape.last == m.shape.last)
            && |m'.shape.middle| >= |m.shape.middle| - 1
  {
    RefillKeeps(m, cfg);
    var s := Refill(m.shape);
    hide Refill;
    if s.first != [] { TakeHead(m.(shape := s), cfg); }
  }

  lemma TakeHead<T>(m: Machine<T>, cfg: Setting)
    requires Inv(m, cfg) && m.shape.first != []
    ensures var m' := m.(shape := m.shape.(first := m.shape.first[1..]));
            Inv(m', cfg) && Contents(m.shape) == [m.shape.first[0]] + Contents(m'.shape)
  {
    hide Flatten;
    var s, m' := m.shape, m.(shape := m.shape.(first := m.shape.first[1..]));
    assert s.first == [s.first[0]] + s.first[1..];
    assert forall i :: 0 <= i < |s.middle| ==> Past(s.middle[i].stamp, m) ==> Past(s.middle[i].stamp, m');
  }

  /** An empty queue has one page, no page files, and nothing in that page. */
  lemma EmptyIsOnePage<T>(m: Machine<T>, cfg: Setting)
    requires Inv(m, cfg) && Contents(m.shape) == []
    ensures m.shape == Shape([], [], None)
  {
  }

  // ---------- size ----------

  /** What `size` computes, without reading any file. */
  function Size<T>(s: Shape<T>, maxItems: nat): nat {
    |s.first| + |LastItems(s)| + |s.middle| * maxItems
  }

  /** How many items the listed pages are short of `maxItems` each. */
  function Shortfall<T>(pages: seq<StoredPage<T>>, maxItems: nat): int {
    if pages == [] then 0 else maxItems - |pages[0].items| + Shortfall(pages[1..], maxItems)
  }

  lemma {:induction false} FlattenLength<T>(pages: seq<StoredPage<T>>, maxItems: nat)
    ensures |pages| * maxItems == |Flatten(pages)| + Shortfall(pages, maxItems)
  {
    if pages != [] {
      FlattenLength(pages[1..], maxItems);
      assert |pages| * maxItems == maxItems + |pages[1..]| * maxItems;
    }
  }

  /** Whatever the pages hold, the computed size is off by what the listed pages are short of. */
  lemma SizeError<T>(s: Shape<T>, maxItems: nat)
    ensures Size(s, maxItems) == |Contents(s)| + Shortfall(s.middle, maxItems)
  {
    FlattenLength(s.middle, maxItems);
  }

  lemma {:induction false} NoShortfallIff<T>(pages: seq<StoredPage<T>>, maxItems: nat)
    requires forall i :: 0 <= i < |pages| ==> |pages[i].items| <= maxItems
    ensures Shortfall(pages, maxItems) >= 0
    ensures Shortfall(pages, maxItems) == 0 <==> Full(pages, maxItems)
  {
    if pages != [] {
      NoShortfallIff(pages[1..], maxItems);
      assert Full(pages, maxItems) ==> Full(pages[1..], maxItems);
      assert forall i :: 0 <= i < |pages| ==> pages[i] == if i == 0 then pages[0] else pages[1..][i - 1];
    }
  }

  lemma {:induction false} ShortfallOfZero<T>(pages: seq<StoredPage<T>>)
    requires forall i :: 0 <= i < |pages| ==> 1 <= |pages[i].items|
    ensures Shortfall(pages, 0) <= 0 && (Shortfall(pages, 0) == 0 <==> pages == [])
  {
    if pages != [] { ShortfallOfZero(pages[1..]); }
  }

  /** The computed size is the length of the contents exactly when every listed page holds `maxItems` items. */
  lemma SizeExact<T>(m: Machine<T>, cfg: Setting)
    requires Inv(m, cfg)
    ensures Size(m.shape, cfg.maxItems) == |Contents(m.shape)| <==> Full(m.shape.middle, cfg.maxItems)
  {
    SizeError(m.shape, cfg.maxItems);
    if cfg.maxItems == 0 {
      ShortfallOfZero(m.shape.middle);
    } else {
      NoShortfallIff(m.shape.middle, cfg.maxItems);
    }
  }

  /** For full pages: exactly when a page limit of 0 meets no page file. */
  lemma SizeOfFull<T>(m: Machine<T>, cfg: Setting)
    requires Inv(m, cfg) && Full(m.shape.middle, Cap(cfg.maxItems))
    ensures Size(m.shape, cfg.maxItems) == |Contents(m.shape)| <==> cfg.maxItems >= 1 || m.shape.middle == []
  {
    SizeExact(m, cfg);
  }

  /** Only a full last page joins the page files. */
  lemma PushBackFull<T>(m: Machine<T>, x: T, cfg: Setting, now: nat)
    requires Inv(m, cfg) && Full(m.shape.middle, Cap(cfg.maxItems))
    ensures Full(PushBack(m, x, cfg.maxItems, now).shape.middle, Cap(cfg.maxItems))
  {
  }

  lemma RefillFull<T>(s: Shape<T>, cap: nat)
    requires Full(s.middle, cap)
    ensures Full(Refill(s).middle, cap)
  {
  }

  // ---------- restart and crash ----------

  lemma IncreasingIsSeparate<T>(pages: seq<StoredPage<T>>, width: nat)
    requires Increasing(pages, width)
    ensures Separate(pages, width)
  {
    forall i, j | 0 <= i < j < |pages| ensures pages[i].stamp != pages[j].stamp {
      assert Before(pages[i].stamp, pages[j].stamp);
    }
  }

  lemma NamesDistinct<T>(queue: string, pages: seq<StoredPage<T>>, width: nat)
    requires Separate(pages, width)
    ensures Distinct(Names(queue, pages))
  {
    forall i, j | 0 <= i < j < |pages| ensures Names(queue, pages)[i] != Names(queue, pages)[j] {
      if PageFile(queue, pages[i].stamp) == PageFile(queue, pages[j].stamp) {
        PageFileInjective(queue, pages[i].stamp, pages[j].stamp, width);
      }
    }
  }

  lemma NamesAscendIff<T>(queue: string, pages: seq<StoredPage<T>>, width: nat)
    requires Increasing(pages, width)
    ensures Ascending(Names(queue, pages)) <==> CountsInOrder(pages)
  {
    hide PageFile, LexLess, InNameOrder, Before, Wide;
    var names := Names(queue, pages);
    forall i, j | 0 <= i < j < |pages|
      ensures LexLess(names[i], names[j]) <==> InNameOrder(pages[i].stamp, pages[j].stamp)
    {
      PageFileOrder(queue, pages[i].stamp, pages[j].stamp, width);
    }
    forall i, j | 0 <= i < |pages| && 0 <= j < |pages| && Before(pages[i].stamp, pages[j].stamp) ensures i < j {
      BeforeIsEarlier(pages, i, j, width);
    }
  }

  lemma BeforeIsStrict(a: Stamp, b: Stamp)
    requires Before(a, b)
    ensures a != b && !Before(b, a)
  {
  }

  lemma BeforeIsEarlier<T>(pages: seq<StoredPage<T>>, i: nat, j: nat, width: nat)
    requires Increasing(pages, width) && i < |pages| && j < |pages| && Before(pages[i].stamp, pages[j].stamp)
    ensures i < j
  {
    BeforeIsStrict(pages[i].stamp, pages[j].stamp);
  }

  lemma BeforeIsTotal(a: Stamp, b: Stamp)
    requires a != b
    ensures Before(a, b) || Before(b, a)
  {
  }

  /** However the page files lie in the directory, an orphan scan finds them in the order they were written exactly
      when the counts of every second are written in order, whatever seconds and counts the files have. */
  lemma ScanOrderIff<T>(queue: string, pages: seq<StoredPage<T>>, width: nat)
    requires Separate(pages, width)
    ensures Increasing(ByName(queue, pages), width) <==> CountsInOrder(pages)
  {
    hide Sort, InNameOrder, PageFile, LexLess, Before, Wide;
    var found := ByName(queue, pages);
    NamesDistinct(queue, pages, width);
    SortAscending(NameOf(queue), pages);
    SamePages(pages, found);
    if CountsInOrder(pages) { FoundIncreases(queue, pages, found, width); }
    if Increasing(found, width) { FoundInOrder(queue, pages, found, width); }
  }

  lemma FoundIncreases<T>(queue: string, pages: seq<StoredPage<T>>, found: seq<StoredPage<T>>, width: nat)
    requires Separate(pages, width) && (forall p :: p in found <==> p in pages)
    requires Ascending(Names(queue, found)) && CountsInOrder(pages)
    ensures Increasing(found, width)
  {
    hide InNameOrder, PageFile, LexLess, Before, Wide;
    SameWidth(pages, found, width);
    forall i, j | 0 <= i < j < |found| ensures Before(found[i].stamp, found[j].stamp) {
      assert found[i] in found && found[j] in found;
      var k :| 0 <= k < |pages| && pages[k] == found[i];
      var l :| 0 <= l < |pages| && pages[l] == found[j];
      assert LexLess(Names(queue, found)[i], Names(queue, found)[j]);
      FoundBefore(queue, pages[k].stamp, pages[l].stamp, width);
    }
  }

  lemma FoundInOrder<T>(queue: string, pages: seq<StoredPage<T>>, found: seq<StoredPage<T>>, width: nat)
    requires Increasing(found, width) && (forall p :: p in found <==> p in pages)
    requires Ascending(Names(queue, found))
    ensures CountsInOrder(pages)
  {
    hide InNameOrder, PageFile, LexLess, Before, Wide;
    forall i, j | 0 <= i < |pages| && 0 <= j < |pages| && Before(pages[i].stamp, pages[j].stamp)
      ensures InNameOrder(pages[i].stamp, pages[j].stamp)
    {
      assert pages[i] in pages && pages[j] in pages;
      var k :| 0 <= k < |found| && found[k] == pages[i];
      var l :| 0 <= l < |found| && found[l] == pages[j];
      BeforeIsEarlier(found, k, l, width);
      assert LexLess(Names(queue, found)[k], Names(queue, found)[l]);
      PageFileOrder(queue, found[k].stamp, found[l].stamp, width);
    }
  }

  lemma SamePages<T>(pages: seq<StoredPage<T>>, found: seq<StoredPage<T>>)
    requires multiset(found) == multiset(pages)
    ensures forall p :: p in found <==> p in pages
  {
    forall p ensures p in found <==> p in pages {
      assert p in found <==> p in multiset(found);
      assert p in pages <==> p in multiset(pages);
    }
  }

  lemma SameWidth<T>(pages: seq<StoredPage<T>>, found: seq<StoredPage<T>>, width: nat)
    requires Separate(pages, width) && forall p :: p in found <==> p in pages
    ensures forall i :: 0 <= i < |found| ==> Wide(found[i].stamp, width)
  {
    forall i | 0 <= i < |found| ensures Wide(found[i].stamp, width) {
      assert found[i] in found;
      var k :| 0 <= k < |pages| && pages[k] == found[i];
    }
  }

  /** Names in ascending order whose counts are written in order are in creation order. */
  lemma FoundBefore(queue: string, a: Stamp, b: Stamp, width: nat)
    requires Wide(a, width) && Wide(b, width) && LexLess(PageFile(queue, a), PageFile(queue, b))
    requires Before(b, a) ==> InNameOrder(b, a)
    ensures Before(a, b)
  {
    LexLessIrreflexive(PageFile(queue, a));
    BeforeIsTotal(a, b);
    if Before(b, a) {
      PageFileOrder(queue, b, a, width);
      LexLessAsymmetric(PageFile(queue, a), PageFile(queue, b));
    }
  }

  /** Page files listed in the order they were written are found in that order exactly under the same condition. */
  lemma OrphanOrderIff<T>(queue: string, pages: seq<StoredPage<T>>, width: nat)
    requires Increasing(pages, width)
    ensures ByName(queue, pages) == pages <==> CountsInOrder(pages)
  {
    IncreasingIsSeparate(pages, width);
    NamesDistinct(queue, pages, width);
    NamesAscendIff(queue, pages, width);
    SortKeepsIff(NameOf(queue), pages);
  }

  /** Fewer than 10000 names in every second are enough for it. */
  lemma FewNamesInOrder<T>(pages: seq<StoredPage<T>>)
    requires forall i :: 0 <= i < |pages| && pages[i].stamp.At? ==> pages[i].stamp.count < 10000
    ensures CountsInOrder(pages)
  {
    forall i, j | 0 <= i < |pages| && 0 <= j < |pages| && Before(pages[i].stamp, pages[j].stamp)
      ensures InNameOrder(pages[i].stamp, pages[j].stamp)
    {
      if pages[i].stamp.At? && pages[j].stamp.At? && pages[i].stamp.sec == pages[j].stamp.sec {
        FewPrecede(pages[i].stamp.count, pages[j].stamp.count);
      }
    }
  }

  lemma LoadContents<T>(pages: seq<StoredPage<T>>)
    ensures Contents(Load(pages)) == Flatten(pages)
  {
    hide Flatten;
    var n := |pages|;
    FlattenNothing<T>();
    if n == 1 {
      FlattenOne(pages[0]);
      assert pages == [pages[0]];
    } else if n >= 2 {
      var first, middle, last := pages[0], pages[1..n - 1], pages[n - 1];
      assert pages == [first] + middle + [last];
      FlattenConcat([first] + middle, [last]);
      FlattenConcat([first], middle);
      FlattenOne(first);
      FlattenOne(last);
    }
  }

  lemma LoadInv<T>(pages: seq<StoredPage<T>>, cfg: Setting, up: nat)
    requires PagesOk(pages, cfg) && OlderThan(pages, up)
    ensures Inv(Machine(Load(pages), 0, 0, up), cfg)
  {
    var m := Machine(Load(pages), 0, 0, up);
    if |pages| >= 2 {
      forall i | 0 <= i < |m.shape.middle| ensures Past(m.shape.middle[i].stamp, m) {
        assert m.shape.middle[i] == pages[i + 1];
        assert Before(pages[0].stamp, pages[i + 1].stamp);
      }
    }
  }

  lemma LoadKeeps<T>(pages: seq<StoredPage<T>>, cfg: Setting, up: nat)
    requires PagesOk(pages, cfg) && OlderThan(pages, up)
    ensures Inv(Machine(Load(pages), 0, 0, up), cfg)
    ensures Contents(Load(pages)) == Flatten(pages)
  {
    LoadContents(pages);
    LoadInv(pages, cfg, up);
  }

  /** Every stage of a shutdown leaves page files a queue can start from, and the files hold a contiguous
      part of the contents: all but the first page's and last page's items that are not yet written. */
  lemma WrittenPagesKeep<T>(m: Machine<T>, cfg: Setting, stop: nat, up: nat, writes: nat)
    requires Inv(m, cfg) && ClockOk(m, stop, cfg.width) && stop < up
    ensures var pages := WrittenPages(m.shape, NextStamp(m, stop), writes);
            && PagesOk(pages, cfg) && OlderThan(pages, up)
            && Contents(m.shape) == (if writes >= 1 then [] else m.shape.first) + Flatten(pages)
                                    + (if writes >= 2 then [] else LastItems(m.shape))
  {
    var s := m.shape;
    var stamp := NextStamp(m, stop);
    var pages := WrittenPages(s, stamp, writes);
    NextStampIsLater(m, cfg, stop);
    WrittenIncreasing(s, stamp, writes, cfg.width);
    WrittenContents(s, stamp, writes);
    forall i | 0 <= i < |s.middle| ensures s.middle[i].stamp.sec < up {
      assert Past(s.middle[i].stamp, m);
    }
  }

  lemma WrittenContents<T>(s: Shape<T>, stamp: Stamp, writes: nat)
    ensures Contents(s) == (if writes >= 1 then [] else s.first) + Flatten(WrittenPages(s, stamp, writes))
                           + (if writes >= 2 then [] else LastItems(s))
  {
    hide Flatten;
    var head := if writes >= 1 && s.first != [] then [StoredPage(Zero, s.first)] else [];
    var tail := if writes >= 2 && s.last.Some? then [StoredPage(stamp, s.last.value)] else [];
    FlattenNothing<T>();
    FlattenOne(StoredPage(Zero, s.first));
    FlattenOne(StoredPage(stamp, LastItems(s)));
    assert Flatten(head) == if writes >= 1 then s.first else [];
    assert Flatten(tail) == if writes >= 2 then LastItems(s) else [];
    FlattenConcat(head + s.middle, tail);
    FlattenConcat(head, s.middle);
    assert WrittenPages(s, stamp, writes) == head + s.middle + tail;
    Regroup(s.first, Flatten(s.middle), LastItems(s), Flatten(head), Flatten(tail), writes);
  }

  lemma Regroup<T>(first: seq<T>, middle: seq<T>, last: seq<T>, head: seq<T>, tail: seq<T>, writes: nat)
    requires head == (if writes >= 1 then first else []) && tail == (if writes >= 2 then last else [])
    ensures first + middle + last
            == (if writes >= 1 then [] else first) + (head + middle + tail) + (if writes >= 2 then [] else last)
  {
  }

  lemma ShutdownPagesKeep<T>(m: Machine<T>, cfg: Setting, stop: nat)
    requires Inv(m, cfg) && ClockOk(m, stop, cfg.width)
    ensures var pages := ShutdownPages(m.shape, NextStamp(m, stop));
            Flatten(pages) == Contents(m.shape) && OlderThan(pages, stop + 1)
  {
    WrittenPagesKeep(m, cfg, stop, stop + 1, 2);
  }

  lemma WrittenIncreasing<T>(s: Shape<T>, stamp: Stamp, writes: nat, width: nat)
    requires Increasing(s.middle, width)
    requires forall i :: 0 <= i < |s.middle| ==> s.middle[i].stamp.At? && Before(s.middle[i].stamp, stamp)
    requires stamp.At? && Wide(stamp, width)
    ensures Increasing(WrittenPages(s, stamp, writes), width)
  {
  }

  /** Clean restart: the same sequence, and the invariant again. */
  lemma RestartKeepsAll<T>(m: Machine<T>, cfg: Setting, stop: nat, up: nat)
    requires Inv(m, cfg) && ClockOk(m, stop, cfg.width) && stop < up
    ensures Inv(Restart(m, stop, up), cfg)
    ensures Contents(Restart(m, stop, up).shape) == Contents(m.shape)
  {
    WrittenPagesKeep(m, cfg, stop, up, 2);
    LoadKeeps(ShutdownPages(m.shape, NextStamp(m, stop)), cfg, up);
  }

  /** A clean restart brings the same pages back; a queue whose first page was empty starts as if refilled. */
  lemma RestartIsRefill<T>(m: Machine<T>, cfg: Setting, stop: nat, up: nat)
    requires Inv(m, cfg)
    ensures Restart(m, stop, up) == Machine(Refill(m.shape), 0, 0, up)
  {
    hide NextStamp;
    var s, last := m.shape, StoredPage(NextStamp(m, stop), LastItems(m.shape));
    var pages := ShutdownPages(s, NextStamp(m, stop));
    if s.last.Some? {
      assert pages == (if s.first != [] then [StoredPage(Zero, s.first)] else []) + s.middle + [last];
      if s.first != [] {
        assert pages[1..|pages| - 1] == s.middle;
      } else if s.middle != [] {
        assert pages[1..|pages| - 1] == s.middle[1..];
      }
    }
  }

  /** The loss of a process after both page writes, before the state file, is a clean restart. */
  lemma CrashIsRestart<T>(m: Machine<T>, cfg: Setting, stop: nat, up: nat)
    requires Inv(m, cfg) && ClockOk(m, stop, cfg.width) && stop < up
    requires CountsInOrder(ShutdownPages(m.shape, NextStamp(m, stop)))
    ensures Crash(m, cfg.queue, stop, up, 2) == Restart(m, stop, up)
  {
    WrittenPagesKeep(m, cfg, stop, up, 2);
    OrphanOrderIff(cfg.queue, ShutdownPages(m.shape, NextStamp(m, stop)), cfg.width);
  }

  /** The next stamp is the one that a process with these counters gives out next: the next count of the same second,
      or the first one of another. */
  lemma NextStampIsGivenOut<T>(m: Machine<T>, now: nat)
    ensures Stamps(m.lastSeq, m.count, [now]) == [NextStamp(m, now)]
    ensures m.lastSeq == now ==> NextStamp(m, now) == At(now, m.count + 1)
    ensures m.lastSeq != now ==> NextStamp(m, now) == At(now, 0)
  {
    assert [now][1..] == [];
  }

  /** Why a new process must start in a later second: it can give out no name that is still listed exactly when every
      listed page file is of an earlier second. */
  lemma FreshNamesIff<T>(queue: string, pages: seq<StoredPage<T>>, up: nat, width: nat)
    requires forall i :: 0 <= i < |pages| ==> Wide(pages[i].stamp, width)
    ensures (forall i :: 0 <= i < |pages| ==> !GivesOut(queue, up, width, Names(queue, pages)[i])) <==> OlderThan(pages, up)
  {
    hide GivesOut, PageFile, Wide;
    forall i | 0 <= i < |pages|
      ensures GivesOut(queue, up, width, Names(queue, pages)[i]) <==> pages[i].stamp.At? && up <= pages[i].stamp.sec
    {
      GivesOutIff(queue, up, width, pages[i].stamp);
    }
  }

  /** An instance: within the same second the counters give out a name that is still listed. */
  lemma SameSecondRestart<T>(m: Machine<T>, second: nat)
    requires second >= 1 && m.shape.first != [] && m.shape.last.Some?
    requires m.shape.middle != [] && m.shape.middle[0].stamp == At(second, 0)
    ensures var m' := Restart(m, second, second);
            m'.shape.middle == m.shape.middle && NextStamp(m', second) == m'.shape.middle[0].stamp
  {
    var pages := ShutdownPages(m.shape, NextStamp(m, second));
    assert pages[1..|pages| - 1] == m.shape.middle;
  }

  /** Crash recovery: exactly the items in page files, a contiguous part of the old sequence. A crash
      after the page writes of shutdown, before its state file, loses nothing. */
  lemma CrashKeepsFiles<T>(m: Machine<T>, cfg: Setting, stop: nat, up: nat, writes: nat)
    requires Inv(m, cfg) && ClockOk(m, stop, cfg.width) && stop < up
    requires CountsInOrder(WrittenPages(m.shape, NextStamp(m, stop), writes))
    ensures var m' := Crash(m, cfg.queue, stop, up, writes);
            && Inv(m', cfg)
            && Contents(m.shape) == (if writes >= 1 then [] else m.shape.first) + Contents(m'.shape)
                                    + (if writes >= 2 then [] else LastItems(m.shape))
  {
    var pages := WrittenPages(m.shape, NextStamp(m, stop), writes);
    WrittenPagesKeep(m, cfg, stop, up, writes);
    OrphanOrderIff(cfg.queue, pages, cfg.width);
    LoadKeeps(pages, cfg, up);
  }

  /** With 10000 or more names in a second a crash can reorder: pages 9999 and 10000 come back swapped. */
  lemma CrashCanReorder<T>(queue: string, sec: nat, a: seq<T>, b: seq<T>)
    ensures var pages := [StoredPage(At(sec, 9999), a), StoredPage(At(sec, 10000), b)];
            ByName(queue, pages) == [pages[1], pages[0]] && Contents(Load(ByName(queue, pages))) == b + a
  {
    hide Count, LexLess, Dec, Flatten, Load, Sort;
    var p, q := StoredPage(At(sec, 9999), a), StoredPage(At(sec, 10000), b);
    CountsOutOfOrder();
    LexLessCommonPrefix(Dec(sec), Count(9999), Count(10000));
    LexLessCommonPrefix(queue + "_", SeqString(p.stamp), SeqString(q.stamp));
    SortSwaps(NameOf(queue), p, q);
    LoadContents([q, p]);
    assert [q, p] == [q] + [p];
    FlattenConcat([q], [p]);
    FlattenOne(p);
    FlattenOne(q);
  }

  // ---------- a second shutdown ----------

  /** The first shutdown drains the list of page files and leaves both pages in memory. */
  function AfterShutdown<T>(m: Machine<T>, stop: nat): Machine<T> {
    var s := m.shape.(middle := []);
    if s.last.None? then Machine(s, m.lastSeq, m.count, m.time)
    else var stamp := NextStamp(m, stop); Machine(s, stamp.sec, stamp.count, stop)
  }

  lemma AfterShutdownInv<T>(m: Machine<T>, cfg: Setting, stop: nat)
    requires Inv(m, cfg) && m.time <= stop
    ensures Inv(AfterShutdown(m, stop), cfg)
  {
  }

  /** A second shutdown (an explicit call, then the destructor) replaces the recoverable sequence by the
      first page and the last page: the original contents exactly when no page file lay between them. */
  lemma SecondShutdown<T>(m: Machine<T>, cfg: Setting, stop: nat, again: nat)
    requires Inv(m, cfg)
    ensures var m' := AfterShutdown(m, stop);
            var pages := ShutdownPages(m'.shape, NextStamp(m', again));
            && Flatten(pages) == m.shape.first + LastItems(m.shape)
            && (Flatten(pages) == Contents(m.shape) <==> m.shape.middle == [])
  {
    var m' := AfterShutdown(m, stop);
    WrittenContents(m'.shape, NextStamp(m', again), 2);
    assert Contents(m'.shape) == m.shape.first + LastItems(m.shape);
    if m.shape.middle != [] {
      assert |Flatten(m.shape.middle)| >= |m.shape.middle[0].items| >= 1;
      assert |Contents(m.shape)| > |m.shape.first + LastItems(m.shape)|;
    }
  }
}
