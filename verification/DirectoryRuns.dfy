/** Whole runs on the working directory: the process state and the files, where every new process knows only
    what it reads from the files. */
module DirectoryRuns {
  import opened LineText
  import opened NameOrder
  import opened PageNames
  import opened Paging
  import opened Storage
  import PagedRuns
  import Runs
  import opened StrayRuns
  import opened Subsequences

  /** What a process knows without looking at the directory. */
  datatype Process<T> = Process(machine: Machine<T>, down: bool)

  function ProcessOf<T>(w: World<T>): Process<T> {
    Process(w.machine, w.down)
  }

  /** Starting at second `up`: the directory holds pages to start from, which become the new state. */
  ghost predicate Starts<T(!new)>(files: Files, cfg: Setting, coder: BiCoder<T>, up: nat, p': Process<T>,
                                  files': Files) {
    exists pages ::
      && Recoverable(files, cfg, coder, pages) && OlderThan(pages, up)
      && p' == Process(Machine(Load(pages), 0, 0, up), false) && files' == StartedFiles(files, cfg.queue, pages)
  }

  /** The files after an operation of a process that has not been shut down. */
  function OperationFiles<T>(m: Machine<T>, files: Files, op: PagedRuns.Operation<T>, cfg: Setting,
                             coder: BiCoder<T>): Files {
    match op
    case PushBackAt(_, now) => PushedFiles(files, cfg.queue, coder, m, cfg.maxItems, now)
    case PushFrontOf(_) => files
    case _ => RefilledFiles(files, cfg.queue, m.shape)
  }

  /** One event of the program. */
  ghost predicate Moves<T(!new)>(p: Process<T>, files: Files, e: Event<T>, p': Process<T>, files': Files,
                                 cfg: Setting, coder: BiCoder<T>) {
    match e
    case Do(op) =>
      if p.down && !op.Peek? then
        p' == p && files' == files
      else
        && p' == p.(machine := PagedRuns.Operate(p.machine, op, cfg))
        && files' == OperationFiles(p.machine, files, op, cfg, coder)
    case Shutdown(stop) =>
      && p' == Process(AfterShutdown(p.machine, stop), true)
      && files' == ShutdownFiles(files, cfg.queue, coder, p.machine.shape, NextStamp(p.machine, stop))
    case Die(stop, writes, up) =>
      Starts(DeadFiles(p.machine, files, stop, writes, cfg, coder), cfg, coder, up, p', files')
  }

  /** What a lost process leaves behind. */
  function DeadFiles<T>(m: Machine<T>, files: Files, stop: nat, writes: nat, cfg: Setting, coder: BiCoder<T>): Files {
    PageWrites(files, cfg.queue, coder, m.shape, NextStamp(m, stop), writes)
  }

  function FilesAfter<T>(w: World<T>, files: Files, e: Event<T>, cfg: Setting, coder: BiCoder<T>): Files {
    match e
    case Do(op) => if w.down && !op.Peek? then files else OperationFiles(w.machine, files, op, cfg, coder)
    case Shutdown(stop) => ShutdownFiles(files, cfg.queue, coder, w.machine.shape, NextStamp(w.machine, stop))
    case Die(stop, writes, up) =>
      StartedFiles(DeadFiles(w.machine, files, stop, writes, cfg, coder), cfg.queue, Recovered(w, stop, writes, cfg.queue))
  }

  /** The state file, if there is one, lists what it should. */
  ghost predicate ListOnDisk<T>(w: World<T>, files: Files, cfg: Setting, coder: BiCoder<T>) {
    Listed(w) != [] ==>
      && OnDisk(files, cfg.queue, coder, Listed(w))
      && StateFile(cfg.queue) in files && files[StateFile(cfg.queue)] == Unlines(Names(cfg.queue, Listed(w)))
  }

  /** The queue owns page files of the model, what the state file lists, and the state file. */
  ghost predicate OwnsOnly<T>(w: World<T>, files: Files, cfg: Setting) {
    forall f :: f in files && Owned(cfg.queue, f) ==>
      || f in Names(cfg.queue, OnFile(w))
      || (Listed(w) != [] && (f == StateFile(cfg.queue) || f in Names(cfg.queue, Listed(w))))
  }

  /** The files of the model are on disk, stray or not, and the queue owns no other file. */
  ghost predicate OnlyFiles<T>(w: World<T>, files: Files, cfg: Setting, coder: BiCoder<T>) {
    OnDisk(files, cfg.queue, coder, OnFile(w)) && ListOnDisk(w, files, cfg, coder) && OwnsOnly(w, files, cfg)
  }

  // ---------- page files ----------

  lemma OnDiskPart<T>(files: Files, queue: string, coder: BiCoder<T>, part: seq<StoredPage<T>>, all: seq<StoredPage<T>>)
    requires OnDisk(files, queue, coder, all) && forall p <- part :: p in all
    ensures OnDisk(files, queue, coder, part)
  {
    hide PageFile, PageText;
    forall i | 0 <= i < |part|
      ensures PageFile(queue, part[i].stamp) in files
              && files[PageFile(queue, part[i].stamp)] == PageText(coder, part[i].items)
    {
      assert part[i] in all;
      var j :| 0 <= j < |all| && all[j] == part[i];
    }
  }

  lemma NamesPart<T>(queue: string, part: seq<StoredPage<T>>, all: seq<StoredPage<T>>)
    requires forall p <- part :: p in all
    ensures forall f <- Names(queue, part) :: f in Names(queue, all)
  {
    hide PageFile;
    forall i | 0 <= i < |part| ensures Names(queue, part)[i] in Names(queue, all) {
      assert part[i] in all;
      var j :| 0 <= j < |all| && all[j] == part[i];
      assert Names(queue, all)[j] == Names(queue, part)[i];
    }
  }

  lemma RemovedAt<T>(files: Files, cfg: Setting, coder: BiCoder<T>, all: seq<StoredPage<T>>, k: nat)
    requires Separate(all, cfg.width) && k < |all|
    requires OnDisk(files, cfg.queue, coder, all) && Exact(files, cfg.queue, Names(cfg.queue, all))
    ensures var left := all[..k] + all[k + 1..];
            var files' := files - {PageFile(cfg.queue, all[k].stamp)};
            && OnDisk(files', cfg.queue, coder, left) && Exact(files', cfg.queue, Names(cfg.queue, left))
            && SameElsewhere(files, files', cfg.queue)
  {
    hide PageFile, PageText, MatchesPattern, StateFile, Separate, Distinct, OnDisk;
    var left, names := all[..k] + all[k + 1..], Names(cfg.queue, all);
    NamesDistinct(cfg.queue, all, cfg.width);
    NamesWithout(cfg.queue, all, k);
    WithoutOne(names, k);
    OnDiskPart(files, cfg.queue, coder, left, all);
    RemovePageFile(files, cfg.queue, coder, left, names[k]);
    PageFileOwned(cfg.queue, all[k].stamp);
  }

  lemma NamesWithout<T>(queue: string, all: seq<StoredPage<T>>, k: nat)
    requires k < |all|
    ensures Names(queue, all[..k] + all[k + 1..]) == Names(queue, all)[..k] + Names(queue, all)[k + 1..]
  {
    NamesConcat(queue, all[..k], all[k + 1..]);
    assert Names(queue, all[..k]) == Names(queue, all)[..k] && Names(queue, all[k + 1..]) == Names(queue, all)[k + 1..];
  }

  lemma AddedFile<T>(files: Files, all: seq<StoredPage<T>>, p: StoredPage<T>, cfg: Setting, coder: BiCoder<T>)
    requires OnDisk(files, cfg.queue, coder, all) && Exact(files, cfg.queue, Names(cfg.queue, all))
    requires Separate(all + [p], cfg.width)
    ensures var files' := files[PageFile(cfg.queue, p.stamp) := PageText(coder, p.items)];
            && OnDisk(files', cfg.queue, coder, all + [p])
            && Exact(files', cfg.queue, Names(cfg.queue, all + [p]))
            && SameElsewhere(files, files', cfg.queue)
  {
    hide PageFile, PageText, MatchesPattern, Separate, OnDisk;
    NewestOnDisk(files, cfg, coder, all, p);
    PageFileOwned(cfg.queue, p.stamp);
    NamesConcat(cfg.queue, all, [p]);
    assert Names(cfg.queue, [p]) == [PageFile(cfg.queue, p.stamp)];
  }

  // ---------- operations ----------

  lemma RunningOwns<T>(w: World<T>, files: Files, cfg: Setting, coder: BiCoder<T>)
    requires Listed(w) == []
    ensures OwnsOnly(w, files, cfg) <==> Exact(files, cfg.queue, Names(cfg.queue, OnFile(w)))
    ensures ListOnDisk(w, files, cfg, coder)
  {
    hide Owned, Names, OnFile;
  }

  predicate Spills<T>(m: Machine<T>, op: PagedRuns.Operation<T>, cfg: Setting) {
    op.PushBackAt? && m.shape.last.Some? && |m.shape.last.value| >= cfg.maxItems
  }

  predicate Loads<T>(m: Machine<T>, op: PagedRuns.Operation<T>) {
    (op.Pop? || op.Peek?) && m.shape.first == [] && m.shape.middle != []
  }

  /** An operation writes one page file, or removes one, or touches none. */
  lemma OperationFilesOf<T>(w: World<T>, files: Files, op: PagedRuns.Operation<T>, cfg: Setting, coder: BiCoder<T>)
    requires !w.down
    ensures var m, all, k := w.machine, OnFile(w), |w.strays + w.tail|;
            var all', files' := OnFile(Step(w, Do(op), cfg)), OperationFiles(m, files, op, cfg, coder);
            if Spills(m, op, cfg) then
              var p := StoredPage(NextStamp(m, op.now), m.shape.last.value);
              all' == all + [p] && files' == files[PageFile(cfg.queue, p.stamp) := PageText(coder, p.items)]
            else if Loads(m, op) then
              && k < |all| && all' == all[..k] + all[k + 1..]
              && files' == files - {PageFile(cfg.queue, all[k].stamp)}
            else
              all' == all && files' == files
  {
    hide PageText, PageFile, NextStamp;
    var m, w' := w.machine, Step(w, Do(op), cfg);
    if Spills(m, op, cfg) {
      assert OnFile(w') == OnFile(w) + [StoredPage(NextStamp(m, op.now), m.shape.last.value)];
    } else if Loads(m, op) {
      var k, all := |w.strays + w.tail|, OnFile(w);
      assert all[k] == m.shape.middle[0] && OnFile(w') == all[..k] + all[k + 1..];
    }
  }

  lemma OperationOnDisk<T>(w: World<T>, files: Files, op: PagedRuns.Operation<T>, cfg: Setting, coder: BiCoder<T>)
    requires Kept(w, cfg) && OnlyFiles(w, files, cfg, coder) && !w.down && Legal(w, Do(op), cfg)
    ensures var files' := OperationFiles(w.machine, files, op, cfg, coder);
            OnlyFiles(Step(w, Do(op), cfg), files', cfg, coder) && SameElsewhere(files, files', cfg.queue)
  {
    var m, w', files' := w.machine, Step(w, Do(op), cfg), OperationFiles(w.machine, files, op, cfg, coder);
    assert Listed(w) == [] && Listed(w') == [];
    hide Inv, FilesKept, OnDisk, Exact, SameElsewhere, PageText, PageFile, Separate, OnFile, Listed, OperationFiles, Step,
         OwnsOnly, ListOnDisk, Loads;
    RunningOwns(w, files, cfg, coder);
    RunningOwns(w', files', cfg, coder);
    SameElsewhereReflexive(files, cfg.queue);
    OperationFilesOf(w, files, op, cfg, coder);
    if Spills(m, op, cfg) {
      var p := StoredPage(NextStamp(m, op.now), m.shape.last.value);
      OneMoreFile(w, p, op.now, cfg);
      AddedFile(files, OnFile(w), p, cfg, coder);
    } else if Loads(m, op) {
      FilesApart(w, cfg);
      RemovedAt(files, cfg, coder, OnFile(w), |w.strays + w.tail|);
    }
  }

  lemma FilesApart<T>(w: World<T>, cfg: Setting)
    requires FilesKept(w, cfg)
    ensures Separate(OnFile(w), cfg.width)
  {
  }

  // ---------- shutdown ----------

  /** Page writes, from any state: all page files of the model are on disk, and the queue owns what it owned and them. */
  lemma WritesOnDisk<T>(w: World<T>, files: Files, stop: nat, writes: nat, cfg: Setting, coder: BiCoder<T>)
    requires Kept(w, cfg) && OnlyFiles(w, files, cfg, coder) && ClockOk(w.machine, stop, cfg.width)
    ensures var dead := DeadFiles(w.machine, files, stop, writes, cfg, coder);
            && OnDisk(dead, cfg.queue, coder, CrashPages(w, stop, writes))
            && SameElsewhere(files, dead, cfg.queue)
            && forall f :: f in dead ==> f in files || f in Names(cfg.queue, CrashPages(w, stop, writes))
  {
    var all := w.machine.shape.(middle := OnFile(w));
    var stamp := NextStamp(w.machine, stop);
    CrashPagesApart(w, stop, writes, stop + 1, cfg);
    assert DeadFiles(w.machine, files, stop, writes, cfg, coder) == PageWrites(files, cfg.queue, coder, all, stamp, writes);
    WrittenNames(cfg.queue, all, stamp, writes);
    WritesElsewhere(files, cfg.queue, coder, w.machine.shape, stamp, writes);
    hide Kept, PageFile, PageText, WrittenPages, NextStamp, Separate, SameElsewhere, OnDisk, Names;
    WrittenOnDisk(files, cfg, coder, all, stamp, writes);
  }

  /** A shutdown makes all its page writes, and a state file if there is anything to list. */
  lemma ShutdownFilesOf<T>(w: World<T>, files: Files, stop: nat, cfg: Setting, coder: BiCoder<T>)
    ensures var w', dead := Step(w, Shutdown(stop), cfg), DeadFiles(w.machine, files, stop, 2, cfg, coder);
            && w'.down
            && FilesAfter(w, files, Shutdown(stop), cfg, coder)
               == (if Listed(w') != [] then dead[StateFile(cfg.queue) := Unlines(Names(cfg.queue, Listed(w')))] else dead)
  {
    ShutdownLists(w, stop, cfg);
    hide PageWrites, Listed, Step, Unlines;
  }

  lemma ShutdownOnDisk<T>(w: World<T>, files: Files, stop: nat, cfg: Setting, coder: BiCoder<T>)
    requires Kept(w, cfg) && OnlyFiles(w, files, cfg, coder) && ClockOk(w.machine, stop, cfg.width)
    ensures var files' := FilesAfter(w, files, Shutdown(stop), cfg, coder);
            OnlyFiles(Step(w, Shutdown(stop), cfg), files', cfg, coder) && SameElsewhere(files, files', cfg.queue)
  {
    var q, w' := cfg.queue, Step(w, Shutdown(stop), cfg);
    var dead, files' := DeadFiles(w.machine, files, stop, 2, cfg, coder), FilesAfter(w, files, Shutdown(stop), cfg, coder);
    var all := CrashPages(w, stop, 2);
    ShutdownElsewhere(files, q, coder, w.machine.shape, NextStamp(w.machine, stop));
    hide Kept, StateFile, OwnsOnly, CrashPages, OnFile, Listed, Step, DeadFiles, ShutdownFiles, OnDisk, Names,
         SameElsewhere, NextStamp, Unlines;
    ShutdownFilesOf(w, files, stop, cfg, coder);
    ShutdownPagesOf(w, stop, cfg);
    WritesOnDisk(w, files, stop, 2, cfg, coder);
    StateOnDisk(dead, q, coder, all, Unlines(Names(q, Listed(w'))));
    OnDiskPart(files', q, coder, OnFile(w'), all);
    OnDiskPart(files', q, coder, Listed(w'), all);
    ShutdownOwns(w, files, files', w', all, cfg, coder);
  }

  lemma ShutdownOwns<T>(w: World<T>, files: Files, files': Files, w': World<T>, all: seq<StoredPage<T>>, cfg: Setting,
                        coder: BiCoder<T>)
    requires OwnsOnly(w, files, cfg)
    requires forall f :: f in files' ==>
               || f in files || f in Names(cfg.queue, all)
               || (f == StateFile(cfg.queue) && Listed(w') != [])
    requires (forall p <- all :: p in OnFile(w') || p in Listed(w')) && (forall p <- OnFile(w) :: p in OnFile(w'))
    requires (forall p <- Listed(w) :: p in OnFile(w') || p in Listed(w')) && (Listed(w) != [] ==> Listed(w') != [])
    ensures OwnsOnly(w', files', cfg)
  {
    hide StateFile, Owned, OnFile, Listed, Names;
    NamesOfAll(cfg.queue, all, OnFile(w'), Listed(w'));
    NamesPart(cfg.queue, OnFile(w), OnFile(w'));
    NamesOfAll(cfg.queue, Listed(w), OnFile(w'), Listed(w'));
  }

  /** Every page file after a shutdown is under a generated name or listed, and those of before are among them. */
  lemma ShutdownPagesOf<T>(w: World<T>, stop: nat, cfg: Setting)
    requires Kept(w, cfg)
    ensures var w' := Step(w, Shutdown(stop), cfg);
            && (forall p <- OnFile(w') :: p in CrashPages(w, stop, 2))
            && (forall p <- Listed(w') :: p in CrashPages(w, stop, 2))
            && (forall p <- CrashPages(w, stop, 2) :: p in OnFile(w') || p in Listed(w'))
            && (forall p <- OnFile(w) :: p in OnFile(w'))
            && (forall p <- Listed(w) :: p in OnFile(w') || p in Listed(w'))
            && (Listed(w) != [] ==> Listed(w') != [])
  {
    hide Inv, FilesKept, NextStamp;
  }

  lemma NamesOfAll<T>(queue: string, all: seq<StoredPage<T>>, a: seq<StoredPage<T>>, b: seq<StoredPage<T>>)
    requires forall p <- all :: p in a || p in b
    ensures forall f <- Names(queue, all) :: f in Names(queue, a) || f in Names(queue, b)
  {
    hide PageFile;
    forall i | 0 <= i < |all| ensures Names(queue, all)[i] in Names(queue, a) || Names(queue, all)[i] in Names(queue, b) {
      assert all[i] in all;
      if all[i] in a { NameIn(queue, a, all[i]); } else { NameIn(queue, b, all[i]); }
    }
  }

  lemma NameIn<T>(queue: string, pages: seq<StoredPage<T>>, p: StoredPage<T>)
    requires p in pages
    ensures PageFile(queue, p.stamp) in Names(queue, pages)
  {
    var j :| 0 <= j < |pages| && pages[j] == p;
    assert Names(queue, pages)[j] == PageFile(queue, p.stamp);
  }

  // ---------- the end of a process ----------

  /** The stray page files and the listed ones are different files and, with the state file, all there is. */
  ghost predicate Split<T>(files: Files, cfg: Setting, coder: BiCoder<T>, strays: seq<StoredPage<T>>,
                           listed: seq<StoredPage<T>>) {
    && OnDisk(files, cfg.queue, coder, strays)
    && (forall f :: f in Names(cfg.queue, strays) ==> f !in Names(cfg.queue, listed))
    && (forall f :: f in files && Owned(cfg.queue, f) ==>
          f in Names(cfg.queue, strays) || f in Names(cfg.queue, listed) || f == StateFile(cfg.queue))
  }

  /** A start loads and removes the ends of the list, and leaves the rest of it and the stray page files. */
  lemma StartOnDisk<T(!new)>(files: Files, cfg: Setting, coder: BiCoder<T>, strays: seq<StoredPage<T>>,
                             listed: seq<StoredPage<T>>, up: nat)
    requires Faithful(coder) && Recoverable(files, cfg, coder, listed) && Split(files, cfg, coder, strays, listed)
    ensures var files' := StartedFiles(files, cfg.queue, listed);
            OnlyFiles(Started(listed, strays, up), files', cfg, coder) && SameElsewhere(files, files', cfg.queue)
  {
    hide *;
    var w, files' := Started(listed, strays, up), StartedFiles(files, cfg.queue, listed);
    EndsElsewhere(files, cfg.queue, listed);
    RestOnDisk(files, cfg, coder, listed);
    StraysStay(files, cfg, coder, strays, listed);
    BothOnDisk(files', cfg.queue, coder, strays, Load(listed).middle);
    RestOwned(files, cfg, coder, strays, listed);
    StartedOnFile(listed, strays, up);
    RunningFiles(w, files', cfg, coder);
  }

  lemma StartedOnFile<T>(listed: seq<StoredPage<T>>, strays: seq<StoredPage<T>>, up: nat)
    ensures var w := Started(listed, strays, up);
            OnFile(w) == strays + Load(listed).middle && Listed(w) == []
  {
  }

  lemma RunningFiles<T>(w: World<T>, files: Files, cfg: Setting, coder: BiCoder<T>)
    requires Listed(w) == [] && OnDisk(files, cfg.queue, coder, OnFile(w))
    requires Exact(files, cfg.queue, Names(cfg.queue, OnFile(w)))
    ensures OnlyFiles(w, files, cfg, coder)
  {
    RunningOwns(w, files, cfg, coder);
  }

  lemma RestOnDisk<T(!new)>(files: Files, cfg: Setting, coder: BiCoder<T>, listed: seq<StoredPage<T>>)
    requires Faithful(coder) && Recoverable(files, cfg, coder, listed)
    ensures OnDisk(StartedFiles(files, cfg.queue, listed), cfg.queue, coder, Load(listed).middle)
  {
    RecoverableParts(files, cfg, coder, listed);
    hide OnDisk, Increasing, Recoverable, Faithful, Load, Names, Ends, PagesOk;
    StateFileUnlisted(files, cfg.queue, coder, listed);
    LoadDescribed(files - {StateFile(cfg.queue)}, cfg.queue, coder, listed, cfg.width);
  }

  lemma RestOwned<T>(files: Files, cfg: Setting, coder: BiCoder<T>, strays: seq<StoredPage<T>>,
                     listed: seq<StoredPage<T>>)
    requires Split(files, cfg, coder, strays, listed)
    ensures Exact(StartedFiles(files, cfg.queue, listed), cfg.queue, Names(cfg.queue, strays + Load(listed).middle))
  {
    hide OnDisk, Load, Names, Ends, Owned, StateFile;
    NamesConcat(cfg.queue, strays, Load(listed).middle);
    forall f | f in StartedFiles(files, cfg.queue, listed) && Owned(cfg.queue, f)
      ensures f in Names(cfg.queue, strays + Load(listed).middle)
    {
      if f in Names(cfg.queue, listed) { MiddleNames(cfg.queue, listed, f); }
    }
  }

  lemma BothOnDisk<T>(files: Files, queue: string, coder: BiCoder<T>, a: seq<StoredPage<T>>, b: seq<StoredPage<T>>)
    requires OnDisk(files, queue, coder, a) && OnDisk(files, queue, coder, b)
    ensures OnDisk(files, queue, coder, a + b)
  {
  }

  lemma StraysStay<T>(files: Files, cfg: Setting, coder: BiCoder<T>, strays: seq<StoredPage<T>>,
                      listed: seq<StoredPage<T>>)
    requires Split(files, cfg, coder, strays, listed)
    ensures OnDisk(StartedFiles(files, cfg.queue, listed), cfg.queue, coder, strays)
  {
    hide PageFile, PageText, Owned;
    var q := cfg.queue;
    EndsAreListed(q, listed);
    NoStateFile(q, strays);
    forall i | 0 <= i < |strays| ensures PageFile(q, strays[i].stamp) in StartedFiles(files, q, listed) {
      assert Names(q, strays)[i] in Names(q, strays);
    }
  }

  lemma EndsAreListed<T>(queue: string, listed: seq<StoredPage<T>>)
    ensures forall f :: f in Ends(queue, listed) ==> f in Names(queue, listed)
  {
    if listed != [] {
      assert Names(queue, listed)[0] in Names(queue, listed);
      assert Names(queue, listed)[|listed| - 1] in Names(queue, listed);
    }
  }

  lemma NamesApart<T>(queue: string, a: seq<StoredPage<T>>, b: seq<StoredPage<T>>, width: nat)
    requires Separate(a + b, width)
    ensures forall f :: f in Names(queue, a) ==> f !in Names(queue, b)
  {
    NamesDistinct(queue, a + b, width);
    hide PageFile, Separate;
    NamesConcat(queue, a, b);
    forall i, j | 0 <= i < |a| && 0 <= j < |b| ensures Names(queue, a)[i] != Names(queue, b)[j] {
      assert Names(queue, a + b)[i] == Names(queue, a)[i] && Names(queue, a + b)[|a| + j] == Names(queue, b)[j];
    }
  }

  /** The stray page files that a process leaves to the next one. */
  function StraysLeft<T>(w: World<T>, stop: nat, writes: nat): seq<StoredPage<T>> {
    if Listed(w) == [] then [] else w.strays + (if writes >= 2 then LastFile(w.machine, stop) else [])
  }

  /** With a state file: it is read, whatever page writes were under way. */
  lemma ListedSplits<T>(w: World<T>, files: Files, stop: nat, writes: nat, up: nat, cfg: Setting, coder: BiCoder<T>)
    requires Kept(w, cfg) && OnlyFiles(w, files, cfg, coder) && ClockOk(w.machine, stop, cfg.width) && stop < up
    ensures var dead := DeadFiles(w.machine, files, stop, writes, cfg, coder);
            Listed(w) != [] ==>
              Recoverable(dead, cfg, coder, Listed(w)) && Split(dead, cfg, coder, StraysLeft(w, stop, writes), Listed(w))
  {
    if Listed(w) != [] {
      var q, dead := cfg.queue, DeadFiles(w.machine, files, stop, writes, cfg, coder);
      var all, strays := CrashPages(w, stop, writes), StraysLeft(w, stop, writes);
      WritesOnDisk(w, files, stop, writes, cfg, coder);
      ListedOlder(w, stop, up, cfg);
      ListedApart(w, stop, writes, up, cfg);
      ListedPages(w, stop, writes, cfg);
      StateUntouched(w, files, stop, writes, cfg, coder);
      ListedOnDisk(w, files, stop, writes, cfg, coder);
      hide Kept, PageFile, PageText, StateFile, Owned, CrashPages, OnFile, Listed, StraysLeft, PageWrites, OnDisk, Names,
           SameElsewhere, PagesOk, Separate;
      OnDiskPart(dead, q, coder, strays, all);
      NamesApart(q, strays, Listed(w), cfg.width);
      NamesOfAll(q, all, strays, Listed(w));
      NamesOfAll(q, OnFile(w), strays, Listed(w));
    }
  }

  lemma StateUntouched<T>(w: World<T>, files: Files, stop: nat, writes: nat, cfg: Setting, coder: BiCoder<T>)
    requires ListOnDisk(w, files, cfg, coder) && Listed(w) != []
    ensures var dead := DeadFiles(w.machine, files, stop, writes, cfg, coder);
            StateFile(cfg.queue) in dead && dead[StateFile(cfg.queue)] == Unlines(Names(cfg.queue, Listed(w)))
  {
    PageFileOwned(cfg.queue, Zero);
    PageFileOwned(cfg.queue, NextStamp(w.machine, stop));
    hide PageFile, PageText, StateFile, Listed, OnDisk, Names, NextStamp, Unlines;
  }

  lemma ListedOnDisk<T>(w: World<T>, files: Files, stop: nat, writes: nat, cfg: Setting, coder: BiCoder<T>)
    requires Kept(w, cfg) && OnlyFiles(w, files, cfg, coder) && ClockOk(w.machine, stop, cfg.width)
    ensures OnDisk(DeadFiles(w.machine, files, stop, writes, cfg, coder), cfg.queue, coder, Listed(w))
  {
    var dead := DeadFiles(w.machine, files, stop, writes, cfg, coder);
    if Listed(w) == [] {
      NoPages(dead, cfg.queue, coder);
    } else if writes == 0 {
      assert dead == files;
    } else {
      WritesOnDisk(w, files, stop, writes, cfg, coder);
      ListedPages(w, stop, writes, cfg);
      hide OnDisk, DeadFiles, CrashPages, Listed;
      OnDiskPart(dead, cfg.queue, coder, Listed(w), CrashPages(w, stop, writes));
    }
  }

  lemma ListedPages<T>(w: World<T>, stop: nat, writes: nat, cfg: Setting)
    requires ListKept(w, cfg) && Listed(w) != []
    ensures forall p <- StraysLeft(w, stop, writes) :: p in CrashPages(w, stop, writes)
    ensures forall p <- CrashPages(w, stop, writes) :: p in StraysLeft(w, stop, writes) || p in Listed(w)
    ensures forall p <- OnFile(w) :: p in StraysLeft(w, stop, writes) || p in Listed(w)
    ensures writes >= 1 ==> forall p <- Listed(w) :: p in CrashPages(w, stop, writes)
  {
    hide NextStamp;
  }

  lemma ListedApart<T>(w: World<T>, stop: nat, writes: nat, up: nat, cfg: Setting)
    requires Kept(w, cfg) && ClockOk(w.machine, stop, cfg.width) && stop < up && Listed(w) != []
    ensures Separate(StraysLeft(w, stop, writes) + Listed(w), cfg.width)
  {
    CrashPagesApart(w, stop, 2, up, cfg);
    var last := LastFile(w.machine, stop);
    assert CrashPages(w, stop, 2) == FirstFile(w.machine.shape) + (w.strays + w.tail + []) + last;
    hide Inv, FilesKept, Separate, CrashPages, LastFile, FirstFile;
    Rearranged(FirstFile(w.machine.shape), w.strays, w.tail, last, if writes >= 2 then last else []);
    SeparatePart(StraysLeft(w, stop, writes) + Listed(w), CrashPages(w, stop, 2), cfg.width);
  }

  lemma Rearranged<T>(first: seq<T>, strays: seq<T>, tail: seq<T>, last: seq<T>, more: seq<T>)
    requires more == last || more == []
    ensures multiset((strays + more) + (first + tail)) <= multiset(first + (strays + tail + []) + last)
  {
  }

  /** Without a state file: every page file is found. */
  lemma ScanSplits<T>(w: World<T>, files: Files, stop: nat, writes: nat, up: nat, cfg: Setting, coder: BiCoder<T>)
    requires Kept(w, cfg) && OnlyFiles(w, files, cfg, coder) && Listed(w) == []
    requires ClockOk(w.machine, stop, cfg.width) && stop < up && CountsInOrder(CrashPages(w, stop, writes))
    ensures var dead, found := DeadFiles(w.machine, files, stop, writes, cfg, coder), Recovered(w, stop, writes, cfg.queue);
            Recoverable(dead, cfg, coder, found) && Split(dead, cfg, coder, [], found)
  {
    var q, dead := cfg.queue, DeadFiles(w.machine, files, stop, writes, cfg, coder);
    var all, found := CrashPages(w, stop, writes), Recovered(w, stop, writes, cfg.queue);
    ScanKept(w, stop, writes, up, cfg);
    ScanNames(w, files, stop, writes, cfg, coder);
    NamesAscendIff(q, found, cfg.width);
    NoStateFile(q, found);
    StateFileIsNoPage(q);
    NoPages(dead, q, coder);
  }

  /** What an orphan scan finds: every page file, the stray ones included, in the order of `Recovered`. */
  lemma ScanNames<T>(w: World<T>, files: Files, stop: nat, writes: nat, cfg: Setting, coder: BiCoder<T>)
    requires Kept(w, cfg) && OnlyFiles(w, files, cfg, coder) && Listed(w) == [] && ClockOk(w.machine, stop, cfg.width)
    ensures var dead, found := DeadFiles(w.machine, files, stop, writes, cfg, coder), Recovered(w, stop, writes, cfg.queue);
            && OnDisk(dead, cfg.queue, coder, found) && Ascending(Names(cfg.queue, found))
            && Exact(dead, cfg.queue, Names(cfg.queue, found))
            && forall f :: f in Names(cfg.queue, found) <==> f in dead && MatchesPattern(cfg.queue, f)
  {
    var q, dead, all := cfg.queue, DeadFiles(w.machine, files, stop, writes, cfg, coder), CrashPages(w, stop, writes);
    WritesOnDisk(w, files, stop, writes, cfg, coder);
    CrashPagesApart(w, stop, writes, stop + 1, cfg);
    RunningOwns(w, files, cfg, coder);
    FilesAreWritten(w, stop, writes);
    hide Kept, PageFile, PageText, MatchesPattern, CrashPages, OnFile, Listed, PageWrites, OnDisk, Names, SameElsewhere,
         Separate, Sort;
    NamesPart(q, OnFile(w), all);
    NamesDistinct(q, all, cfg.width);
    FoundOnDisk(dead, q, coder, all, ByName(q, all));
    SortAscending(NameOf(q), all);
    OwnedMatch(dead, cfg, coder, ByName(q, all));
  }

  lemma FilesAreWritten<T>(w: World<T>, stop: nat, writes: nat)
    ensures forall p <- OnFile(w) :: p in CrashPages(w, stop, writes)
  {
  }

  lemma FoundOnDisk<T>(files: Files, queue: string, coder: BiCoder<T>, all: seq<StoredPage<T>>,
                       found: seq<StoredPage<T>>)
    requires OnDisk(files, queue, coder, all) && multiset(found) == multiset(all)
    ensures OnDisk(files, queue, coder, found)
    ensures forall f :: f in Names(queue, found) <==> f in Names(queue, all)
  {
    hide OnDisk, Names;
    SamePages(all, found);
    OnDiskPart(files, queue, coder, found, all);
    NamesPart(queue, found, all);
    NamesPart(queue, all, found);
  }

  lemma OwnedMatch<T>(files: Files, cfg: Setting, coder: BiCoder<T>, pages: seq<StoredPage<T>>)
    requires OnDisk(files, cfg.queue, coder, pages) && Exact(files, cfg.queue, Names(cfg.queue, pages))
    ensures forall f :: f in Names(cfg.queue, pages) <==> f in files && MatchesPattern(cfg.queue, f)
  {
    hide PageFile, PageText, MatchesPattern;
    forall f | f in Names(cfg.queue, pages) ensures f in files && MatchesPattern(cfg.queue, f) {
      var i :| 0 <= i < |pages| && Names(cfg.queue, pages)[i] == f;
      PageFileOwned(cfg.queue, pages[i].stamp);
    }
  }

  /** After a loss in any run, an orphan scan finds the names of all page files, stray and listed. */
  lemma ScanFindsStrays<T>(w: World<T>, files: Files, stop: nat, writes: nat, found: seq<string>, cfg: Setting,
                           coder: BiCoder<T>)
    requires Kept(w, cfg) && OnlyFiles(w, files, cfg, coder) && Listed(w) == [] && ClockOk(w.machine, stop, cfg.width)
    requires var dead := DeadFiles(w.machine, files, stop, writes, cfg, coder);
             Ascending(found) && forall f :: f in found <==> f in dead && MatchesPattern(cfg.queue, f)
    ensures found == Names(cfg.queue, ByName(cfg.queue, CrashPages(w, stop, writes)))
  {
    hide Kept, OnlyFiles, DeadFiles, MatchesPattern, Names, CrashPages;
    ScanNames(w, files, stop, writes, cfg, coder);
    AscendingUnique(found, Names(cfg.queue, Recovered(w, stop, writes, cfg.queue)));
  }

  // ---------- steps and runs ----------

  lemma DieOnDisk<T(!new)>(w: World<T>, files: Files, stop: nat, writes: nat, up: nat, cfg: Setting, coder: BiCoder<T>)
    requires Faithful(coder) && Kept(w, cfg) && OnlyFiles(w, files, cfg, coder)
    requires Legal(w, Die(stop, writes, up), cfg) && Ordered(w, Die(stop, writes, up))
    ensures var dead, listed := DeadFiles(w.machine, files, stop, writes, cfg, coder), Recovered(w, stop, writes, cfg.queue);
            && Recoverable(dead, cfg, coder, listed) && OlderThan(listed, up)
            && Step(w, Die(stop, writes, up), cfg) == Started(listed, StraysLeft(w, stop, writes), up)
            && OnlyFiles(Started(listed, StraysLeft(w, stop, writes), up), StartedFiles(dead, cfg.queue, listed), cfg, coder)
            && SameElsewhere(files, StartedFiles(dead, cfg.queue, listed), cfg.queue)
  {
    var dead, listed := DeadFiles(w.machine, files, stop, writes, cfg, coder), Recovered(w, stop, writes, cfg.queue);
    if Listed(w) != [] {
      ListedSplits(w, files, stop, writes, up, cfg, coder);
      ListedOlder(w, stop, up, cfg);
    } else {
      ScanSplits(w, files, stop, writes, up, cfg, coder);
      ScanKept(w, stop, writes, up, cfg);
    }
    hide Kept, OnlyFiles, SameElsewhere, Recoverable, Split, OlderThan, DeadFiles, Started, StartedFiles, CrashPages, ByName,
         Faithful;
    WritesOnDisk(w, files, stop, writes, cfg, coder);
    StartOnDisk(dead, cfg, coder, StraysLeft(w, stop, writes), listed, up);
    SameElsewhereTransitive(files, dead, StartedFiles(dead, cfg.queue, listed), cfg.queue);
  }

  lemma StartIsDetermined<T(!new)>(files: Files, cfg: Setting, coder: BiCoder<T>, listed: seq<StoredPage<T>>, up: nat,
                                   p': Process<T>, files': Files)
    requires Faithful(coder) && '\n' !in cfg.queue
    requires Recoverable(files, cfg, coder, listed) && OlderThan(listed, up)
    ensures Starts(files, cfg, coder, up, p', files')
            <==> p' == Process(Machine(Load(listed), 0, 0, up), false) && files' == StartedFiles(files, cfg.queue, listed)
  {
    hide Recoverable, OlderThan, StartedFiles, Load, Faithful;
    forall pages | Recoverable(files, cfg, coder, pages) ensures pages == listed {
      StartIsUnique(files, cfg, coder, pages, listed);
    }
  }

  /** One step on the directory: what the program does is determined, it is the step of the model, and the files
      are again those of the model and no other. */
  lemma StepOnDisk<T(!new)>(w: World<T>, files: Files, e: Event<T>, p': Process<T>, files': Files, cfg: Setting,
                            coder: BiCoder<T>)
    requires Faithful(coder) && '\n' !in cfg.queue
    requires Kept(w, cfg) && OnlyFiles(w, files, cfg, coder) && Legal(w, e, cfg) && Ordered(w, e)
    ensures var after := FilesAfter(w, files, e, cfg, coder);
            && OnlyFiles(Step(w, e, cfg), after, cfg, coder) && SameElsewhere(files, after, cfg.queue)
            && (Moves(ProcessOf(w), files, e, p', files', cfg, coder)
                <==> p' == ProcessOf(Step(w, e, cfg)) && files' == after)
  {
    match e
    case Do(op) => DoOnDisk(w, files, op, cfg, coder);
    case Shutdown(stop) =>
      hide Kept, OnlyFiles, SameElsewhere, ShutdownFiles;
      ShutdownOnDisk(w, files, stop, cfg, coder);
    case Die(stop, writes, up) =>
      hide Kept, OnlyFiles, SameElsewhere, DeadFiles, StartedFiles, Recovered, Load, Recoverable, OlderThan, Starts, Faithful,
           StraysLeft, Listed, CountsInOrder;
      var dead, listed := DeadFiles(w.machine, files, stop, writes, cfg, coder), Recovered(w, stop, writes, cfg.queue);
      DieOnDisk(w, files, stop, writes, up, cfg, coder);
      StartIsDetermined(dead, cfg, coder, listed, up, p', files');
  }

  lemma DoOnDisk<T>(w: World<T>, files: Files, op: PagedRuns.Operation<T>, cfg: Setting, coder: BiCoder<T>)
    requires Kept(w, cfg) && OnlyFiles(w, files, cfg, coder) && Legal(w, Do(op), cfg)
    ensures var after := FilesAfter(w, files, Do(op), cfg, coder);
            OnlyFiles(Step(w, Do(op), cfg), after, cfg, coder) && SameElsewhere(files, after, cfg.queue)
  {
    if w.down {
      DownPeek(w, op, cfg);
      assert FilesAfter(w, files, Do(op), cfg, coder) == files;
      SameElsewhereReflexive(files, cfg.queue);
    } else {
      OperationOnDisk(w, files, op, cfg, coder);
    }
  }

  function FinalFiles<T>(w: World<T>, files: Files, run: seq<Event<T>>, cfg: Setting, coder: BiCoder<T>): Files
    decreases |run|
  {
    if run == [] then files
    else FinalFiles(Step(w, run[0], cfg), FilesAfter(w, files, run[0], cfg, coder), run[1..], cfg, coder)
  }

  /** A run of the program, which knows the process state and the files and nothing else. */
  ghost predicate RunsTo<T(!new)>(p: Process<T>, files: Files, run: seq<Event<T>>, p': Process<T>, files': Files,
                                  cfg: Setting, coder: BiCoder<T>)
    decreases |run|
  {
    if run == [] then p' == p && files' == files
    else exists p1, files1 ::
      Moves(p, files, run[0], p1, files1, cfg, coder) && RunsTo(p1, files1, run[1..], p', files', cfg, coder)
  }

  /** Whole runs on the directory, with any number of shutdowns and losses, and with orphan scans that meet stray page
      files: from the files of the model and no other, no start fails, the program ends in the state of the model, its
      files are again those of the model and no other, and no other queue's file has changed. */
  lemma {:induction false} RunOnDisk<T(!new)>(w: World<T>, files: Files, run: seq<Event<T>>, p': Process<T>,
                                              files': Files, cfg: Setting, coder: BiCoder<T>)
    requires Faithful(coder) && '\n' !in cfg.queue
    requires Kept(w, cfg) && OnlyFiles(w, files, cfg, coder) && OrderedRun(w, run, cfg)
    ensures var w', after := Final(w, run, cfg), FinalFiles(w, files, run, cfg, coder);
            && Kept(w', cfg) && OnlyFiles(w', after, cfg, coder) && SameElsewhere(files, after, cfg.queue)
            && (RunsTo(ProcessOf(w), files, run, p', files', cfg, coder) <==> p' == ProcessOf(w') && files' == after)
    decreases |run|
  {
    hide Kept, OnlyFiles, SameElsewhere, Moves, FilesAfter, Step, Legal, Ordered, Faithful, ProcessOf;
    if run == [] {
      SameElsewhereReflexive(files, cfg.queue);
    } else {
      var e, w1, files1 := run[0], Step(w, run[0], cfg), FilesAfter(w, files, run[0], cfg, coder);
      StepKept(w, e, cfg);
      forall p2, files2
        ensures Moves(ProcessOf(w), files, e, p2, files2, cfg, coder) <==> p2 == ProcessOf(w1) && files2 == files1
      {
        StepOnDisk(w, files, e, p2, files2, cfg, coder);
      }
      StepOnDisk(w, files, e, ProcessOf(w1), files1, cfg, coder);
      RunOnDisk(w1, files1, run[1..], p', files', cfg, coder);
      SameElsewhereTransitive(files, files1, FinalFiles(w, files, run, cfg, coder), cfg.queue);
    }
  }

  lemma FreshOnDisk<T>(files: Files, start: nat, cfg: Setting, coder: BiCoder<T>)
    requires NoFiles(files, cfg.queue)
    ensures Kept(Fresh<T>(start), cfg) && OnlyFiles(Fresh<T>(start), files, cfg, coder)
  {
    FreshKept<T>(cfg, start);
    assert OnFile(Fresh<T>(start)) == [];
  }

  /** From a directory without a file of the queue: the first-in first-out order of safe runs, for the program that
      starts from its files and is left in a running process. */
  lemma DirectoryIsFifo<T(!new)>(files: Files, run: seq<Event<T>>, start: nat, p': Process<T>, files': Files,
                                 cfg: Setting, coder: BiCoder<T>)
    requires Faithful(coder) && '\n' !in cfg.queue && NoFiles(files, cfg.queue)
    requires SafeRun(Fresh<T>(start), run, cfg) && OnlyBackPushes(run)
    requires RunsTo(ProcessOf(Fresh<T>(start)), files, run, p', files', cfg, coder) && !p'.down
    ensures Subsequence(Popped(Fresh<T>(start), run, cfg) + Contents(p'.machine.shape), Pushed(Fresh<T>(start), run, cfg))
    ensures SameElsewhere(files, files', cfg.queue)
  {
    hide Final, Popped, Pushed, Kept, SafeRun, OrderedRun, RunsTo, Subsequence, SameElsewhere, Faithful, Contents, OnlyFiles,
         Fresh;
    FreshOnDisk<T>(files, start, cfg, coder);
    SafeIsOrdered(Fresh<T>(start), run, cfg);
    RunOnDisk(Fresh<T>(start), files, run, p', files', cfg, coder);
    RunIsFifo(run, cfg, start);
  }
}
