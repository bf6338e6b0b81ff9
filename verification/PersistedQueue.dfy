/** The paged FIFO itself: two in-memory pages, which may be one object, and a list of page files. */
module PersistedQueues {
  import opened Wrappers
  import opened LineText
  import Base64
  import opened NameOrder
  import opened PageNames
  import opened Paging
  import opened Storage

  /** A `std::deque` behind a `shared_ptr`. */
  class Page<T> {
    var items: seq<T>

    constructor (items: seq<T>)
      ensures this.items == items
    {
      this.items := items;
    }
  }

  /** The working directory. */
  class Disk {
    var files: Files

    constructor ()
      ensures files == map[]
    {
      files := map[];
    }

    /** A directory listing, in no particular order. */
    method List() returns (names: seq<string>)
      ensures Distinct(names)
      ensures forall f :: f in names <==> f in files
    {
      names := [];
      var left := files.Keys;
      while left != {}
        invariant left <= files.Keys && Distinct(names)
        invariant forall f :: f in names <==> f in files.Keys - left
        decreases left
      {
        var name :| name in left;
        assert name !in names;
        names, left := names + [name], left - {name};
      }
    }
  }

  /** `time(NULL)`: seconds that never go back, with a fixed number of digits. */
  class Clock {
    var now: nat
    const width: nat

    ghost predicate Valid()
      reads this
    {
      1 <= now && |Dec(now)| == width
    }

    constructor (now: nat)
      requires 1 <= now
      ensures Valid() && this.now == now
    {
      this.now := now;
      width := |Dec(now)|;
    }

    method Read() returns (seconds: nat)
      requires Valid()
      modifies this
      ensures Valid() && seconds == now && old(now) <= now
    {
      seconds :| now <= seconds && |Dec(seconds)| == width;
      now := seconds;
    }
  }

  class PersistedQueue<T(!new)> {
    const queueName: string
    const maxItemsPerPage: nat
    const disk: Disk
    const clock: Clock
    const biCoder: BiCoder<T>

    var shutDown: bool
    var lastSeqNum: nat
    var seqNumCount: nat
    var persistedFileNames: seq<string>
    var firstPage: Page<T>
    var lastPage: Page<T>

    /** The pages behind `persistedFileNames`. */
    ghost var middle: seq<StoredPage<T>>

    ghost function ShapeNow(): Shape<T>
      reads this, firstPage, lastPage
    {
      Shape(firstPage.items, middle, if lastPage == firstPage then None else Some(lastPage.items))
    }

    ghost function Abs(): Machine<T>
      reads this, firstPage, lastPage, clock
    {
      Machine(ShapeNow(), lastSeqNum, seqNumCount, clock.now)
    }

    ghost function Cfg(): Setting {
      Setting(queueName, maxItemsPerPage, clock.width)
    }

    ghost function Items(): seq<T>
      reads this, firstPage, lastPage
    {
      Contents(ShapeNow())
    }

    ghost predicate Valid()
      reads this, firstPage, lastPage, disk, clock
    {
      && Faithful(biCoder)
      && clock.Valid()
      && '\n' !in queueName
      && persistedFileNames == Names(queueName, middle)
      && OnDisk(disk.files, queueName, biCoder, middle)
      && Inv(Abs(), Cfg())
    }

    /** The queue's files on disk are exactly the listed ones, and there is no state file. */
    ghost predicate Clean()
      reads this, disk
    {
      Exact(disk.files, queueName, persistedFileNames)
    }

    /** Every listed page file holds as many items as fit on a page. */
    ghost predicate FullPages()
      reads this
    {
      Full(middle, Cap(maxItemsPerPage))
    }

    /** Starts from whatever shutdowns or a crash left in the directory. */
    constructor (queueName: string, disk: Disk, maxItemsPerPage: nat, clock: Clock, biCoder: BiCoder<T>,
                 ghost pages: seq<StoredPage<T>>)
      requires Faithful(biCoder) && clock.Valid() && '\n' !in queueName
      requires Recoverable(disk.files, Setting(queueName, maxItemsPerPage, clock.width), biCoder, pages)
      requires OlderThan(pages, clock.now)
      modifies disk
      ensures this.queueName == queueName && this.disk == disk && this.maxItemsPerPage == maxItemsPerPage
      ensures this.clock == clock && this.biCoder == biCoder
      ensures Valid() && !shutDown
      ensures Abs() == Machine(Load(pages), 0, 0, clock.now)
      ensures Items() == Flatten(pages)
      ensures disk.files == StartedFiles(old(disk.files), queueName, pages)
      ensures SameElsewhere(old(disk.files), disk.files, queueName)
      ensures ExactWithState(old(disk.files), queueName, Names(queueName, pages)) ==> Clean()
      ensures Full(Load(pages).middle, Cap(maxItemsPerPage)) ==> FullPages()
      ensures fresh(firstPage) && fresh(lastPage)
    {
      hide Inv, OnDisk, Faithful, SameElsewhere, Contents, Exact, ExactWithState, Recoverable, OlderThan, Full, Load, Flatten,
           StartedFiles;
      this.queueName, this.disk, this.maxItemsPerPage := queueName, disk, maxItemsPerPage;
      this.clock, this.biCoder := clock, biCoder;
      shutDown, lastSeqNum, seqNumCount := false, 0, 0;
      persistedFileNames, middle := [], [];
      var page := new Page<T>([]);
      firstPage, lastPage := page, page;
      new;
      LoadPages(pages);
    }

    // ---------- operations ----------

    method PushBack(p: T) returns (r: Result<()>)
      requires Valid()
      modifies this, firstPage, lastPage, disk, clock
      ensures Valid() && shutDown == old(shutDown)
      ensures shutDown ==> r == Failure(QueueShutDown) && unchanged(this, old(firstPage), old(lastPage), disk, clock)
      ensures !shutDown ==> r == Success(()) && Items() == old(Items()) + [p]
      ensures !shutDown ==> Abs() == Paging.PushBack(old(Abs()), p, maxItemsPerPage, clock.now)
      ensures !shutDown && old(lastPage == firstPage) ==>
                (lastPage == firstPage <==> |old(firstPage.items)| < maxItemsPerPage)
      ensures !shutDown ==>
                disk.files == PushedFiles(old(disk.files), queueName, biCoder, old(Abs()), maxItemsPerPage, clock.now)
      ensures clock.Valid() && old(clock.now) <= clock.now
      ensures old(Clean()) ==> Clean()
      ensures old(FullPages()) ==> FullPages()
      ensures SameElsewhere(old(disk.files), disk.files, queueName)
      ensures fresh({firstPage, lastPage} - {old(firstPage), old(lastPage)})
    {
      hide Inv, OnDisk, Faithful, SameElsewhere, Exact, ClockOk, Contents, Full;
      SameElsewhereReflexive(disk.files, queueName);
      if shutDown { return Failure(QueueShutDown); }
      ghost var m := Abs();
      assert [] + [p] == [p];
      if |lastPage.items| >= maxItemsPerPage {
        if lastPage != firstPage {
          SpillLastPage();
        }
        lastPage := new Page<T>([]);
      }
      lastPage.items := lastPage.items + [p];
      assert Abs() == Paging.PushBack(m, p, maxItemsPerPage, clock.now);
      PushBackAppends(m, p, Cfg(), clock.now);
      if old(FullPages()) { PushBackFull(m, p, Cfg(), clock.now); }
      return Success(());
    }

    /** The page file that `push_back` writes before it starts a new last page. */
    method SpillLastPage()
      requires Valid() && lastPage != firstPage
      modifies this`lastSeqNum, this`seqNumCount, this`persistedFileNames, this`middle, disk, clock
      ensures clock.Valid() && old(clock.now) <= clock.now
      ensures At(lastSeqNum, seqNumCount) == NextStamp(old(Abs()), clock.now)
      ensures middle == old(middle) + [StoredPage(At(lastSeqNum, seqNumCount), lastPage.items)]
      ensures persistedFileNames == Names(queueName, middle) && OnDisk(disk.files, queueName, biCoder, middle)
      ensures var name := PageFile(queueName, At(lastSeqNum, seqNumCount));
              disk.files == old(disk.files)[name := PageText(biCoder, lastPage.items)]
      ensures old(Clean()) ==> Clean()
      ensures SameElsewhere(old(disk.files), disk.files, queueName)
    {
      hide Inv, OnDisk, Faithful, SameElsewhere, Exact, SeqString;
      ghost var m := Abs();
      var seqNum := SeqNumber();
      assert m.time <= clock.now;
      ghost var page := StoredPage(At(lastSeqNum, seqNumCount), lastPage.items);
      OnlyZeroIsZero(lastSeqNum, seqNumCount);
      PersistToFile(seqNum, lastPage);
      NewPageFile(old(disk.files), Cfg(), biCoder, m, clock.now, page);
      middle := middle + [page];
    }

    method PushFront(p: T) returns (r: Result<()>)
      requires Valid()
      modifies this, firstPage
      ensures Valid() && shutDown == old(shutDown)
      ensures shutDown ==> r == Failure(QueueShutDown) && unchanged(this, old(firstPage))
      ensures !shutDown ==> r == Success(()) && Abs() == Paging.PushFront(old(Abs()), p)
    {
      if shutDown { return Failure(QueueShutDown); }
      firstPage.items := [p] + firstPage.items;
      return Success(());
    }

    /** The refill that `front` and `pop_front` begin with. */
    method RefillFirstPage()
      requires Valid()
      modifies this`firstPage, this`persistedFileNames, this`middle, disk
      ensures Valid() && ShapeNow() == Refill(old(ShapeNow()))
      ensures disk.files == RefilledFiles(old(disk.files), queueName, old(ShapeNow()))
      ensures old(Clean()) ==> Clean()
      ensures old(FullPages()) ==> FullPages()
      ensures SameElsewhere(old(disk.files), disk.files, queueName)
      ensures fresh({firstPage} - {old(firstPage), lastPage})
    {
      hide Inv, OnDisk, Faithful, SameElsewhere, Exact, Contents, Full, ReadPage, PageText, PageFile, Increasing;
      SameElsewhereReflexive(disk.files, queueName);
      RefillKeeps(Abs(), Cfg());
      InvParts(Abs(), Cfg());
      if FullPages() { RefillFull(ShapeNow(), Cap(maxItemsPerPage)); }
      if |firstPage.items| == 0 {
        if |persistedFileNames| == 0 {
          firstPage := lastPage;
        } else {
          FrontFile(disk.files, queueName, biCoder, middle, clock.width);
          var loaded := LoadFrontFile();
          assert loaded.Success?;
          firstPage := loaded.value;
          middle := middle[1..];
        }
      }
    }

    method PopFront() returns (r: Result<Option<T>>)
      requires Valid()
      modifies this, firstPage, lastPage, disk
      ensures Valid() && shutDown == old(shutDown)
      ensures shutDown ==> r == Failure(QueueShutDown) && unchanged(this, old(firstPage), old(lastPage), disk)
      ensures !shutDown ==> (Abs(), r) == (Paging.PopFront(old(Abs())).0, Success(Paging.PopFront(old(Abs())).1))
      ensures !shutDown ==> disk.files == RefilledFiles(old(disk.files), queueName, old(ShapeNow()))
      ensures !shutDown && old(Items()) == [] ==> r == Success(None) && Items() == []
      ensures !shutDown && old(Items()) != [] ==> r == Success(Some(old(Items())[0])) && Items() == old(Items())[1..]
      ensures old(Clean()) ==> Clean()
      ensures old(FullPages()) ==> FullPages()
      ensures SameElsewhere(old(disk.files), disk.files, queueName)
      ensures fresh({firstPage, lastPage} - {old(firstPage), old(lastPage)})
    {
      hide Inv, OnDisk, Faithful, SameElsewhere, Exact, Contents;
      SameElsewhereReflexive(disk.files, queueName);
      if shutDown { return Failure(QueueShutDown); }
      PopFrontRemovesHead(Abs(), Cfg());
      RefillFirstPage();
      if |firstPage.items| == 0 {
        return Success(None);
      }
      var head := firstPage.items[0];
      firstPage.items := firstPage.items[1..];
      return Success(Some(head));
    }

    /** Unlike the other operations, `front` also works on a queue that has been shut down. */
    method Front() returns (r: Option<T>)
      requires Valid()
      modifies this`firstPage, this`persistedFileNames, this`middle, disk
      ensures Valid() && Items() == old(Items())
      ensures (Abs(), r) == Paging.Front(old(Abs()))
      ensures disk.files == RefilledFiles(old(disk.files), queueName, old(ShapeNow()))
      ensures r == if old(Items()) == [] then None else Some(old(Items())[0])
      ensures old(Clean()) ==> Clean()
      ensures old(FullPages()) ==> FullPages()
      ensures SameElsewhere(old(disk.files), disk.files, queueName)
      ensures fresh({firstPage} - {old(firstPage), lastPage})
    {
      hide Inv, OnDisk, Faithful, SameElsewhere, Exact, Contents;
      FrontPeeks(Abs(), Cfg());
      RefillFirstPage();
      if |firstPage.items| == 0 {
        r := None;
      } else {
        r := Some(firstPage.items[0]);
      }
    }

    /** Writes both pages and the state file; the pages stay in memory and the list of files is drained,
        so that a second call starts from the two pages alone. */
    method Shutdown()
      requires Valid()
      modifies this`shutDown, this`lastSeqNum, this`seqNumCount, this`persistedFileNames, this`middle, disk, clock
      ensures Valid() && shutDown && clock.Valid() && old(clock.now) <= clock.now
      ensures firstPage == old(firstPage) && lastPage == old(lastPage)
      ensures Abs() == AfterShutdown(old(Abs()), clock.now)
      ensures var s, stamp := old(ShapeNow()), NextStamp(old(Abs()), clock.now);
              var pages := ShutdownPages(s, stamp);
              && disk.files == ShutdownFiles(old(disk.files), queueName, biCoder, s, stamp)
              && Flatten(pages) == old(Items())
              && OlderThan(pages, clock.now + 1)
              && (old(Clean()) || pages != [] ==> Recoverable(disk.files, Cfg(), biCoder, pages))
              && (old(Clean()) ==> ExactWithState(disk.files, queueName, Names(queueName, pages)))
      ensures SameElsewhere(old(disk.files), disk.files, queueName)
    {
      hide Inv, OnDisk, Faithful, SameElsewhere, Exact, Contents, Recoverable, ExactWithState, ShutdownPages,
           PageWrites,
           OlderThan, Flatten, PageFile;
      ghost var m := Abs();
      shutDown := true;
      WriteFirstAndLastPage();
      ShutdownNames(queueName, m.shape, NextStamp(m, clock.now));
      WriteStateFile();
      middle := [];
      NoPages(disk.files, queueName, biCoder);
      AfterShutdownInv(m, Cfg(), clock.now);
      ShutdownLeaves(old(disk.files), Cfg(), biCoder, m, clock.now);
    }

    /** Pops until nothing is left. */
    method Clear() returns (r: Result<()>)
      requires Valid()
      modifies this, firstPage, lastPage, disk
      ensures Valid() && shutDown == old(shutDown)
      ensures shutDown ==> unchanged(this, old(firstPage), old(lastPage), disk)
      ensures r == if shutDown && old(Items()) != [] then Failure(QueueShutDown) else Success(())
      ensures !shutDown ==> Items() == [] && ShapeNow() == Shape([], [], None)
      ensures old(Clean()) ==> Clean()
      ensures old(FullPages()) ==> FullPages()
      ensures !shutDown && old(Clean()) ==> NoFiles(disk.files, queueName)
      ensures SameElsewhere(old(disk.files), disk.files, queueName)
      ensures fresh({firstPage, lastPage} - {old(firstPage), old(lastPage)})
    {
      hide Inv, OnDisk, Faithful, SameElsewhere, Contents;
      SameElsewhereReflexive(disk.files, queueName);
      while !Empty()
        invariant Valid() && shutDown == old(shutDown)
        invariant shutDown ==> unchanged(this, old(firstPage), old(lastPage), disk)
        invariant old(Clean()) ==> Clean()
        invariant old(FullPages()) ==> FullPages()
        invariant SameElsewhere(old(disk.files), disk.files, queueName)
        invariant fresh({firstPage, lastPage} - {old(firstPage), old(lastPage)})
        decreases |Items()|
      {
        ghost var files := disk.files;
        var popped := PopFront();
        SameElsewhereTransitive(old(disk.files), files, disk.files, queueName);
        if popped.Failure? { return Failure(popped.error); }
      }
      EmptyIsOnePage(Abs(), Cfg());
      return Success(());
    }

    predicate Empty()
      requires Valid()
      reads this, firstPage, lastPage, disk, clock
      ensures Empty() <==> Items() == []
    {
      RefillKeeps(Abs(), Cfg());
      |firstPage.items| == 0 && |lastPage.items| == 0 && |persistedFileNames| == 0
    }

    function Size(): (n: nat)
      requires Valid()
      reads this, firstPage, lastPage, disk, clock
      ensures n == |Items()| <==> Full(middle, maxItemsPerPage)
      ensures FullPages() ==> (n == |Items()| <==> maxItemsPerPage >= 1 || persistedFileNames == [])
    {
      SizeExact(Abs(), Cfg());
      if firstPage == lastPage then
        |firstPage.items| + |persistedFileNames| * maxItemsPerPage
      else
        |firstPage.items| + |lastPage.items| + |persistedFileNames| * maxItemsPerPage
    }

    // ---------- page files ----------

    method SeqNumber() returns (seqNum: string)
      requires clock.Valid()
      modifies this`lastSeqNum, this`seqNumCount, clock
      ensures clock.Valid() && old(clock.now) <= clock.now
      ensures lastSeqNum == clock.now
      ensures seqNumCount == if old(lastSeqNum) == clock.now then old(seqNumCount) + 1 else 0
      ensures seqNum == SeqString(At(lastSeqNum, seqNumCount))
    {
      hide Dec;
      var newSeqNum := clock.Read();
      if lastSeqNum == newSeqNum {
        seqNumCount := seqNumCount + 1;
      } else {
        lastSeqNum := newSeqNum;
        seqNumCount := 0;
      }
      seqNum := Dec(lastSeqNum);
      if seqNumCount < 1000 { seqNum := seqNum + "0"; }
      if seqNumCount < 100 { seqNum := seqNum + "0"; }
      if seqNumCount < 10 { seqNum := seqNum + "0"; }
      seqNum := seqNum + Dec(seqNumCount);
    }

    method PersistToFile(seqNum: string, p: Page<T>)
      modifies this`persistedFileNames, disk
      ensures var fileName := queueName + "_" + seqNum;
              && persistedFileNames == (if seqNum != "0" then old(persistedFileNames) + [fileName]
                                        else [fileName] + old(persistedFileNames))
              && disk.files == old(disk.files)[fileName := PageText(biCoder, p.items)]
    {
      hide Base64.Rfc4648;
      var fileName := queueName + "_" + seqNum;
      if seqNum != "0" {
        persistedFileNames := persistedFileNames + [fileName];
      } else {
        persistedFileNames := [fileName] + persistedFileNames;
      }
      label Listed:
      var text := "";
      for i := 0 to |p.items|
        invariant text == Unlines(Lines(biCoder, p.items)[..i]) && unchanged@Listed(this, disk)
      {
        var record := Base64.EncodeToBase64String(biCoder.serialize(p.items[i]));
        text := text + record + "\n";
        UnlinesAppend(Lines(biCoder, p.items)[..i], record);
        assert Lines(biCoder, p.items)[..i + 1] == Lines(biCoder, p.items)[..i] + [record];
      }
      assert Lines(biCoder, p.items)[..|p.items|] == Lines(biCoder, p.items);
      disk.files := disk.files[fileName := text];
    }

    /** Reads every terminated line once, then removes the file. */
    method LoadFromFile(path: string) returns (r: Result<Page<T>>)
      modifies disk
      ensures path !in old(disk.files) ==> r == Failure(CouldNotLoadQueueFile(path)) && unchanged(disk)
      ensures path in old(disk.files) ==>
                match ReadPage(biCoder, old(disk.files)[path])
                case None => r == Failure(MalformedRecord(path)) && unchanged(disk)
                case Some(items) => r.Success? && fresh(r.value) && r.value.items == items
                                    && disk.files == old(disk.files) - {path}
    {
      hide RecordsFrom, GetLine, ReadItems, Base64.Decode, Base64.Rfc4648;
      if path !in disk.files { return Failure(CouldNotLoadQueueFile(path)); }
      var text := disk.files[path];
      NothingRead(biCoder);
      var page := new Page<T>([]);
      ghost var seen := [];
      var line := GetLine(text, 0);
      PendingAfterGetLine(text, 0);

      while !line.eof
        invariant line.next <= |text|
        invariant seen + Pending(text, line) == Records(text)
        invariant ReadItems(biCoder, seen) == Some(page.items) && unchanged(disk)
        decreases !line.eof, |text| - line.next
      {
        var bytes := Base64.DecodeFromBase64(line.record);
        ReadItemsStep(biCoder, seen, line.record);
        seen := seen + [line.record];
        assert seen + RecordsFrom(text, line.next) == Records(text);
        if bytes.None? {
          assert seen == Records(text)[..|seen|];
          ReadItemsFails(biCoder, Records(text), |seen|);
          return Failure(MalformedRecord(path));
        }
        page.items := page.items + [biCoder.parse(bytes.value)];
        PendingAfterGetLine(text, line.next);
        line := GetLine(text, line.next);
      }
      assert seen + [] == seen;
      disk.files := disk.files - {path};
      return Success(page);
    }

    method LoadFrontFile() returns (r: Result<Page<T>>)
      requires persistedFileNames != []
      modifies this`persistedFileNames, disk
      ensures persistedFileNames == old(persistedFileNames)[1..]
      ensures var path := old(persistedFileNames)[0];
              path in old(disk.files) && ReadPage(biCoder, old(disk.files)[path]).Some? ==>
                && r.Success? && fresh(r.value)
                && Some(r.value.items) == ReadPage(biCoder, old(disk.files)[path])
                && disk.files == old(disk.files) - {path}
      ensures var path := old(persistedFileNames)[0];
              path !in old(disk.files) ==> r == Failure(CouldNotLoadQueueFile(path)) && unchanged(disk)
    {
      var filename := persistedFileNames[0];
      persistedFileNames := persistedFileNames[1..];
      r := LoadFromFile(filename);
    }

    method LoadBackFile() returns (r: Result<Page<T>>)
      requires persistedFileNames != []
      modifies this`persistedFileNames, disk
      ensures persistedFileNames == old(persistedFileNames)[..|old(persistedFileNames)| - 1]
      ensures var path := old(persistedFileNames)[|old(persistedFileNames)| - 1];
              path in old(disk.files) && ReadPage(biCoder, old(disk.files)[path]).Some? ==>
                && r.Success? && fresh(r.value)
                && Some(r.value.items) == ReadPage(biCoder, old(disk.files)[path])
                && disk.files == old(disk.files) - {path}
      ensures var path := old(persistedFileNames)[|old(persistedFileNames)| - 1];
              path !in old(disk.files) ==> r == Failure(CouldNotLoadQueueFile(path)) && unchanged(disk)
    {
      var filename := persistedFileNames[|persistedFileNames| - 1];
      persistedFileNames := persistedFileNames[..|persistedFileNames| - 1];
      r := LoadFromFile(filename);
    }

    // ---------- starting ----------

    /** `load`, on a directory that holds the given pages. */
    method LoadPages(ghost pages: seq<StoredPage<T>>)
      requires Faithful(biCoder) && clock.Valid() && '\n' !in queueName
      requires Recoverable(disk.files, Cfg(), biCoder, pages) && OlderThan(pages, clock.now)
      requires persistedFileNames == [] && lastSeqNum == 0 && seqNumCount == 0
      modifies this`persistedFileNames, this`middle, this`firstPage, this`lastPage, disk
      ensures Valid()
      ensures Abs() == Machine(Load(pages), 0, 0, clock.now) && Items() == Flatten(pages)
      ensures disk.files == StartedFiles(old(disk.files), queueName, pages)
      ensures SameElsewhere(old(disk.files), disk.files, queueName)
      ensures ExactWithState(old(disk.files), queueName, Names(queueName, pages)) ==> Clean()
      ensures Full(Load(pages).middle, Cap(maxItemsPerPage)) ==> FullPages()
      ensures fresh(firstPage) && fresh(lastPage)
    {
      hide Inv, OnDisk, Faithful, SameElsewhere, Contents, Exact, ExactWithState, PagesOk, Ends, Increasing,
           OlderThan, Flatten;
      RecoverableParts(disk.files, Cfg(), biCoder, pages);
      LoadKeeps(pages, Cfg(), clock.now);
      StateFileUnlisted(disk.files, queueName, biCoder, pages);
      LoadPersistedFileNames(pages);
      var loaded := LoadFirstAndLastPage(pages);
      EndsElsewhere(old(disk.files), queueName, pages);
      if ExactWithState(old(disk.files), queueName, Names(queueName, pages)) {
        EndsExact(old(disk.files), queueName, pages);
      }
    }

    /** The page files that `pages` describes, if they do, become the queue; a listed file that is missing
        makes the load fail. */
    method LoadFirstAndLastPage(ghost pages: seq<StoredPage<T>>) returns (r: Result<()>)
      modifies this`persistedFileNames, this`middle, this`firstPage, this`lastPage, disk
      ensures var names, files := old(persistedFileNames), old(disk.files);
              && (names != [] && names[0] !in files ==> r == Failure(CouldNotLoadQueueFile(names[0])))
              && (|names| >= 2 && names[0] in files && ReadPage(biCoder, files[names[0]]).Some?
                  && names[|names| - 1] !in files - {names[0]}
                  ==> r == Failure(CouldNotLoadQueueFile(names[|names| - 1])))
      ensures old(Described(pages)) ==>
                && r == Success(())
                && ShapeNow() == Load(pages)
                && persistedFileNames == Names(queueName, middle) && OnDisk(disk.files, queueName, biCoder, middle)
                && disk.files == old(disk.files) - Ends(queueName, pages)
                && fresh(firstPage) && fresh(lastPage)
    {
      hide Faithful, Increasing, OnDisk, PageFile, Names, ReadPage, PageText, Contents, SameElsewhere;
      if old(Described(pages)) {
        LoadDescribed(disk.files, queueName, biCoder, pages, clock.width);
      }
      if |persistedFileNames| > 0 {
        if |persistedFileNames| == 1 {
          var loaded := LoadFrontFile();
          if loaded.Failure? { return Failure(loaded.error); }
          firstPage := loaded.value;
          lastPage := firstPage;
        } else {
          var loaded := LoadFrontFile();
          if loaded.Failure? { return Failure(loaded.error); }
          firstPage := loaded.value;
          loaded := LoadBackFile();
          if loaded.Failure? { return Failure(loaded.error); }
          lastPage := loaded.value;
        }
      } else {
        firstPage := new Page<T>([]);
        lastPage := firstPage;
      }
      middle := Load(pages).middle;
      return Success(());
    }

    /** The listed files hold the given pages. */
    ghost predicate Described(pages: seq<StoredPage<T>>)
      reads this`persistedFileNames, disk
    {
      && Faithful(biCoder) && Increasing(pages, clock.width)
      && persistedFileNames == Names(queueName, pages) && OnDisk(disk.files, queueName, biCoder, pages)
    }

    method LoadPersistedFileNames(ghost pages: seq<StoredPage<T>>)
      requires persistedFileNames == [] && '\n' !in queueName
      requires Recoverable(disk.files, Cfg(), biCoder, pages)
      modifies this`persistedFileNames, disk
      ensures persistedFileNames == Names(queueName, pages)
      ensures disk.files == old(disk.files) - {StateFile(queueName)}
    {
      var stateExists := StateFileExists();
      if stateExists {
        LoadStateFile();
        NamesAreLines(queueName, pages);
        RecordsOfUnlines(Names(queueName, pages));
      } else {
        LoadOrphanedQueueFiles();
        OrphansAreListed(disk.files, Cfg(), biCoder, pages, persistedFileNames);
        assert disk.files == old(disk.files) - {StateFile(queueName)};
      }
    }

    method StateFileExists() returns (b: bool)
      ensures b <==> StateFile(queueName) in disk.files
    {
      b := StateFile(queueName) in disk.files;
    }

    method LoadStateFile()
      requires StateFile(queueName) in disk.files
      modifies this`persistedFileNames, disk
      ensures persistedFileNames == old(persistedFileNames) + Records(old(disk.files)[StateFile(queueName)])
      ensures disk.files == old(disk.files) - {StateFile(queueName)}
    {
      var text := disk.files[StateFile(queueName)];
      var line := GetLine(text, 0);
      while !line.eof
        invariant line.next <= |text|
        invariant persistedFileNames + Pending(text, line)
                  == old(persistedFileNames) + Records(text) && unchanged(disk)
        decreases !line.eof, |text| - line.next
      {
        persistedFileNames := persistedFileNames + [line.record];
        line := GetLine(text, line.next);
      }
      disk.files := disk.files - {StateFile(queueName)};
    }

    /** All matching file names, sorted. */
    method LoadOrphanedQueueFiles()
      requires persistedFileNames == []
      modifies this`persistedFileNames
      ensures Ascending(persistedFileNames)
      ensures forall f :: f in persistedFileNames <==> f in disk.files && MatchesPattern(queueName, f)
      ensures forall f :: f in persistedFileNames <==> f in disk.files && HasDigits(queueName, f)
    {
      var v := disk.List();
      for i := 0 to |v|
        invariant Distinct(persistedFileNames)
        invariant forall f :: f in persistedFileNames <==> f in v[..i] && MatchesPattern(queueName, f)
      {
        if MatchesPattern(queueName, v[i]) {
          persistedFileNames := persistedFileNames + [v[i]];
        }
        assert v[..i + 1] == v[..i] + [v[i]];
      }
      assert v[..|v|] == v;
      NamesOfNames(persistedFileNames);
      SortAscending(Itself, persistedFileNames);
      persistedFileNames := Sort(Itself, persistedFileNames);
      NamesOfNames(persistedFileNames);
      forall f ensures MatchesPattern(queueName, f) <==> HasDigits(queueName, f) {
        MatchesPatternIff(queueName, f);
      }
    }

    // ---------- stopping ----------

    method WriteFirstAndLastPage()
      requires clock.Valid()
      modifies this`persistedFileNames, this`lastSeqNum, this`seqNumCount, disk, clock
      ensures clock.Valid() && old(clock.now) <= clock.now
      ensures var s, stamp := ShapeNow(), NextStamp(old(Abs()), clock.now);
              && persistedFileNames == (if s.first != [] then [PageFile(queueName, Zero)] else [])
                                       + old(persistedFileNames)
                                       + (if s.last.Some? then [PageFile(queueName, stamp)] else [])
              && disk.files == PageWrites(old(disk.files), queueName, biCoder, s, stamp, 2)
      ensures if lastPage != firstPage then At(lastSeqNum, seqNumCount) == NextStamp(old(Abs()), clock.now)
              else unchanged(`lastSeqNum, `seqNumCount, clock)
    {
      hide PageText, SeqString;
      ZeroFile(queueName);
      if |firstPage.items| > 0 { PersistToFile("0", firstPage); }
      if lastPage != firstPage {
        var seqNum := SeqNumber();
        OnlyZeroIsZero(lastSeqNum, seqNumCount);
        PersistToFile(seqNum, lastPage);
      }
    }

    method WriteStateFile()
      modifies this`persistedFileNames, disk
      ensures persistedFileNames == []
      ensures disk.files == if old(persistedFileNames) == [] then old(disk.files)
                            else old(disk.files)[StateFile(queueName) := Unlines(old(persistedFileNames))]
    {
      if |persistedFileNames| > 0 {
        ghost var names := persistedFileNames;
        ghost var done := 0;
        var text := "";
        while |persistedFileNames| > 0
          invariant done <= |names| && persistedFileNames == names[done..]
          invariant text == Unlines(names[..done]) && unchanged(disk)
          decreases |persistedFileNames|
        {
          UnlinesAppend(names[..done], persistedFileNames[0]);
          assert names[..done + 1] == names[..done] + [persistedFileNames[0]];
          text := text + persistedFileNames[0] + "\n";
          persistedFileNames := persistedFileNames[1..];
          done := done + 1;
        }
        assert names[..done] == names;
        disk.files := disk.files[StateFile(queueName) := text];
      }
    }

    // ---------- other queues ----------

    /** What a queue with another name does, to its own files and to the common clock, leaves this queue alone. */
    twostate lemma Undisturbed(other: string)
      requires old(Valid()) && unchanged(this) && unchanged(old(firstPage)) && unchanged(old(lastPage))
      requires clock.Valid() && old(clock.now) <= clock.now
      requires SameElsewhere(old(disk.files), disk.files, other) && other != queueName
      ensures Valid() && Items() == old(Items()) && (old(Clean()) ==> Clean())
    {
      hide Inv, OnDisk, Faithful, SameElsewhere, Exact, Contents;
      InvLater(old(Abs()), Cfg(), clock.now);
      OtherQueueUntouched(old(disk.files), disk.files, other, queueName, biCoder, middle, persistedFileNames);
    }

    lemma ItemsOfAbs()
      ensures Items() == Contents(Abs().shape) && Abs().shape == ShapeNow()
    {
    }

    lemma ClockIsValid()
      requires Valid()
      ensures clock.Valid()
    {
    }

    /** Somebody else's reading of the clock leaves the queue valid. */
    twostate lemma ClockRead()
      requires old(Valid()) && unchanged(this) && unchanged(old(firstPage)) && unchanged(old(lastPage)) && unchanged(disk)
      requires clock.Valid() && old(clock.now) <= clock.now
      ensures Valid() && Items() == old(Items()) && Clean() == old(Clean())
    {
      hide Inv, OnDisk, Faithful, Exact, Contents;
      InvLater(old(Abs()), Cfg(), clock.now);
    }
  }
}
