/** An array of persisted queues that share one directory, popped in the order of their levels. */
module PriorityQueues {
  import opened Wrappers
  import opened PageNames
  import opened Paging
  import opened Storage
  import opened PersistedQueues
  import PriorityLevels

  /** The queue name of a level, as `createQueues` composes it. */
  function LevelName(name: string, level: nat): string {
    name + "priority_" + Dec(level)
  }

  lemma LevelNamesDiffer(name: string, i: nat, j: nat)
    requires i != j
    ensures LevelName(name, i) != LevelName(name, j)
  {
    if LevelName(name, i) == LevelName(name, j) {
      assert Dec(i) == LevelName(name, i)[|name| + 9..] && Dec(j) == LevelName(name, j)[|name| + 9..];
      DecInjective(i, j);
    }
  }

  /** All files of a level. */
  lemma LevelOwns(name: string, level: nat, file: string)
    ensures Owned(LevelName(name, level), file)
            <==> || file == name + "priority_" + Dec(level) + "_STATE"
                 || exists n: nat, w: nat :: file == name + "priority_" + Dec(level) + "_" + Digits(n, w)
  {
    OwnedIff(LevelName(name, level), file);
  }

  lemma LevelNameIsLine(name: string, i: nat)
    requires '\n' !in name
    ensures '\n' !in LevelName(name, i)
  {
    assert forall c <- Dec(i) :: IsDigit(c);
  }

  /** The directory holds pages the level can start from. */
  ghost predicate CanStart<T>(files: Files, name: string, level: nat, maxItems: nat, width: nat, coder: BiCoder<T>,
                              pages: seq<StoredPage<T>>) {
    Recoverable(files, Setting(LevelName(name, level), maxItems, width), coder, pages)
  }

  lemma StartElsewhere<T>(a: Files, b: Files, name: string, i: nat, j: nat, maxItems: nat, width: nat,
                          coder: BiCoder<T>, pages: seq<StoredPage<T>>)
    requires SameElsewhere(a, b, LevelName(name, i)) && i != j
    requires CanStart(a, name, j, maxItems, width, coder, pages)
    ensures CanStart(b, name, j, maxItems, width, coder, pages)
  {
    LevelNamesDiffer(name, i, j);
    RecoverableElsewhere(a, b, LevelName(name, i), Setting(LevelName(name, j), maxItems, width), coder, pages);
  }

  /** Apart from a state file, the level has these files and no other. */
  ghost predicate LevelExact<T>(files: Files, name: string, level: nat, pages: seq<StoredPage<T>>) {
    ExactWithState(files, LevelName(name, level), Names(LevelName(name, level), pages))
  }

  ghost predicate AllExact<T>(files: Files, name: string, stored: seq<seq<StoredPage<T>>>) {
    forall i :: 0 <= i < |stored| ==> LevelExact(files, name, i, stored[i])
  }

  lemma ExactElsewhere<T>(a: Files, b: Files, name: string, i: nat, j: nat, coder: BiCoder<T>,
                          pages: seq<StoredPage<T>>)
    requires SameElsewhere(a, b, LevelName(name, i)) && i != j && LevelExact(a, name, j, pages)
    ensures LevelExact(b, name, j, pages)
  {
    hide LevelName, Owned;
    LevelNamesDiffer(name, i, j);
    OtherQueueUntouched(a, b, LevelName(name, i), LevelName(name, j), coder, pages, Names(LevelName(name, j), pages));
  }

  ghost predicate OwnedByLevel(name: string, levels: nat, file: string) {
    exists i :: 0 <= i < levels && Owned(LevelName(name, i), file)
  }

  /** Nothing but the files of the levels differs. */
  ghost predicate SameOutside(a: Files, b: Files, name: string, levels: nat) {
    forall f :: !OwnedByLevel(name, levels, f) ==> (f in a <==> f in b) && (f in a && f in b ==> a[f] == b[f])
  }

  lemma LevelIsInside(a: Files, b: Files, name: string, k: nat, levels: nat)
    requires SameElsewhere(a, b, LevelName(name, k)) && k < levels
    ensures SameOutside(a, b, name, levels)
  {
    hide LevelName, Owned;
    forall f | !OwnedByLevel(name, levels, f) ensures !Owned(LevelName(name, k), f) {
    }
  }

  lemma SameOutsideReflexive(a: Files, name: string, levels: nat)
    ensures SameOutside(a, a, name, levels)
  {
  }

  lemma SameOutsideTransitive(a: Files, b: Files, c: Files, name: string, levels: nat)
    requires SameOutside(a, b, name, levels) && SameOutside(b, c, name, levels)
    ensures SameOutside(a, c, name, levels)
  {
    hide OwnedByLevel;
  }

  /** A queue that is none of the levels keeps its files, and can start from the same ones as before. */
  lemma OutsideUntouched<T>(a: Files, b: Files, name: string, levels: nat, cfg: Setting, coder: BiCoder<T>,
                            pages: seq<StoredPage<T>>, names: seq<string>)
    requires SameOutside(a, b, name, levels) && forall i :: 0 <= i < levels ==> LevelName(name, i) != cfg.queue
    ensures Exact(a, cfg.queue, names) ==> Exact(b, cfg.queue, names)
    ensures ExactWithState(a, cfg.queue, names) ==> ExactWithState(b, cfg.queue, names)
    ensures OnDisk(a, cfg.queue, coder, pages) ==> OnDisk(b, cfg.queue, coder, pages)
    ensures Recoverable(a, cfg, coder, pages) ==> Recoverable(b, cfg, coder, pages)
  {
    forall f | Owned(cfg.queue, f) ensures !OwnedByLevel(name, levels, f) {
      if i :| 0 <= i < levels && Owned(LevelName(name, i), f) { NameIsolation(LevelName(name, i), cfg.queue, f); }
    }
    forall i | 0 <= i < |pages| ensures Owned(cfg.queue, PageFile(cfg.queue, pages[i].stamp)) {
      PageFileOwned(cfg.queue, pages[i].stamp);
    }
    hide LevelName, MatchesPattern, PageFile, PagesOk, CountsInOrder, OwnedByLevel;
    assert Owned(cfg.queue, StateFile(cfg.queue));
    forall f | MatchesPattern(cfg.queue, f) ensures Owned(cfg.queue, f) {
    }
  }

  /** After its shutdown: the level can start again, later than the given second, and has no other files. */
  ghost predicate Settled<T>(files: Files, name: string, level: nat, maxItems: nat, width: nat, coder: BiCoder<T>,
                             pages: seq<StoredPage<T>>, second: nat) {
    && CanStart(files, name, level, maxItems, width, coder, pages)
    && OlderThan(pages, second + 1)
    && LevelExact(files, name, level, pages)
  }

  ghost predicate AllSettled<T>(files: Files, name: string, maxItems: nat, width: nat, coder: BiCoder<T>,
                                stored: seq<seq<StoredPage<T>>>, second: nat) {
    forall j :: 0 <= j < |stored| ==> Settled(files, name, j, maxItems, width, coder, stored[j], second)
  }

  /** The next level settles, and the others stay settled. */
  lemma OneMoreSettled<T>(a: Files, b: Files, name: string, maxItems: nat, width: nat, coder: BiCoder<T>,
                          stored: seq<seq<StoredPage<T>>>, pages: seq<StoredPage<T>>, second: nat, later: nat)
    requires SameElsewhere(a, b, LevelName(name, |stored|)) && second <= later
    requires AllSettled(a, name, maxItems, width, coder, stored, second)
    requires Settled(b, name, |stored|, maxItems, width, coder, pages, later)
    ensures AllSettled(b, name, maxItems, width, coder, stored + [pages], later)
  {
    hide CanStart, OlderThan, LevelExact, SameElsewhere, LevelName;
    forall j | 0 <= j < |stored| ensures Settled(b, name, j, maxItems, width, coder, stored[j], later) {
      StartElsewhere(a, b, name, |stored|, j, maxItems, width, coder, stored[j]);
      ExactElsewhere(a, b, name, |stored|, j, coder, stored[j]);
      OlderThanLater(stored[j], second + 1, later + 1);
    }
  }

  lemma SettledParts<T>(files: Files, name: string, maxItems: nat, width: nat, coder: BiCoder<T>,
                        stored: seq<seq<StoredPage<T>>>, second: nat)
    requires AllSettled(files, name, maxItems, width, coder, stored, second)
    ensures AllExact(files, name, stored)
    ensures forall i :: 0 <= i < |stored| ==>
              CanStart(files, name, i, maxItems, width, coder, stored[i]) && OlderThan(stored[i], second + 1)
  {
    hide CanStart, OlderThan, LevelExact;
  }

  function FlattenAll<T>(pages: seq<seq<StoredPage<T>>>): (levels: seq<seq<T>>)
    ensures |levels| == |pages|
    ensures forall i :: 0 <= i < |pages| ==> levels[i] == Flatten(pages[i])
  {
    seq(|pages|, i requires 0 <= i < |pages| => Flatten(pages[i]))
  }

  class PriorityQueue<T(!new)> {
    const name: string
    const levels: nat
    const maxPageSize: nat
    const disk: Disk
    const clock: Clock
    const biCoder: BiCoder<T>

    var lastPopLevel: int
    var lastPopedObject: Option<T>
    var queues: seq<PersistedQueue<T>>

    /** The sequence of each level, the page objects of all levels, and whether `shutdown` has been called. */
    ghost var contents: seq<seq<T>>
    ghost var pages: set<Page<T>>
    ghost var down: bool

    ghost predicate LevelOk(i: nat)
      requires i < |queues| && |contents| == |queues|
      reads this`queues, this`contents, this`pages, queues, pages, disk, clock
    {
      var q := queues[i];
      && q.queueName == LevelName(name, i)
      && q.maxItemsPerPage == maxPageSize && q.disk == disk && q.clock == clock && q.biCoder == biCoder
      && q.firstPage in pages && q.lastPage in pages
      && q.Valid() && q.Items() == contents[i]
    }

    ghost predicate Apart(i: nat, j: nat)
      requires i < |queues| && j < |queues|
      reads this`queues, queues
    {
      && queues[i] != queues[j]
      && queues[i].firstPage != queues[j].firstPage && queues[i].firstPage != queues[j].lastPage
      && queues[i].lastPage != queues[j].firstPage && queues[i].lastPage != queues[j].lastPage
    }

    /** The queues built so far: each on its own level's name, no object shared. */
    ghost predicate Built()
      reads this`queues, this`contents, this`pages, queues, pages, disk, clock
    {
      && clock.Valid()
      && |contents| == |queues|
      && (forall i :: 0 <= i < |queues| ==> LevelOk(i))
      && (forall i, j :: 0 <= i < |queues| && 0 <= j < |queues| && i != j ==> Apart(i, j))
    }

    ghost predicate AllShutDown(b: bool)
      reads this`queues, queues
    {
      forall i :: 0 <= i < |queues| ==> queues[i].shutDown == b
    }

    ghost predicate Valid()
      reads this, queues, pages, disk, clock
    {
      && Built() && AllShutDown(down)
      && levels >= 1 && |queues| == |contents| == levels
      && lastPopLevel < levels
      && (lastPopLevel >= 0 && !down ==> lastPopedObject.Some?)
    }

    /** Every level's files are exactly the listed ones. */
    ghost predicate AllClean()
      reads this`queues, queues, disk
    {
      forall i :: 0 <= i < |queues| ==> queues[i].disk == disk && queues[i].Clean()
    }

    ghost function State(): PriorityLevels.State<T>
      reads this
    {
      PriorityLevels.State(contents, if lastPopLevel < 0 then None else Some(lastPopLevel), lastPopedObject)
    }

    constructor (name: string, disk: Disk, levels: nat, maxPageSize: nat, clock: Clock, biCoder: BiCoder<T>,
                 ghost stored: seq<seq<StoredPage<T>>>)
      requires levels >= 1 && |stored| == levels
      requires Faithful(biCoder) && clock.Valid() && '\n' !in name
      requires forall i :: 0 <= i < levels ==> CanStart(disk.files, name, i, maxPageSize, clock.width, biCoder, stored[i])
      requires forall i :: 0 <= i < levels ==> OlderThan(stored[i], clock.now)
      modifies disk
      ensures this.name == name && this.disk == disk && this.levels == levels && this.maxPageSize == maxPageSize
      ensures this.clock == clock && this.biCoder == biCoder
      ensures Valid() && !down
      ensures State() == PriorityLevels.State(FlattenAll(stored), None, None)
      ensures AllExact(old(disk.files), name, stored) ==> AllClean()
      ensures SameOutside(old(disk.files), disk.files, name, levels)
      ensures fresh(queues) && fresh(pages)
    {
      hide Faithful, OlderThan, CanStart, LevelOk, Apart, LevelExact, AllClean, Built;
      this.name, this.disk, this.levels, this.maxPageSize := name, disk, levels, maxPageSize;
      this.clock, this.biCoder := clock, biCoder;
      lastPopLevel, lastPopedObject, queues := -1, None, [];
      contents, pages, down := [], {}, false;
      new;
      CreateQueues(stored);
    }

    method CreateQueues(ghost stored: seq<seq<StoredPage<T>>>)
      requires queues == [] && contents == [] && pages == {} && |stored| == levels
      requires Faithful(biCoder) && clock.Valid() && '\n' !in name
      requires forall i :: 0 <= i < levels ==> CanStart(disk.files, name, i, maxPageSize, clock.width, biCoder, stored[i])
      requires forall i :: 0 <= i < levels ==> OlderThan(stored[i], clock.now)
      modifies this`queues, this`contents, this`pages, disk
      ensures Built() && |queues| == levels && AllShutDown(false)
      ensures contents == FlattenAll(stored)
      ensures AllExact(old(disk.files), name, stored) ==> AllClean()
      ensures SameOutside(old(disk.files), disk.files, name, levels)
      ensures fresh(queues) && fresh(pages)
    {
      hide Faithful, SameElsewhere, OlderThan, CanStart, Flatten, LevelOk, Apart, LevelExact, SameOutside;
      SameOutsideReflexive(disk.files, name, levels);
      for i := 0 to levels
        invariant |queues| == i && Built() && AllShutDown(false)
        invariant fresh(queues) && fresh(pages)
        invariant SameOutside(old(disk.files), disk.files, name, levels)
        invariant forall j :: 0 <= j < i ==> contents[j] == Flatten(stored[j])
        invariant forall j :: i <= j < levels ==>
                    CanStart(disk.files, name, j, maxPageSize, clock.width, biCoder, stored[j])
        invariant AllExact(old(disk.files), name, stored) ==>
                AllClean() && forall j :: i <= j < levels ==> LevelExact(disk.files, name, j, stored[j])
      {
        ghost var files := disk.files;
        CreateQueue(stored[i]);
        LevelIsInside(files, disk.files, name, i, levels);
        SameOutsideTransitive(old(disk.files), files, disk.files, name, levels);
        forall j | i < j < levels && LevelExact(files, name, j, stored[j])
          ensures LevelExact(disk.files, name, j, stored[j])
        {
          ExactElsewhere(files, disk.files, name, i, j, biCoder, stored[j]);
        }
        forall j | i < j < levels ensures CanStart(disk.files, name, j, maxPageSize, clock.width, biCoder, stored[j]) {
          StartElsewhere(files, disk.files, name, i, j, maxPageSize, clock.width, biCoder, stored[j]);
        }
      }
    }

    /** One round of the loop of `createQueues`. */
    method CreateQueue(ghost stored: seq<StoredPage<T>>)
      requires Built() && AllShutDown(false) && Faithful(biCoder) && clock.Valid() && '\n' !in name
      requires CanStart(disk.files, name, |queues|, maxPageSize, clock.width, biCoder, stored)
      requires OlderThan(stored, clock.now)
      modifies this`queues, this`contents, this`pages, disk
      ensures |queues| == |old(queues)| + 1 && queues[..|old(queues)|] == old(queues)
      ensures Built() && AllShutDown(false) && contents == old(contents) + [Flatten(stored)]
      ensures fresh(queues[|old(queues)|]) && fresh(pages - old(pages))
      ensures SameElsewhere(old(disk.files), disk.files, LevelName(name, |old(queues)|))
      ensures old(AllClean()) && LevelExact(old(disk.files), name, |old(queues)|, stored) ==> AllClean()
    {
      hide Inv, OnDisk, Faithful, SameElsewhere, Exact, Contents, ExactWithState, Recoverable, OlderThan, StartedFiles,
           LevelName, PersistedQueue.Valid, PersistedQueue.Items, PersistedQueue.Clean, PersistedQueue.Abs,
           PersistedQueue.ShapeNow, PersistedQueue.FullPages, Apart, AllClean, Flatten, Load, Full;
      LevelNameIsLine(name, |queues|);
      var q := new PersistedQueue<T>(LevelName(name, |queues|), disk, maxPageSize, clock, biCoder, stored);
      queues := queues + [q];
      contents := contents + [Flatten(stored)];
      pages := pages + {q.firstPage, q.lastPage};
      AddedLevel(q);
    }

    twostate lemma AddedLevel(new q: PersistedQueue<T>)
      requires old(Built()) && queues == old(queues) + [q] && fresh(q) && fresh(q.firstPage) && fresh(q.lastPage)
      requires contents == old(contents) + [q.Items()] && pages == old(pages) + {q.firstPage, q.lastPage}
      requires forall i :: 0 <= i < |old(queues)| ==>
                 unchanged(old(queues)[i]) && unchanged(old(queues[i].firstPage)) && unchanged(old(queues[i].lastPage))
      requires LevelOk(|old(queues)|)
      requires clock.Valid() && old(clock.now) <= clock.now
      requires SameElsewhere(old(disk.files), disk.files, LevelName(name, |old(queues)|))
      ensures Built()
      ensures old(AllClean()) && q.Clean() ==> AllClean()
    {
      hide Inv, OnDisk, Faithful, SameElsewhere, Exact, Contents, LevelName,
           PersistedQueue.Valid, PersistedQueue.Items, PersistedQueue.Clean;
      var i := |old(queues)|;
      forall j | 0 <= j < i ensures LevelOk(j) && (old(queues[j].Clean()) ==> queues[j].Clean()) {
        assert old(LevelOk(j));
        LevelNamesDiffer(name, i, j);
        queues[j].Undisturbed(LevelName(name, i));
      }
      forall j, k | 0 <= j <= i && 0 <= k <= i && j != k ensures Apart(j, k) {
        if j < i && k < i { assert old(Apart(j, k)); }
        if j < i { assert old(LevelOk(j)); }
        if k < i { assert old(LevelOk(k)); }
      }
    }

    /** What one level does leaves all other levels as they were. */
    twostate lemma OnlyLevel(k: nat)
      requires old(Built()) && k < |queues| && queues == old(queues)
      requires forall i :: 0 <= i < |queues| && i != k ==>
                 unchanged(queues[i]) && unchanged(old(queues[i].firstPage)) && unchanged(old(queues[i].lastPage))
      requires fresh({queues[k].firstPage, queues[k].lastPage} - {old(queues[k].firstPage), old(queues[k].lastPage)})
      requires queues[k].Valid() && contents == old(contents)[k := queues[k].Items()]
      requires pages == old(pages) + {queues[k].firstPage, queues[k].lastPage}
      requires clock.Valid() && old(clock.now) <= clock.now
      requires SameElsewhere(old(disk.files), disk.files, LevelName(name, k))
      ensures Built()
      ensures old(AllClean()) && queues[k].Clean() ==> AllClean()
      ensures forall i :: 0 <= i < |queues| && i != k ==> (old(queues[i].Clean()) ==> queues[i].Clean())
    {
      hide Inv, OnDisk, Faithful, SameElsewhere, Exact, Contents, LevelName, PersistedQueue.Valid,
           PersistedQueue.Items, PersistedQueue.Clean, PersistedQueue.Abs, PersistedQueue.ShapeNow;
      assert old(LevelOk(k));
      forall i | 0 <= i < |queues| && i != k
        ensures LevelOk(i) && (old(queues[i].Clean()) ==> queues[i].Clean())
      {
        assert old(LevelOk(i));
        LevelNamesDiffer(name, i, k);
        queues[i].Undisturbed(LevelName(name, k));
      }
      forall i, j | 0 <= i < |queues| && 0 <= j < |queues| && i != j ensures Apart(i, j) {
        assert old(Apart(i, j));
        assert old(LevelOk(i)) && old(LevelOk(j));
      }
    }

    // ---------- operations ----------

    method Push(p: T, priority: nat) returns (r: Result<()>)
      requires Valid()
      modifies this`contents, this`pages, queues, pages, disk, clock
      ensures Valid() && fresh(pages - old(pages)) && (old(AllClean()) ==> AllClean())
      ensures SameOutside(old(disk.files), disk.files, name, levels)
      ensures down ==> r == Failure(QueueShutDown) && State() == old(State())
      ensures !down ==> r == Success(()) && State() == PriorityLevels.Push(old(State()), p, priority)
    {
      var level := priority;
      if level >= levels {
        level := levels - 1;
      }
      r := PushTo(level, p);
      LevelIsInside(old(disk.files), disk.files, name, level, levels);
    }

    method PushTo(k: nat, p: T) returns (r: Result<()>)
      requires Built() && k < |queues|
      modifies this`contents, this`pages, queues, pages, disk, clock
      ensures Built() && fresh(pages - old(pages)) && (old(AllClean()) ==> AllClean())
      ensures SameElsewhere(old(disk.files), disk.files, LevelName(name, k))
      ensures forall i :: 0 <= i < |queues| ==> queues[i].shutDown == old(queues[i].shutDown)
      ensures if queues[k].shutDown then r == Failure(QueueShutDown) && contents == old(contents)
              else r == Success(()) && contents == old(contents)[k := old(contents)[k] + [p]]
    {
      hide Inv, OnDisk, Faithful, SameElsewhere, Exact, Contents, LevelName, PersistedQueue.Valid,
           PersistedQueue.Items, PersistedQueue.Clean, PersistedQueue.Abs, PersistedQueue.ShapeNow;
      assert LevelOk(k);
      r := queues[k].PushBack(p);
      forall i | 0 <= i < |queues| && i != k
        ensures unchanged(queues[i]) && unchanged(old(queues[i].firstPage)) && unchanged(old(queues[i].lastPage))
      {
        assert old(Apart(i, k));
      }
      contents := contents[k := queues[k].Items()];
      pages := pages + {queues[k].firstPage, queues[k].lastPage};
      OnlyLevel(k);
    }

    /** Takes the head of the first level that has one. */
    method Pop() returns (r: Result<Option<T>>)
      requires Valid() && PriorityLevels.FirstLevel(contents) < levels
      modifies this`lastPopLevel, this`lastPopedObject, this`contents, this`pages, queues, pages, disk
      ensures Valid() && fresh(pages - old(pages)) && (old(AllClean()) ==> AllClean())
      ensures SameOutside(old(disk.files), disk.files, name, levels)
      ensures lastPopLevel == PriorityLevels.FirstLevel(old(contents))
      ensures down ==> r == Failure(QueueShutDown) && contents == old(contents) && lastPopedObject == old(lastPopedObject)
      ensures !down ==> r == Success(lastPopedObject) && State() == PriorityLevels.Pop(old(State()))
    {
      hide Built, AllClean, LevelOk, Apart, PriorityLevels.Concat, SameOutside, SameElsewhere;
      var i := 0;
      while i < levels && LevelEmpty(i)
        invariant i <= levels && forall j :: 0 <= j < i ==> contents[j] == []
      {
        i := i + 1;
      }
      lastPopLevel := i;
      var popped := PopFrom(i);
      LevelIsInside(old(disk.files), disk.files, name, i, levels);
      if popped.Failure? { return popped; }
      lastPopedObject := popped.value;
      return Success(lastPopedObject);
    }

    method PopFrom(k: nat) returns (r: Result<Option<T>>)
      requires Built() && k < |queues| && contents[k] != []
      modifies this`contents, this`pages, queues, pages, disk
      ensures Built() && fresh(pages - old(pages)) && (old(AllClean()) ==> AllClean())
      ensures SameElsewhere(old(disk.files), disk.files, LevelName(name, k))
      ensures forall i :: 0 <= i < |queues| ==> queues[i].shutDown == old(queues[i].shutDown)
      ensures if queues[k].shutDown then r == Failure(QueueShutDown) && contents == old(contents)
              else r == Success(Some(old(contents)[k][0])) && contents == old(contents)[k := old(contents)[k][1..]]
    {
      hide Inv, OnDisk, Faithful, SameElsewhere, Exact, Contents, LevelName, NoFiles, PersistedQueue.Valid,
           PersistedQueue.Items, PersistedQueue.Clean, PersistedQueue.Abs, PersistedQueue.ShapeNow;
      assert LevelOk(k);
      r := queues[k].PopFront();
      forall j | 0 <= j < |queues| && j != k
        ensures unchanged(queues[j]) && unchanged(old(queues[j].firstPage)) && unchanged(old(queues[j].lastPage))
      {
        assert old(Apart(j, k));
      }
      contents := contents[k := queues[k].Items()];
      pages := pages + {queues[k].firstPage, queues[k].lastPage};
      OnlyLevel(k);
    }

    predicate LevelEmpty(i: nat)
      requires Valid() && i < levels
      reads this, queues, pages, disk, clock
      ensures LevelEmpty(i) <==> contents[i] == []
    {
      assert LevelOk(i);
      queues[i].Empty()
    }

    /** Without a level to go back to, nothing happens; a null object meets a queue that has been shut down. */
    method PushBackLastPop() returns (r: Result<()>)
      requires Valid()
      modifies this`lastPopLevel, this`lastPopedObject, this`contents, this`pages, queues, pages, disk, clock
      ensures Valid() && fresh(pages - old(pages)) && (old(AllClean()) ==> AllClean())
      ensures SameOutside(old(disk.files), disk.files, name, levels)
      ensures down ==> State() == old(State()) && (r == Failure(QueueShutDown) <==> lastPopLevel >= 0)
      ensures !down ==> PriorityLevels.StateOk(old(State()))
      ensures !down ==> r == Success(()) && State() == PriorityLevels.PushBackLastPop(old(State()))
      ensures !down && old(lastPopLevel) >= 0 ==> lastPopLevel == -1 && lastPopedObject == None
      ensures old(lastPopLevel) < 0 ==> lastPopLevel == old(lastPopLevel) && lastPopedObject == old(lastPopedObject)
    {
      hide Built, AllClean, LevelOk, Apart, SameOutside, SameElsewhere;
      SameOutsideReflexive(disk.files, name, levels);
      if lastPopLevel < 0 { return Success(()); }
      if lastPopedObject.None? { return Failure(QueueShutDown); }
      r := PushTo(lastPopLevel, lastPopedObject.value);
      LevelIsInside(old(disk.files), disk.files, name, lastPopLevel, levels);
      if r.Failure? { return r; }
      lastPopLevel := -1;
      lastPopedObject := None;
    }

    method Empty() returns (b: bool)
      requires Valid()
      ensures b <==> PriorityLevels.Concat(contents) == []
    {
      hide Built, LevelOk, Apart;
      PriorityLevels.PopTakesHead(contents);
      var i := 0;
      while i < levels && LevelEmpty(i)
        invariant i <= levels && forall j :: 0 <= j < i ==> contents[j] == []
      {
        i := i + 1;
      }
      b := i == levels;
    }

    method Clear(k: nat) returns (r: Result<()>)
      requires Built() && k < |queues|
      modifies this`contents, this`pages, queues, pages, disk
      ensures Built() && fresh(pages - old(pages)) && (old(AllClean()) ==> AllClean())
      ensures SameElsewhere(old(disk.files), disk.files, LevelName(name, k))
      ensures forall i :: 0 <= i < |queues| ==> queues[i].shutDown == old(queues[i].shutDown)
      ensures r == if queues[k].shutDown && old(contents)[k] != [] then Failure(QueueShutDown) else Success(())
      ensures contents == if queues[k].shutDown then old(contents) else old(contents)[k := []]
      ensures !queues[k].shutDown && old(queues[k].Clean()) ==> NoFiles(disk.files, LevelName(name, k))
    {
      hide Inv, OnDisk, Faithful, SameElsewhere, Exact, Contents, LevelName, NoFiles, PersistedQueue.Valid,
           PersistedQueue.Items, PersistedQueue.Clean, PersistedQueue.Abs, PersistedQueue.ShapeNow;
      assert LevelOk(k);
      r := queues[k].Clear();
      forall j | 0 <= j < |queues| && j != k
        ensures unchanged(queues[j]) && unchanged(old(queues[j].firstPage)) && unchanged(old(queues[j].lastPage))
      {
        assert old(Apart(j, k));
      }
      contents := contents[k := queues[k].Items()];
      pages := pages + {queues[k].firstPage, queues[k].lastPage};
      OnlyLevel(k);
    }

    method ClearAll() returns (r: Result<()>)
      requires Valid()
      modifies this`contents, this`pages, queues, pages, disk
      ensures Valid() && fresh(pages - old(pages)) && (old(AllClean()) ==> AllClean())
      ensures SameOutside(old(disk.files), disk.files, name, levels)
      ensures !down ==> r == Success(()) && forall i :: 0 <= i < levels ==> contents[i] == []
      ensures !down && old(AllClean()) ==> forall i :: 0 <= i < levels ==> NoFiles(disk.files, LevelName(name, i))
      ensures down ==> contents == old(contents)
      ensures down ==> r == if PriorityLevels.Concat(contents) == [] then Success(()) else Failure(QueueShutDown)
    {
      hide Built, AllClean, LevelOk, Apart, NoFiles, LevelName, PriorityLevels.Concat, SameOutside, SameElsewhere;
      PriorityLevels.PopTakesHead(contents);
      SameOutsideReflexive(disk.files, name, levels);
      for i := 0 to levels
        invariant SameOutside(old(disk.files), disk.files, name, levels)
        invariant Valid() && fresh(pages - old(pages)) && (old(AllClean()) ==> AllClean())
        invariant |contents| == levels
        invariant down ==> contents == old(contents)
        invariant forall j :: 0 <= j < i ==> contents[j] == []
      {
        ghost var files := disk.files;
        var cleared := Clear(i);
        LevelIsInside(files, disk.files, name, i, levels);
        SameOutsideTransitive(old(disk.files), files, disk.files, name, levels);
        if cleared.Failure? { return cleared; }
      }
      forall i | 0 <= i < levels && AllClean() ensures NoFiles(disk.files, LevelName(name, i)) {
        EmptyHasNoFiles(i);
      }
      return Success(());
    }

    lemma EmptyHasNoFiles(i: nat)
      requires Built() && AllClean() && i < |queues| && contents[i] == []
      ensures NoFiles(disk.files, LevelName(name, i))
    {
      hide LevelName, Owned;
      assert LevelOk(i);
      EmptyIsOnePage(queues[i].Abs(), queues[i].Cfg());
    }

    // ---------- stopping ----------

    /** Shuts every level down. The levels stay in memory, so a second call writes what is left of them. */
    method Shutdown() returns (ghost stored: seq<seq<StoredPage<T>>>)
      requires Valid()
      modifies this`contents, this`down, queues, disk, clock
      ensures Valid() && down && |stored| == levels
      ensures FlattenAll(stored) == old(contents)
      ensures SameOutside(old(disk.files), disk.files, name, levels)
      ensures old(AllClean()) ==>
                forall i :: 0 <= i < levels ==>
                  && CanStart(disk.files, name, i, maxPageSize, clock.width, biCoder, stored[i])
                  && OlderThan(stored[i], clock.now + 1)
      ensures old(AllClean()) ==> AllExact(disk.files, name, stored)
      ensures forall i :: 0 <= i < levels ==> contents[i] == Contents(old(queues[i].ShapeNow()).(middle := []))
    {
      hide Built, LevelOk, Apart, CanStart, LevelExact, AllExact, OlderThan, FlattenAll, Contents, PersistedQueue.ShapeNow,
           SameOutside;
      stored := ShutdownLevels();
      down := true;
    }

    method ShutdownLevels() returns (ghost stored: seq<seq<StoredPage<T>>>)
      requires Built() && |queues| == |contents| == levels
      modifies this`contents, queues, disk, clock
      ensures Built() && |stored| == |contents| == levels && AllShutDown(true)
      ensures FlattenAll(stored) == old(contents)
      ensures SameOutside(old(disk.files), disk.files, name, levels)
      ensures old(AllClean()) ==>
                forall i :: 0 <= i < levels ==>
                  && CanStart(disk.files, name, i, maxPageSize, clock.width, biCoder, stored[i])
                  && OlderThan(stored[i], clock.now + 1)
      ensures old(AllClean()) ==> AllExact(disk.files, name, stored)
      ensures forall i :: 0 <= i < levels ==> contents[i] == Contents(old(queues[i].ShapeNow()).(middle := []))
    {
      hide Built, LevelOk, Apart, Settled, AllExact, FlattenAll, CanStart, LevelExact, OlderThan, Flatten, Contents,
           PersistedQueue.ShapeNow,
           PersistedQueue.Clean, SameElsewhere, SameOutside;
      SameOutsideReflexive(disk.files, name, levels);
      stored := [];
      for i := 0 to levels
        invariant Built() && |stored| == i && |contents| == levels
        invariant SameOutside(old(disk.files), disk.files, name, levels)
        invariant forall j :: 0 <= j < i ==> queues[j].shutDown && Flatten(stored[j]) == old(contents)[j]
        invariant forall j :: 0 <= j < i ==> contents[j] == Contents(old(queues[j].ShapeNow()).(middle := []))
        invariant forall j :: i <= j < levels ==> queues[j].ShapeNow() == old(queues[j].ShapeNow())
        invariant forall j :: i <= j < levels ==> contents[j] == old(contents)[j]
        invariant old(AllClean()) ==> forall j :: i <= j < levels ==> queues[j].Clean()
        invariant old(AllClean()) ==>
                AllSettled(disk.files, name, maxPageSize, clock.width, biCoder, stored, clock.now)
      {
        ghost var files, before := disk.files, clock.now;
        ghost var written := ShutdownLevel(i);
        LevelIsInside(files, disk.files, name, i, levels);
        SameOutsideTransitive(old(disk.files), files, disk.files, name, levels);
        if old(AllClean()) {
          OneMoreSettled(files, disk.files, name, maxPageSize, clock.width, biCoder, stored, written, before, clock.now);
        }
        stored := stored + [written];
      }
      if old(AllClean()) {
        SettledParts(disk.files, name, maxPageSize, clock.width, biCoder, stored, clock.now);
      }
    }

    method ShutdownLevel(k: nat) returns (ghost written: seq<StoredPage<T>>)
      requires Built() && k < |queues|
      modifies this`contents, queues[k], disk, clock
      ensures Built() && queues[k].shutDown && old(clock.now) <= clock.now
      ensures |contents| == |old(contents)| && forall i :: 0 <= i < |queues| && i != k ==> contents[i] == old(contents)[i]
      ensures Flatten(written) == old(contents)[k]
      ensures forall i :: 0 <= i < |queues| && i != k ==>
                queues[i].shutDown == old(queues[i].shutDown) && (old(queues[i].Clean()) ==> queues[i].Clean())
      ensures old(queues[k].Clean()) ==>
                Settled(disk.files, name, k, maxPageSize, clock.width, biCoder, written, clock.now)
      ensures contents[k] == Contents(old(queues[k].ShapeNow()).(middle := []))
      ensures forall i :: 0 <= i < |queues| && i != k ==> queues[i].ShapeNow() == old(queues[i].ShapeNow())
      ensures SameElsewhere(old(disk.files), disk.files, LevelName(name, k))
    {
      hide Inv, OnDisk, Faithful, SameElsewhere, Exact, Contents, LevelName, NoFiles, PersistedQueue.Valid,
           PersistedQueue.Items, PersistedQueue.Clean, Recoverable, OlderThan, Flatten, ShutdownFiles, ExactWithState,
           ShutdownPages,
           PersistedQueue.ShapeNow;
      assert LevelOk(k);
      queues[k].ItemsOfAbs();
      ghost var m := queues[k].Abs();
      queues[k].Shutdown();
      queues[k].ItemsOfAbs();
      written := ShutdownPages(m.shape, NextStamp(m, clock.now));
      forall j | 0 <= j < |queues| && j != k
        ensures unchanged(queues[j]) && unchanged(old(queues[j].firstPage)) && unchanged(old(queues[j].lastPage))
      {
        assert old(Apart(j, k));
      }
      contents := contents[k := queues[k].Items()];
      OnlyLevel(k);
    }
  }
}
