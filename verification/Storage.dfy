/** The working directory: page texts, which files a queue can start from, and what the writes of a
    shutdown leave behind. */
module Storage {
  import opened Wrappers
  import opened LineText
  import Base64
  import opened NameOrder
  import opened PageNames
  import opened Paging

  /** The regular files of the working directory, by file name. */
  type Files = map<string, string>

  /** A bicoder: base64 around a payload format. */
  datatype BiCoder<!T> = BiCoder(serialize: T -> seq<Base64.Byte>, parse: seq<Base64.Byte> -> T) {

    function Encode(x: T): string {
      Base64.Rfc4648(serialize(x))
    }

    function Decode(record: string): Option<T> {
      match Base64.Decode(record)
      case None => None
      case Some(bytes) => Some(parse(bytes))
    }
  }

  /** What a bicoder must be: a payload format that reads back what it writes, and writes something. */
  ghost predicate Faithful<T(!new)>(coder: BiCoder<T>) {
    forall x: T :: coder.serialize(x) != [] && coder.parse(coder.serialize(x)) == x
  }

  lemma CoderRoundTrip<T(!new)>(coder: BiCoder<T>, x: T)
    requires Faithful(coder)
    ensures coder.Decode(coder.Encode(x)) == Some(x) && '\n' !in coder.Encode(x)
  {
    Base64.DecodeEncode(coder.serialize(x));
    Base64.EncodedAlphabet(coder.serialize(x));
  }

  // ---------- page files ----------

  function Lines<T>(coder: BiCoder<T>, items: seq<T>): (lines: seq<string>)
    ensures |lines| == |items|
    ensures forall i :: 0 <= i < |items| ==> lines[i] == coder.Encode(items[i])
  {
    seq(|items|, i requires 0 <= i < |items| => coder.Encode(items[i]))
  }

  function PageText<T>(coder: BiCoder<T>, items: seq<T>): string {
    Unlines(Lines(coder, items))
  }

  /** The items of a list of records, unless one of them cannot be decoded. */
  function ReadItems<T>(coder: BiCoder<T>, records: seq<string>): Option<seq<T>> {
    if records == [] then Some([]) else
    match (ReadItems(coder, records[..|records| - 1]), coder.Decode(records[|records| - 1]))
    case (Some(items), Some(x)) => Some(items + [x])
    case _ => None
  }

  function ReadPage<T>(coder: BiCoder<T>, text: string): Option<seq<T>> {
    ReadItems(coder, Records(text))
  }

  lemma {:induction false} ReadItemsOfLines<T(!new)>(coder: BiCoder<T>, items: seq<T>)
    requires Faithful(coder)
    ensures ReadItems(coder, Lines(coder, items)) == Some(items)
  {
    hide Base64.Decode, Base64.Rfc4648;
    if items != [] {
      var n := |items| - 1;
      ReadItemsOfLines(coder, items[..n]);
      CoderRoundTrip(coder, items[n]);
      assert Lines(coder, items) == Lines(coder, items[..n]) + [coder.Encode(items[n])];
      ReadItemsStep(coder, Lines(coder, items[..n]), coder.Encode(items[n]));
      assert items == items[..n] + [items[n]];
    }
  }

  lemma LinesAreLines<T(!new)>(coder: BiCoder<T>, items: seq<T>)
    requires Faithful(coder)
    ensures forall line <- Lines(coder, items) :: '\n' !in line
  {
    hide Base64.Decode, Base64.Rfc4648;
    forall i | 0 <= i < |items| ensures '\n' !in Lines(coder, items)[i] {
      CoderRoundTrip(coder, items[i]);
    }
  }

  /** A page file reads back as the page it was written from, of any length including zero. */
  lemma PageRoundTrip<T(!new)>(coder: BiCoder<T>, items: seq<T>)
    requires Faithful(coder)
    ensures ReadPage(coder, PageText(coder, items)) == Some(items)
  {
    ReadItemsOfLines(coder, items);
    LinesAreLines(coder, items);
    RecordsOfUnlines(Lines(coder, items));
  }

  lemma NothingRead<T>(coder: BiCoder<T>)
    ensures ReadItems(coder, []) == Some([])
  {
  }

  lemma ReadItemsStep<T>(coder: BiCoder<T>, records: seq<string>, record: string)
    requires ReadItems(coder, records).Some?
    ensures ReadItems(coder, records + [record])
            == match coder.Decode(record)
               case None => None
               case Some(x) => Some(ReadItems(coder, records).value + [x])
  {
    assert (records + [record])[..|records|] == records;
  }

  lemma {:induction false} ReadItemsFails<T>(coder: BiCoder<T>, records: seq<string>, k: nat)
    requires k <= |records| && ReadItems(coder, records[..k]) == None
    ensures ReadItems(coder, records) == None
    decreases |records|
  {
    if k == |records| {
      assert records[..k] == records;
    } else {
      assert records[..|records| - 1][..k] == records[..k];
      ReadItemsFails(coder, records[..|records| - 1], k);
    }
  }

  // ---------- what a queue has on disk ----------

  lemma NamesConcat<T>(queue: string, a: seq<StoredPage<T>>, b: seq<StoredPage<T>>)
    ensures Names(queue, a + b) == Names(queue, a) + Names(queue, b)
  {
  }

  ghost predicate OnDisk<T>(files: Files, queue: string, coder: BiCoder<T>, pages: seq<StoredPage<T>>) {
    forall i :: 0 <= i < |pages| ==>
      var file := PageFile(queue, pages[i].stamp);
      file in files && files[file] == PageText(coder, pages[i].items)
  }

  /** The queue's files are the listed ones and no other; in particular there is no state file. */
  ghost predicate Exact(files: Files, queue: string, names: seq<string>) {
    forall f :: f in files && Owned(queue, f) ==> f in names
  }

  /** The queue owns no files but the listed ones and the state file. */
  ghost predicate ExactWithState(files: Files, queue: string, names: seq<string>) {
    forall f :: f in files && Owned(queue, f) ==> f in names || f == StateFile(queue)
  }

  /** The queue has no file at all. */
  ghost predicate NoFiles(files: Files, queue: string) {
    forall f :: f in files ==> !Owned(queue, f)
  }

  /** A directory a queue can start from with the given page files, in that order: either a state file
      lists them, or there is none and the pages are all that matches the file-name pattern. */
  ghost predicate Recoverable<T>(files: Files, cfg: Setting, coder: BiCoder<T>, pages: seq<StoredPage<T>>) {
    && PagesOk(pages, cfg)
    && OnDisk(files, cfg.queue, coder, pages)
    && (if StateFile(cfg.queue) in files then
          files[StateFile(cfg.queue)] == Unlines(Names(cfg.queue, pages))
        else
          (forall f :: f in files && MatchesPattern(cfg.queue, f) ==> f in Names(cfg.queue, pages)) && CountsInOrder(pages))
  }

  /** Nothing but the queue's own files differs. */
  ghost predicate SameElsewhere(a: Files, b: Files, queue: string) {
    forall f :: !Owned(queue, f) ==> (f in a <==> f in b) && (f in a && f in b ==> a[f] == b[f])
  }

  lemma SameElsewhereReflexive(a: Files, queue: string)
    ensures SameElsewhere(a, a, queue)
  {
  }

  lemma SameElsewhereTransitive(a: Files, b: Files, c: Files, queue: string)
    requires SameElsewhere(a, b, queue) && SameElsewhere(b, c, queue)
    ensures SameElsewhere(a, c, queue)
  {
  }

  lemma OtherQueueUntouched<T>(a: Files, b: Files, queue: string, other: string, coder: BiCoder<T>,
                               pages: seq<StoredPage<T>>, names: seq<string>)
    requires SameElsewhere(a, b, queue) && queue != other
    ensures OnDisk(a, other, coder, pages) ==> OnDisk(b, other, coder, pages)
    ensures Exact(a, other, names) ==> Exact(b, other, names)
    ensures ExactWithState(a, other, names) ==> ExactWithState(b, other, names)
  {
    forall f | Owned(other, f) ensures !Owned(queue, f) {
      if Owned(queue, f) { NameIsolation(queue, other, f); }
    }
    forall i | 0 <= i < |pages| ensures Owned(other, PageFile(other, pages[i].stamp)) {
      PageFileOwned(other, pages[i].stamp);
    }
  }

  /** Starting files of one queue stay starting files whatever another queue does to its own. */
  lemma RecoverableElsewhere<T>(a: Files, b: Files, queue: string, cfg: Setting, coder: BiCoder<T>,
                                pages: seq<StoredPage<T>>)
    requires SameElsewhere(a, b, queue) && queue != cfg.queue
    requires Recoverable(a, cfg, coder, pages)
    ensures Recoverable(b, cfg, coder, pages)
  {
    OtherQueueUntouched(a, b, queue, cfg.queue, coder, pages, []);
    forall f | Owned(cfg.queue, f) ensures !Owned(queue, f) {
      if Owned(queue, f) { NameIsolation(queue, cfg.queue, f); }
    }
    assert Owned(cfg.queue, StateFile(cfg.queue));
  }

  // ---------- one more page file, fewer page files ----------

  /** The files after a `push_back` at second `now`: with a full last page, one page file more. */
  function PushedFiles<T>(files: Files, queue: string, coder: BiCoder<T>, m: Machine<T>, maxItems: nat,
                          now: nat): Files {
    if m.shape.last.Some? && |m.shape.last.value| >= maxItems then
      files[PageFile(queue, NextStamp(m, now)) := PageText(coder, m.shape.last.value)]
    else
      files
  }

  /** The files after a refill: with an empty first page, one page file less, if there is one. */
  function RefilledFiles<T>(files: Files, queue: string, s: Shape<T>): Files {
    if s.first == [] && s.middle != [] then files - {PageFile(queue, s.middle[0].stamp)} else files
  }

  /** Spilling a page under the next stamp: the list grows by one name and the files match it again. */
  lemma NewPageFile<T>(files: Files, cfg: Setting, coder: BiCoder<T>, m: Machine<T>, now: nat, p: StoredPage<T>)
    requires Inv(m, cfg) && ClockOk(m, now, cfg.width) && p.stamp == NextStamp(m, now)
    requires OnDisk(files, cfg.queue, coder, m.shape.middle)
    ensures var files' := files[PageFile(cfg.queue, p.stamp) := PageText(coder, p.items)];
            && OnDisk(files', cfg.queue, coder, m.shape.middle + [p])
            && SameElsewhere(files, files', cfg.queue)
            && (Exact(files, cfg.queue, Names(cfg.queue, m.shape.middle)) ==>
                  Exact(files', cfg.queue, Names(cfg.queue, m.shape.middle + [p])))
    ensures Names(cfg.queue, m.shape.middle + [p]) == Names(cfg.queue, m.shape.middle) + [PageFile(cfg.queue, p.stamp)]
  {
    NextStampIsLater(m, cfg, now);
    IncreasingIsSeparate(m.shape.middle + [p], cfg.width);
    NewestOnDisk(files, cfg, coder, m.shape.middle, p);
    PageFileOwned(cfg.queue, p.stamp);
    NamesConcat(cfg.queue, m.shape.middle, [p]);
    assert Names(cfg.queue, [p]) == [PageFile(cfg.queue, p.stamp)];
  }

  /** Removing a page file that is no longer listed leaves the listed ones. */
  lemma RemovePageFile<T>(files: Files, queue: string, coder: BiCoder<T>, pages: seq<StoredPage<T>>, name: string)
    requires OnDisk(files, queue, coder, pages) && name !in Names(queue, pages)
    ensures OnDisk(files - {name}, queue, coder, pages)
  {
    forall i | 0 <= i < |pages| ensures PageFile(queue, pages[i].stamp) != name {
      assert Names(queue, pages)[i] in Names(queue, pages);
    }
  }

  /** What loading the first listed file finds and leaves. */
  lemma FrontFile<T(!new)>(files: Files, queue: string, coder: BiCoder<T>, pages: seq<StoredPage<T>>, width: nat)
    requires Faithful(coder) && Increasing(pages, width) && OnDisk(files, queue, coder, pages) && pages != []
    ensures var name := Names(queue, pages)[0];
            && name == PageFile(queue, pages[0].stamp)
            && name in files && ReadPage(coder, files[name]) == Some(pages[0].items)
            && Names(queue, pages)[1..] == Names(queue, pages[1..])
            && OnDisk(files - {name}, queue, coder, pages[1..])
            && Increasing(pages[1..], width)
            && SameElsewhere(files, files - {name}, queue)
            && (Exact(files, queue, Names(queue, pages)) ==> Exact(files - {name}, queue, Names(queue, pages[1..])))
  {
    IncreasingIsSeparate(pages, width);
    NamesDistinct(queue, pages, width);
    PageRoundTrip(coder, pages[0].items);
    PageFileOwned(queue, pages[0].stamp);
    RemovePageFile(files, queue, coder, pages[1..], Names(queue, pages)[0]);
  }

  /** What loading the last listed file finds and leaves. */
  lemma BackFile<T(!new)>(files: Files, queue: string, coder: BiCoder<T>, pages: seq<StoredPage<T>>, width: nat)
    requires Faithful(coder) && Increasing(pages, width) && OnDisk(files, queue, coder, pages) && pages != []
    ensures var n := |pages| - 1;
            var name := Names(queue, pages)[n];
            && name == PageFile(queue, pages[n].stamp)
            && name in files && ReadPage(coder, files[name]) == Some(pages[n].items)
            && Names(queue, pages)[..n] == Names(queue, pages[..n])
            && OnDisk(files - {name}, queue, coder, pages[..n])
  {
    var n := |pages| - 1;
    IncreasingIsSeparate(pages, width);
    NamesDistinct(queue, pages, width);
    PageRoundTrip(coder, pages[n].items);
    RemovePageFile(files, queue, coder, pages[..n], Names(queue, pages)[n]);
  }

  /** Listed names fit on a line of the state file. */
  lemma NamesAreLines<T>(queue: string, pages: seq<StoredPage<T>>)
    requires '\n' !in queue
    ensures forall name <- Names(queue, pages) :: '\n' !in name
  {
    forall i | 0 <= i < |pages| ensures '\n' !in PageFile(queue, pages[i].stamp) {
      assert forall c <- SeqString(pages[i].stamp) :: IsDigit(c);
    }
  }

  // ---------- the orphan scan ----------

  lemma MatchingAreListed<T>(files: Files, cfg: Setting, coder: BiCoder<T>, pages: seq<StoredPage<T>>)
    requires Recoverable(files, cfg, coder, pages) && StateFile(cfg.queue) !in files
    ensures Ascending(Names(cfg.queue, pages))
    ensures forall f :: f in Names(cfg.queue, pages) <==> f in files && MatchesPattern(cfg.queue, f)
  {
    NamesAscendIff(cfg.queue, pages, cfg.width);
    forall f | f in Names(cfg.queue, pages) ensures f in files && MatchesPattern(cfg.queue, f) {
      var i :| 0 <= i < |pages| && Names(cfg.queue, pages)[i] == f;
      PageFileOwned(cfg.queue, pages[i].stamp);
    }
  }

  /** The orphan scan agrees with the recorded order. */
  lemma OrphansAreListed<T>(files: Files, cfg: Setting, coder: BiCoder<T>, pages: seq<StoredPage<T>>,
                            found: seq<string>)
    requires Recoverable(files, cfg, coder, pages) && StateFile(cfg.queue) !in files
    requires Ascending(found) && forall f :: f in found <==> f in files && MatchesPattern(cfg.queue, f)
    ensures found == Names(cfg.queue, pages)
  {
    MatchingAreListed(files, cfg, coder, pages);
    AscendingUnique(found, Names(cfg.queue, pages));
  }

  /** Ordering page files by name is sorting the list of their names. */
  lemma ByNameIsSort<T>(queue: string, pages: seq<StoredPage<T>>)
    ensures Names(queue, ByName(queue, pages)) == Sort(Itself, Names(queue, pages))
  {
    SortOfNames(NameOf(queue), pages);
  }

  /** The page files written in one second survive an orphan scan in order if and only if there are at most
      10000 of them. */
  lemma OrphanOrderOfSecond<T>(queue: string, pages: seq<StoredPage<T>>, sec: nat)
    requires sec >= 1 && forall i :: 0 <= i < |pages| ==> pages[i].stamp == At(sec, i)
    ensures ByName(queue, pages) == pages <==> |pages| <= 10000
  {
    hide SeqString, LexLess, ByName;
    var names, seconds := Names(queue, pages), NamesOfSecond(sec, |pages|);
    NamesAscendIff(queue, pages, |Dec(sec)|);
    OrphanOrderIff(queue, pages, |Dec(sec)|);
    NamesOfSecondAscend(sec, |pages|);
    forall i, j | 0 <= i < j < |pages| ensures LexLess(names[i], names[j]) <==> LexLess(seconds[i], seconds[j]) {
      LexLessCommonPrefix(queue + "_", seconds[i], seconds[j]);
    }
  }

  // ---------- starting ----------

  /** The directory alone decides what a queue starts with. */
  lemma StartIsUnique<T(!new)>(files: Files, cfg: Setting, coder: BiCoder<T>, a: seq<StoredPage<T>>,
                               b: seq<StoredPage<T>>)
    requires Faithful(coder) && '\n' !in cfg.queue
    requires Recoverable(files, cfg, coder, a) && Recoverable(files, cfg, coder, b)
    ensures a == b
  {
    hide PageFile, PageText, ReadPage, CountsInOrder, MatchesPattern, Faithful;
    SameNames(files, cfg, coder, a, b);
    forall i | 0 <= i < |a| ensures a[i] == b[i] {
      assert Names(cfg.queue, a)[i] == Names(cfg.queue, b)[i];
      PageFileInjective(cfg.queue, a[i].stamp, b[i].stamp, cfg.width);
      PageRoundTrip(coder, a[i].items);
      PageRoundTrip(coder, b[i].items);
    }
  }

  lemma SameNames<T>(files: Files, cfg: Setting, coder: BiCoder<T>, a: seq<StoredPage<T>>, b: seq<StoredPage<T>>)
    requires '\n' !in cfg.queue
    requires Recoverable(files, cfg, coder, a) && Recoverable(files, cfg, coder, b)
    ensures Names(cfg.queue, a) == Names(cfg.queue, b)
  {
    if StateFile(cfg.queue) in files {
      NamesAreLines(cfg.queue, a);
      NamesAreLines(cfg.queue, b);
      RecordsOfUnlines(Names(cfg.queue, a));
      RecordsOfUnlines(Names(cfg.queue, b));
    } else {
      MatchingAreListed(files, cfg, coder, a);
      MatchingAreListed(files, cfg, coder, b);
      OrphansAreListed(files, cfg, coder, a, Names(cfg.queue, b));
    }
  }

  lemma RecoverableParts<T>(files: Files, cfg: Setting, coder: BiCoder<T>, pages: seq<StoredPage<T>>)
    requires Recoverable(files, cfg, coder, pages)
    ensures PagesOk(pages, cfg) && Increasing(pages, cfg.width) && OnDisk(files, cfg.queue, coder, pages)
  {
  }

  lemma StateFileUnlisted<T>(files: Files, queue: string, coder: BiCoder<T>, pages: seq<StoredPage<T>>)
    requires OnDisk(files, queue, coder, pages)
    ensures OnDisk(files - {StateFile(queue)}, queue, coder, pages)
  {
    forall i | 0 <= i < |pages| ensures PageFile(queue, pages[i].stamp) != StateFile(queue) {
      PageFileOwned(queue, pages[i].stamp);
    }
  }

  /** The page files that are read, and removed, when a queue starts: the first and the last one. */
  function Ends<T>(queue: string, pages: seq<StoredPage<T>>): set<string> {
    if pages == [] then {}
    else {PageFile(queue, pages[0].stamp), PageFile(queue, pages[|pages| - 1].stamp)}
  }

  /** What `loadFirstAndLastPage` finds and leaves. */
  lemma LoadDescribed<T(!new)>(files: Files, queue: string, coder: BiCoder<T>, pages: seq<StoredPage<T>>, width: nat)
    requires Faithful(coder) && Increasing(pages, width) && OnDisk(files, queue, coder, pages)
    ensures |Names(queue, pages)| == |pages|
    ensures pages != [] ==>
              var name := Names(queue, pages)[0];
              name in files && ReadPage(coder, files[name]) == Some(pages[0].items)
    ensures |pages| >= 2 ==>
              var n := |pages| - 1;
              var rest := files - {Names(queue, pages)[0]};
              var name := Names(queue, pages)[n];
              && name in rest && ReadPage(coder, rest[name]) == Some(pages[n].items)
              && Names(queue, pages)[1..][n - 1] == name
              && Names(queue, pages)[1..][..n - 1] == Names(queue, Load(pages).middle)
    ensures |pages| == 1 ==> Names(queue, pages)[1..] == Names(queue, Load(pages).middle)
    ensures |pages| == 0 ==> Names(queue, pages) == Names(queue, Load(pages).middle)
    ensures |pages| == 1 ==> files - {Names(queue, pages)[0]} == files - Ends(queue, pages)
    ensures |pages| >= 2 ==> files - {Names(queue, pages)[0]} - {Names(queue, pages)[|pages| - 1]} == files - Ends(queue, pages)
    ensures OnDisk(files - Ends(queue, pages), queue, coder, Load(pages).middle)
  {
    hide PageFile, PageText, ReadPage, OnDisk, Exact, SameElsewhere, Increasing, Faithful;
    if pages == [] {
      assert files - {} == files;
    } else {
      FrontFile(files, queue, coder, pages, width);
      if |pages| >= 2 {
        BackFile(files - {Names(queue, pages)[0]}, queue, coder, pages[1..], width);
        assert pages[1..][..|pages| - 2] == pages[1..|pages| - 1];
        TwoGone(files, Names(queue, pages)[0], Names(queue, pages)[|pages| - 1]);
      }
    }
  }

  lemma TwoGone(files: Files, a: string, b: string)
    ensures files - {a} - {b} == files - {a, b}
  {
  }

  /** The files after a start: the state file and the files of the pages now in memory are gone. */
  function StartedFiles<T>(files: Files, queue: string, pages: seq<StoredPage<T>>): Files {
    files - {StateFile(queue)} - Ends(queue, pages)
  }

  lemma EndsElsewhere<T>(files: Files, queue: string, pages: seq<StoredPage<T>>)
    ensures SameElsewhere(files, StartedFiles(files, queue, pages), queue)
  {
    if pages != [] {
      PageFileOwned(queue, pages[0].stamp);
      PageFileOwned(queue, pages[|pages| - 1].stamp);
    }
  }

  lemma MiddleNames<T>(queue: string, pages: seq<StoredPage<T>>, f: string)
    requires f in Names(queue, pages) && f !in Ends(queue, pages)
    ensures f in Names(queue, Load(pages).middle)
  {
    hide PageFile;
    var i :| 0 <= i < |pages| && Names(queue, pages)[i] == f;
    assert 0 < i < |pages| - 1;
    assert Names(queue, Load(pages).middle)[i - 1] == f;
  }

  /** If the queue owned nothing but the listed files, it owns exactly the remaining ones after the start. */
  lemma EndsExact<T>(files: Files, queue: string, pages: seq<StoredPage<T>>)
    requires ExactWithState(files, queue, Names(queue, pages))
    ensures Exact(StartedFiles(files, queue, pages), queue, Names(queue, Load(pages).middle))
  {
    hide Names, Ends, StateFile, Owned;
    forall f | f in StartedFiles(files, queue, pages) && Owned(queue, f) ensures f in Names(queue, Load(pages).middle) {
      MiddleNames(queue, pages, f);
    }
  }

  // ---------- shutdown ----------

  /** The files after so many of the writes of `writeFirstAndLastPage`: none, the "0" page, both pages. */
  function PageWrites<T>(files: Files, queue: string, coder: BiCoder<T>, s: Shape<T>, stamp: Stamp,
                         writes: nat): Files {
    var files' := if writes >= 1 && s.first != [] then files[PageFile(queue, Zero) := PageText(coder, s.first)] else files;
    if writes >= 2 && s.last.Some? then files'[PageFile(queue, stamp) := PageText(coder, s.last.value)] else files'
  }

  /** The files after the page writes and the state-file write of `shutdown`. */
  function ShutdownFiles<T>(files: Files, queue: string, coder: BiCoder<T>, s: Shape<T>, stamp: Stamp): Files {
    var files' := PageWrites(files, queue, coder, s, stamp, 2);
    var names := Names(queue, ShutdownPages(s, stamp));
    if names != [] then files'[StateFile(queue) := Unlines(names)] else files'
  }

  lemma ShutdownNames<T>(queue: string, s: Shape<T>, stamp: Stamp)
    ensures Names(queue, ShutdownPages(s, stamp))
            == (if s.first != [] then [PageFile(queue, Zero)] else [])
               + Names(queue, s.middle)
               + (if s.last.Some? then [PageFile(queue, stamp)] else [])
  {
    WrittenNames(queue, s, stamp, 2);
  }

  /** Exactly which files a shutdown writes: "0" for a non-empty first page, one for a separate last page, and the
      state file unless the queue is empty. */
  lemma ShutdownKeys<T>(files: Files, queue: string, coder: BiCoder<T>, m: Machine<T>, cfg: Setting, stop: nat)
    requires Inv(m, cfg)
    ensures ShutdownFiles(files, queue, coder, m.shape, NextStamp(m, stop)).Keys
            == files.Keys
               + (if m.shape.first != [] then {PageFile(queue, Zero)} else {})
               + (if m.shape.last.Some? then {PageFile(queue, NextStamp(m, stop))} else {})
               + (if Contents(m.shape) != [] then {StateFile(queue)} else {})
    ensures Contents(m.shape) == [] ==> ShutdownFiles(files, queue, coder, m.shape, NextStamp(m, stop)) == files
  {
    hide PageFile, PageText, StateFile, NextStamp, Unlines, Inv, Contents, Names;
    BlankIff(m, cfg);
  }

  lemma BlankIff<T>(m: Machine<T>, cfg: Setting)
    requires Inv(m, cfg)
    ensures Contents(m.shape) == [] <==> m.shape.first == [] && m.shape.last.None?
    ensures m.shape.last.None? ==> m.shape.middle == []
  {
  }

  lemma NoPages<T>(files: Files, queue: string, coder: BiCoder<T>)
    ensures OnDisk(files, queue, coder, []) && Names<T>(queue, []) == []
  {
  }

  lemma WritesElsewhere<T>(files: Files, queue: string, coder: BiCoder<T>, s: Shape<T>, stamp: Stamp, writes: nat)
    ensures SameElsewhere(files, PageWrites(files, queue, coder, s, stamp, writes), queue)
  {
    PageFileOwned(queue, Zero);
    PageFileOwned(queue, stamp);
  }

  lemma ShutdownElsewhere<T>(files: Files, queue: string, coder: BiCoder<T>, s: Shape<T>, stamp: Stamp)
    ensures SameElsewhere(files, ShutdownFiles(files, queue, coder, s, stamp), queue)
  {
    WritesElsewhere(files, queue, coder, s, stamp, 2);
  }

  /** Writing one more page file leaves the others readable. */
  lemma WritePage<T>(files: Files, queue: string, coder: BiCoder<T>, pages: seq<StoredPage<T>>, p: StoredPage<T>)
    requires OnDisk(files, queue, coder, pages)
    requires forall i :: 0 <= i < |pages| ==> PageFile(queue, pages[i].stamp) != PageFile(queue, p.stamp)
    ensures var files' := files[PageFile(queue, p.stamp) := PageText(coder, p.items)];
            OnDisk(files', queue, coder, pages + [p]) && OnDisk(files', queue, coder, [p] + pages)
  {
  }

  lemma OtherName(queue: string, a: Stamp, b: Stamp, width: nat)
    requires Wide(a, width) && Wide(b, width) && a != b
    ensures PageFile(queue, a) != PageFile(queue, b)
  {
    if PageFile(queue, a) == PageFile(queue, b) { PageFileInjective(queue, a, b, width); }
  }

  lemma OldestOnDisk<T>(files: Files, cfg: Setting, coder: BiCoder<T>, p: StoredPage<T>, pages: seq<StoredPage<T>>)
    requires Separate([p] + pages, cfg.width) && OnDisk(files, cfg.queue, coder, pages)
    ensures OnDisk(files[PageFile(cfg.queue, p.stamp) := PageText(coder, p.items)], cfg.queue, coder, [p] + pages)
  {
    hide PageFile, PageText;
    var all := [p] + pages;
    forall i | 0 <= i < |pages| ensures PageFile(cfg.queue, pages[i].stamp) != PageFile(cfg.queue, p.stamp) {
      assert all[0] == p && all[i + 1] == pages[i];
      OtherName(cfg.queue, p.stamp, pages[i].stamp, cfg.width);
    }
    WritePage(files, cfg.queue, coder, pages, p);
  }

  lemma NewestOnDisk<T>(files: Files, cfg: Setting, coder: BiCoder<T>, pages: seq<StoredPage<T>>, p: StoredPage<T>)
    requires Separate(pages + [p], cfg.width) && OnDisk(files, cfg.queue, coder, pages)
    ensures OnDisk(files[PageFile(cfg.queue, p.stamp) := PageText(coder, p.items)], cfg.queue, coder, pages + [p])
  {
    hide PageFile, PageText;
    var all := pages + [p];
    forall i | 0 <= i < |pages| ensures PageFile(cfg.queue, pages[i].stamp) != PageFile(cfg.queue, p.stamp) {
      assert all[|pages|] == p && all[i] == pages[i];
      OtherName(cfg.queue, pages[i].stamp, p.stamp, cfg.width);
    }
    WritePage(files, cfg.queue, coder, pages, p);
  }

  lemma StateOnDisk<T>(files: Files, queue: string, coder: BiCoder<T>, pages: seq<StoredPage<T>>, text: string)
    requires OnDisk(files, queue, coder, pages)
    ensures OnDisk(files[StateFile(queue) := text], queue, coder, pages)
  {
    forall i | 0 <= i < |pages| ensures PageFile(queue, pages[i].stamp) != StateFile(queue) {
      PageFileOwned(queue, pages[i].stamp);
    }
  }

  lemma WrittenOnDisk<T>(files: Files, cfg: Setting, coder: BiCoder<T>, s: Shape<T>, stamp: Stamp, writes: nat)
    requires Separate(WrittenPages(s, stamp, writes), cfg.width)
    requires OnDisk(files, cfg.queue, coder, s.middle)
    ensures OnDisk(PageWrites(files, cfg.queue, coder, s, stamp, writes), cfg.queue, coder, WrittenPages(s, stamp, writes))
  {
    hide PageFile, PageText;
    var q, pages := cfg.queue, WrittenPages(s, stamp, writes);
    var zero, newest := StoredPage(Zero, s.first), StoredPage(stamp, LastItems(s));
    var listed := if writes >= 1 && s.first != [] then [zero] + s.middle else s.middle;
    assert pages == if writes >= 2 && s.last.Some? then listed + [newest] else listed;
    assert Separate(listed, cfg.width) by {
      assert forall i :: 0 <= i < |listed| ==> listed[i] == pages[i];
    }
    var files' := files;
    if writes >= 1 && s.first != [] {
      files' := files[PageFile(q, Zero) := PageText(coder, s.first)];
      OldestOnDisk(files, cfg, coder, zero, s.middle);
    }
    if writes >= 2 && s.last.Some? {
      NewestOnDisk(files', cfg, coder, listed, newest);
    }
  }

  /** After a shutdown the directory can be started from, with the pages the shutdown leaves. */
  lemma ShutdownRecoverable<T>(files: Files, cfg: Setting, coder: BiCoder<T>, m: Machine<T>, stop: nat)
    requires Inv(m, cfg) && ClockOk(m, stop, cfg.width)
    requires OnDisk(files, cfg.queue, coder, m.shape.middle)
    requires ShutdownPages(m.shape, NextStamp(m, stop)) == [] ==> Exact(files, cfg.queue, Names(cfg.queue, m.shape.middle))
    ensures var stamp := NextStamp(m, stop);
            Recoverable(ShutdownFiles(files, cfg.queue, coder, m.shape, stamp), cfg, coder, ShutdownPages(m.shape, stamp))
  {
    var stamp := NextStamp(m, stop);
    var pages := ShutdownPages(m.shape, stamp);
    WrittenPagesKeep(m, cfg, stop, stop + 1, 2);
    IncreasingIsSeparate(pages, cfg.width);
    WrittenOnDisk(files, cfg, coder, m.shape, stamp, 2);
    var written := PageWrites(files, cfg.queue, coder, m.shape, stamp, 2);
    StateOnDisk(written, cfg.queue, coder, pages, Unlines(Names(cfg.queue, pages)));
    StateFileIsNoPage(cfg.queue);
    assert Owned(cfg.queue, StateFile(cfg.queue));
  }

  /** What a shutdown at second `stop` leaves on disk, from any state. */
  lemma ShutdownLeaves<T>(files: Files, cfg: Setting, coder: BiCoder<T>, m: Machine<T>, stop: nat)
    requires Inv(m, cfg) && ClockOk(m, stop, cfg.width) && OnDisk(files, cfg.queue, coder, m.shape.middle)
    ensures var pages := ShutdownPages(m.shape, NextStamp(m, stop));
            var files' := ShutdownFiles(files, cfg.queue, coder, m.shape, NextStamp(m, stop));
            var exact := Exact(files, cfg.queue, Names(cfg.queue, m.shape.middle));
            && Flatten(pages) == Contents(m.shape) && OlderThan(pages, stop + 1)
            && SameElsewhere(files, files', cfg.queue)
            && (exact || pages != [] ==> Recoverable(files', cfg, coder, pages))
            && (exact ==> ExactWithState(files', cfg.queue, Names(cfg.queue, pages)))
  {
    hide Exact, ExactWithState, SameElsewhere, Recoverable, OnDisk, Inv, ShutdownFiles, ClockOk;
    var stamp := NextStamp(m, stop);
    ShutdownPagesKeep(m, cfg, stop);
    ShutdownElsewhere(files, cfg.queue, coder, m.shape, stamp);
    if Exact(files, cfg.queue, Names(cfg.queue, m.shape.middle)) {
      ShutdownRecoverable(files, cfg, coder, m, stop);
      ShutdownExact(files, cfg.queue, coder, m.shape, stamp);
    } else if ShutdownPages(m.shape, stamp) != [] {
      ShutdownRecoverable(files, cfg, coder, m, stop);
    }
  }

  /** A clean restart, from the files up: they can be started from, and starting gives the machine that the
      run model says. */
  lemma RestartOnDisk<T>(files: Files, cfg: Setting, coder: BiCoder<T>, m: Machine<T>, stop: nat, up: nat)
    requires Inv(m, cfg) && ClockOk(m, stop, cfg.width) && stop < up
    requires OnDisk(files, cfg.queue, coder, m.shape.middle) && Exact(files, cfg.queue, Names(cfg.queue, m.shape.middle))
    ensures var stamp := NextStamp(m, stop);
            var pages := ShutdownPages(m.shape, stamp);
            && Recoverable(ShutdownFiles(files, cfg.queue, coder, m.shape, stamp), cfg, coder, pages)
            && OlderThan(pages, up)
            && ExactWithState(ShutdownFiles(files, cfg.queue, coder, m.shape, stamp), cfg.queue, Names(cfg.queue, pages))
            && Machine(Load(pages), 0, 0, up) == Restart(m, stop, up)
            && Flatten(pages) == Contents(m.shape)
  {
    ShutdownRecoverable(files, cfg, coder, m, stop);
    ShutdownExact(files, cfg.queue, coder, m.shape, NextStamp(m, stop));
    ShutdownPagesKeep(m, cfg, stop);
  }

  /** A crash, between operations or after some of the page writes of a shutdown, from the files up: the
      orphan scan can start from them, and gives the machine that the run model says. */
  lemma CrashOnDisk<T>(files: Files, cfg: Setting, coder: BiCoder<T>, m: Machine<T>, stop: nat, up: nat, writes: nat)
    requires Inv(m, cfg) && ClockOk(m, stop, cfg.width) && stop < up
    requires CountsInOrder(WrittenPages(m.shape, NextStamp(m, stop), writes))
    requires OnDisk(files, cfg.queue, coder, m.shape.middle) && Exact(files, cfg.queue, Names(cfg.queue, m.shape.middle))
    ensures var stamp := NextStamp(m, stop);
            var pages := WrittenPages(m.shape, stamp, writes);
            && Recoverable(PageWrites(files, cfg.queue, coder, m.shape, stamp, writes), cfg, coder, pages)
            && OlderThan(pages, up)
            && Exact(PageWrites(files, cfg.queue, coder, m.shape, stamp, writes), cfg.queue, Names(cfg.queue, pages))
            && Machine(Load(pages), 0, 0, up) == Crash(m, cfg.queue, stop, up, writes)
  {
    var stamp := NextStamp(m, stop);
    var pages := WrittenPages(m.shape, stamp, writes);
    WrittenPagesKeep(m, cfg, stop, up, writes);
    IncreasingIsSeparate(pages, cfg.width);
    WrittenOnDisk(files, cfg, coder, m.shape, stamp, writes);
    WrittenExact(files, cfg.queue, coder, m.shape, stamp, writes);
    NoStateFile(cfg.queue, pages);
    OrphanOrderIff(cfg.queue, pages, cfg.width);
  }

  lemma NoStateFile<T>(queue: string, pages: seq<StoredPage<T>>)
    ensures StateFile(queue) !in Names(queue, pages)
  {
    forall i | 0 <= i < |pages| ensures PageFile(queue, pages[i].stamp) != StateFile(queue) {
      PageFileOwned(queue, pages[i].stamp);
    }
  }

  lemma WrittenNames<T>(queue: string, s: Shape<T>, stamp: Stamp, writes: nat)
    ensures Names(queue, WrittenPages(s, stamp, writes))
            == (if writes >= 1 && s.first != [] then [PageFile(queue, Zero)] else [])
               + Names(queue, s.middle)
               + (if writes >= 2 && s.last.Some? then [PageFile(queue, stamp)] else [])
  {
    hide PageFile, Names;
    var head := if writes >= 1 && s.first != [] then [StoredPage(Zero, s.first)] else [];
    var tail := if writes >= 2 && s.last.Some? then [StoredPage(stamp, s.last.value)] else [];
    NamesConcat(queue, head + s.middle, tail);
    NamesConcat(queue, head, s.middle);
    assert WrittenPages(s, stamp, writes) == head + s.middle + tail;
    assert Names(queue, head) == if writes >= 1 && s.first != [] then [PageFile(queue, Zero)] else [];
    assert Names(queue, tail) == if writes >= 2 && s.last.Some? then [PageFile(queue, stamp)] else [];
  }

  lemma WrittenExact<T>(files: Files, queue: string, coder: BiCoder<T>, s: Shape<T>, stamp: Stamp, writes: nat)
    requires Exact(files, queue, Names(queue, s.middle))
    ensures Exact(PageWrites(files, queue, coder, s, stamp, writes), queue, Names(queue, WrittenPages(s, stamp, writes)))
  {
    hide PageFile, PageText, Owned;
    WrittenNames(queue, s, stamp, writes);
  }

  lemma ShutdownExact<T>(files: Files, queue: string, coder: BiCoder<T>, s: Shape<T>, stamp: Stamp)
    requires Exact(files, queue, Names(queue, s.middle))
    ensures ExactWithState(ShutdownFiles(files, queue, coder, s, stamp), queue, Names(queue, ShutdownPages(s, stamp)))
  {
    WrittenExact(files, queue, coder, s, stamp, 2);
  }

  /** A second shutdown writes the last page again under a new name: the directory stays free of left-over
      page files exactly when the two pages were one. */
  lemma SecondShutdownLeftovers<T>(files: Files, cfg: Setting, coder: BiCoder<T>, m: Machine<T>, stop: nat, again: nat)
    requires Inv(m, cfg) && ClockOk(m, stop, cfg.width) && stop <= again && |Dec(again)| == cfg.width
    requires Exact(files, cfg.queue, Names(cfg.queue, m.shape.middle))
    ensures var m' := AfterShutdown(m, stop);
            var files' := ShutdownFiles(files, cfg.queue, coder, m.shape, NextStamp(m, stop));
            var files'' := ShutdownFiles(files', cfg.queue, coder, m'.shape, NextStamp(m', again));
            var names := Names(cfg.queue, ShutdownPages(m'.shape, NextStamp(m', again)));
            && (ExactWithState(files'', cfg.queue, names) <==> m.shape.last.None?)
            && (m.shape.last.Some? ==>
                  var left := PageFile(cfg.queue, NextStamp(m, stop));
                  left !in names && left in files'' && files''[left] == PageText(coder, m.shape.last.value))
  {
    hide PageFile, PageText, StateFile, MatchesPattern, Exact, Inv;
    var q, m', s1 := cfg.queue, AfterShutdown(m, stop), NextStamp(m, stop);
    var s2 := NextStamp(m', again);
    var files' := ShutdownFiles(files, q, coder, m.shape, s1);
    ShutdownExact(files, q, coder, m.shape, s1);
    if m.shape.last.None? {
      OnePageNoMiddle(m, cfg);
      assert ShutdownPages(m.shape, s1) == ShutdownPages(m'.shape, s2);
    } else {
      PageFileOwned(q, s1);
      LeftOver(cfg, m'.shape, s1, s2);
      NamesApart(cfg, s1, s2);
      assert PageFile(q, s1) in ShutdownFiles(files', q, coder, m'.shape, s2);
    }
  }

  lemma NamesApart(cfg: Setting, s1: Stamp, s2: Stamp)
    requires Wide(s1, cfg.width) && Wide(s2, cfg.width) && s1.At? && s1 != s2
    ensures PageFile(cfg.queue, s1) != PageFile(cfg.queue, s2) && PageFile(cfg.queue, s1) != PageFile(cfg.queue, Zero)
  {
    if PageFile(cfg.queue, s1) == PageFile(cfg.queue, s2) { PageFileInjective(cfg.queue, s1, s2, cfg.width); }
    if PageFile(cfg.queue, s1) == PageFile(cfg.queue, Zero) { PageFileInjective(cfg.queue, s1, Zero, cfg.width); }
  }

  lemma OnePageNoMiddle<T>(m: Machine<T>, cfg: Setting)
    requires Inv(m, cfg) && m.shape.last.None?
    ensures m.shape.middle == []
  {
  }

  lemma LeftOver<T>(cfg: Setting, s: Shape<T>, s1: Stamp, s2: Stamp)
    requires Wide(s1, cfg.width) && Wide(s2, cfg.width) && s1.At? && s1 != s2 && s.middle == []
    ensures PageFile(cfg.queue, s1) !in Names(cfg.queue, ShutdownPages(s, s2))
  {
    hide PageFile;
    var pages := ShutdownPages(s, s2);
    forall i | 0 <= i < |pages| ensures PageFile(cfg.queue, pages[i].stamp) != PageFile(cfg.queue, s1) {
      if PageFile(cfg.queue, pages[i].stamp) == PageFile(cfg.queue, s1) {
        PageFileInjective(cfg.queue, pages[i].stamp, s1, cfg.width);
      }
    }
  }

  // ---------- name collisions ----------

  /** Load and remove the listed files one after the other; `None` when a file is missing or malformed. */
  function Drain<T>(files: Files, coder: BiCoder<T>, names: seq<string>): Option<seq<T>>
    decreases |names|
  {
    if names == [] then Some([])
    else if names[0] !in files then None
    else
      match (ReadPage(coder, files[names[0]]), Drain(files - {names[0]}, coder, names[1..]))
      case (Some(items), Some(rest)) => Some(items + rest)
      case _ => None
  }

  lemma {:induction false} DrainIgnoresOthers<T>(files: Files, coder: BiCoder<T>, names: seq<string>, extra: string,
                                                 text: string)
    requires extra !in names
    ensures Drain(files[extra := text], coder, names) == Drain(files, coder, names)
    decreases |names|
  {
    if names != [] && names[0] in files {
      assert files[extra := text] - {names[0]} == (files - {names[0]})[extra := text];
      DrainIgnoresOthers(files - {names[0]}, coder, names[1..], extra, text);
    }
  }

  lemma {:induction false} DrainTwice<T>(files: Files, coder: BiCoder<T>, names: seq<string>, name: string)
    requires name in names
    ensures Drain(files, coder, names + [name]) == None
    decreases |names|
  {
    assert (names + [name])[1..] == names[1..] + [name];
    if names[0] in files {
      if names[0] == name {
        DrainMissing(files - {name}, coder, names[1..] + [name], name);
      } else {
        DrainTwice(files - {names[0]}, coder, names[1..], name);
      }
    }
  }

  lemma {:induction false} DrainMissing<T>(files: Files, coder: BiCoder<T>, names: seq<string>, name: string)
    requires name in names && name !in files
    ensures Drain(files, coder, names) == None
    decreases |names|
  {
    if names[0] != name { DrainMissing(files - {names[0]}, coder, names[1..], name); }
  }

  lemma DrainNothing<T>(files: Files, coder: BiCoder<T>)
    ensures Drain(files, coder, []) == Some([])
  {
  }

  lemma DrainFirst<T>(files: Files, coder: BiCoder<T>, names: seq<string>)
    requires Drain(files, coder, names).Some?
    ensures names != [] ==> names[0] in files
  {
  }

  lemma DrainStep<T>(files: Files, coder: BiCoder<T>, names: seq<string>)
    requires names != [] && names[0] in files
    ensures var page := ReadPage(coder, files[names[0]]);
            var rest := Drain(files - {names[0]}, coder, names[1..]);
            Drain(files, coder, names) == if page.Some? && rest.Some? then Some(page.value + rest.value) else None
  {
  }

  lemma {:induction false} DrainAppend<T(!new)>(files: Files, coder: BiCoder<T>, names: seq<string>, name: string,
                                                items: seq<T>)
    requires Faithful(coder) && name !in names && Drain(files, coder, names).Some?
    ensures Drain(files[name := PageText(coder, items)], coder, names + [name])
            == Some(Drain(files, coder, names).value + items)
    decreases |names|
  {
    hide PageText, ReadPage, Drain;
    var files' := files[name := PageText(coder, items)];
    DrainNothing(files, coder);
    DrainNothing(files' - {name}, coder);
    DrainFirst(files, coder, names);
    DrainStep(files', coder, names + [name]);
    if names == [] {
      PageRoundTrip(coder, items);
      assert (names + [name])[1..] == [];
      assert items + [] == [] + items;
    } else {
      DrainStep(files, coder, names);
      var kept, rest := files - {names[0]}, names[1..];
      assert (names + [name])[1..] == rest + [name];
      assert files' - {names[0]} == kept[name := PageText(coder, items)];
      DrainAppend(kept, coder, rest, name, items);
      Reassociate(ReadPage(coder, files[names[0]]).value, Drain(kept, coder, rest).value, items);
    }
  }

  lemma Reassociate<T>(a: seq<T>, b: seq<T>, c: seq<T>)
    ensures a + b + c == a + (b + c)
  {
  }

  /** Spilling a page under a name appends it to what can be loaded back exactly when the name is not
      already listed: a reused name loses a page, and the second load of it finds no file. */
  lemma SpillAppendsIffFresh<T(!new)>(files: Files, coder: BiCoder<T>, names: seq<string>, name: string, items: seq<T>)
    requires Faithful(coder) && Drain(files, coder, names).Some?
    ensures Drain(files[name := PageText(coder, items)], coder, names + [name])
            == Some(Drain(files, coder, names).value + items)
            <==> name !in names
  {
    if name in names {
      DrainTwice(files[name := PageText(coder, items)], coder, names, name);
    } else {
      DrainAppend(files, coder, names, name, items);
    }
  }

  /** Loading the page files one after the other yields their items in order. */
  lemma {:induction false} DrainIsFlatten<T(!new)>(files: Files, queue: string, coder: BiCoder<T>,
                                                   pages: seq<StoredPage<T>>, width: nat)
    requires Faithful(coder) && Increasing(pages, width) && OnDisk(files, queue, coder, pages)
    ensures Drain(files, coder, Names(queue, pages)) == Some(Flatten(pages))
    decreases |pages|
  {
    if pages != [] {
      IncreasingIsSeparate(pages, width);
      NamesDistinct(queue, pages, width);
      var names := Names(queue, pages);
      assert names[1..] == Names(queue, pages[1..]);
      PageRoundTrip(coder, pages[0].items);
      assert forall i :: 0 < i < |pages| ==> names[i] != names[0];
      DrainIsFlatten(files - {names[0]}, queue, coder, pages[1..], width);
    }
  }
}
