# The persisted queues of kisscpp

A Dafny model of the persisted queue family of kisscpp: the paged `PersistedQueue`, its on-disk format, the
priority queue built from an array of such queues, and the delayed queue that feeds one from a time-keyed map.

`dafny verify dfyconfig.toml` checks the whole project.

## What is modelled

- `LineText`, `Base64`: newline-terminated records read by the getline/eof loops; the base64 encoder and decoder
  with the code's own padding arithmetic, against section 4 of RFC 4648.
- `NameOrder`, `PageNames`: `std::string` order and `std::sort`, decimal sequence numbers, file names, the
  file-name pattern, and which files belong to which queue.
- `Paging`, `PagedRuns`: a queue as a state machine. A `Shape` is the first page, the pages in files and the last
  page, with `last == None` while both in-memory pages are one object. Runs are arbitrary sequences of
  operations, clean restarts and crashes (between operations, or after some of the page writes of a shutdown).
- `Storage`: the working directory as a map from file names to texts; which directories a queue can start from;
  what the writes of a shutdown, a second shutdown, or an interrupted one leave behind.
- `Runs`: where a run of a state machine ends, what it puts out, and whether all its steps are allowed.
- `StrayRuns`, `StrayReturns`: runs that may shut a queue down any number of times before its process ends, and lose the
  process at any point, also within the page writes of a further shutdown. The page files that a further shutdown no
  longer lists are stray: no list names them, and an orphan scan finds them.
- `DirectoryRuns`: the same runs on the process state and the files, where a new process knows only its directory.
- `SharedRuns`: interleaved runs of several queues in one directory.
- `PersistedQueues`: the class, with pages as heap objects, so that `lastPage != firstPage` is reference
  inequality, a shared `Disk`, and a `Clock` whose readings never go back. Each method's new state is the
  state-machine step (`Abs()`), and what that means for the plain sequence (`Items()`).
- `PriorityLevels`, `PriorityQueues`: levels, clamping, draining, requeueing; the class over an array of queues in
  one directory.
- `DelayLine`, `DelayedQueues`: the queue as one line, persisted items first and then the waiting ones by release
  time; the class over a map of lists.

The running class and the run model are tied twice. Every method of `PersistedQueue` ensures that its new abstract
state is the corresponding step of `Paging` and that the new files are those of the corresponding file function of
`Storage`. `DirectoryRuns.RunOnDisk` shows, for every run, that the same steps and file functions keep the files equal to
the page files of the model, that every start meets the constructor's precondition, and that what it starts with is
determined by the directory and is the model's step; orphan scans that meet stray page files are included.
`SharedRuns.RunOnDisk` shows it for any interleaving of the events of several queues. Each constructor turns "no other files before" into `Clean()`, and
each shutdown of a clean queue leaves "no other files" again, so the results compose over generations.

## Results that are negative or have a boundary

- A second shutdown (an explicit call, then the destructor) keeps the whole sequence if and only if no page file lay
  between the first and the last page, and leaves no stray page file if and only if the two pages were one object
  (`Paging.SecondShutdown`, `Storage.SecondShutdownLeftovers`).
- A page file becomes stray when a queue with two page objects that has been shut down is shut down again, or loses its
  process after both page writes of a further shutdown. Once the queue has been drained and its process is lost, an item
  is delivered a second time if and only if the run made a stray page file (`StrayReturns.DoubleShutdownDecides`). Until
  an orphan scan meets a stray file, order is kept (`StrayRuns.RunIsFifo`). A crash alone does not decide it: a stray
  copy of items that the crash itself loses from memory is their only copy (`StrayReturns.OnlyCopy`).
- A process that is lost within the page writes of a further shutdown loses nothing: the first state file is still there
  (`StrayRuns.ListedHeld`).
- The names of one second sort in creation order, and an orphan scan keeps that order, if and only if each written
  count is not above the later one cut to its length (`PageNames.CountOrderIff`, `Paging.ScanOrderIff`); for the first
  names of a second, if and only if there are at most 10000 (`PageNames.NamesOfSecondAscend`,
  `Storage.OrphanOrderOfSecond`). Otherwise a crash reorders them (`Paging.CrashCanReorder`).
- A page written under a name that is already listed loses a page; it is appended if and only if the name is not
  listed (`Storage.SpillAppendsIffFresh`). A new process can produce such a name if and only if some listed page file is
  of a second not before its start (`PageNames.GivesOutIff`, `Paging.FreshNamesIff`; `Paging.SameSecondRestart` is an
  instance).
- Two different seconds have a name in common if and only if the digits of the later one begin with those of the
  earlier one and go on with a digit other than zero (`PageNames.NamesCollideIff`; second 1 with second 11, for
  example, `PageNames.WidthIsNeeded`). Under a fixed digit width there is no collision.
- `size` is off by what the listed page files are short of the page limit, whatever they hold (`Paging.SizeError`); it is
  exact if and only if every listed page file holds `maxItemsPerPage` items (`Paging.SizeExact`). All of them are full
  until an orphan scan meets a stray page file (`StrayReturns.SizeInSafeRuns`), and then size is exact if and only if the
  limit is at least 1 or no page file is listed. A short stray page makes it wrong (`StrayReturns.ShortPageSize`: limit 2,
  five items, size 6).
- `front` does not look at the shut-down flag, unlike `push_back`, `push_front` and `pop_front`.

## Assumptions

- Queue names are taken literally (the pattern at `kisscpp/persisted_queue.tpp:32` does not escape them) and hold no
  newline; there is one live queue object per name.
- The page limit is the same across restarts. It need not be positive: 0 behaves like 1 except in `size`.
- The clock does not go back and keeps its digit width; a new process starts in a second later than every second its
  recovered files are named after, because the counters restart at zero.
- The page files that an orphan scan meets have the counts of every second written in order; fewer than 10000 names in
  every second are enough for it (`Paging.FewNamesInOrder`).
- The payload format below base64 reads back what it writes, and writes at least one byte.
- A null pointer is never pushed. A priority queue has at least one level and `pop` is called when it is not empty.

## Model

| member | source | states |
|---|---|---|
| LineText.RecordsOfUnlines | kisscpp/persisted_queue.tpp:235-243 | the getline/eof loop reads every newline-terminated record once and in order |
| LineText.RecordsReadEverything | kisscpp/persisted_queue.tpp:237-243 | the loop covers a text exactly when it is empty or its last line is terminated; an unterminated tail is dropped |
| Base64.EncodeToBase64String | kisscpp/persisted_queue.hpp:66-77 | regrouping plus the padding computed from the length is the encoding of section 4 of RFC 4648, for every byte string |
| Base64.RegroupIsRfc | kisscpp/persisted_queue.hpp:69-74 | streaming 6-bit regrouping with appended padding equals the RFC's 24-bit groups with padded final group |
| Base64.DecodeFromBase64 | kisscpp/persisted_queue.hpp:79-98 | overwriting, regrouping and erasing returns the encoded bytes of every non-empty input, and nothing for a text with a character that is no digit, white space or padding |
| Base64.DecodeEncode | kisscpp/persisted_queue.hpp:66-98 | decoding inverts encoding on every non-empty byte string |
| Base64.Alphabet | kisscpp/persisted_queue.hpp:57 | the sextet characters are table 1 of RFC 4648 |
| Base64.EncodedLength | kisscpp/persisted_queue.hpp:69-74 | the output has four characters per started group of three bytes |
| Base64.EncodedAlphabet | kisscpp/persisted_queue.tpp:203 | an encoded record holds no newline and no NUL, so `c_str()` and the line format keep it whole |
| NameOrder.AscendingUnique | kisscpp/persisted_queue.tpp:340 | two strictly ascending lists of the same names are equal, so sorting determines the order |
| NameOrder.LexLessIff | kisscpp/persisted_queue.tpp:340 | string order: the first difference decides, or the end of one string |
| NameOrder.SortAscending | kisscpp/persisted_queue.tpp:340 | sorting things with distinct names gives strictly ascending names, the same ones |
| NameOrder.SortKeepsIff | kisscpp/persisted_queue.tpp:340 | sorting by distinct names keeps a list as it is if and only if its names are ascending |
| PageNames.SeqStringInjective | kisscpp/persisted_queue.tpp:420-441 | with one digit width, different seconds or counts never give the same name, for any count |
| PageNames.NamesCollideIff | kisscpp/persisted_queue.tpp:432-438 | for any two seconds: some names of theirs are equal if and only if the later second's digits extend the earlier one's with a digit other than zero |
| PageNames.CountOrderIff | kisscpp/persisted_queue.tpp:434-438 | two written counts sort in order if and only if the lesser is not above the greater cut to its length |
| PageNames.FewPrecede | kisscpp/persisted_queue.tpp:434-438 | counts below 10000 are always written in order |
| PageNames.SeqStringOrder | kisscpp/persisted_queue.tpp:420-441 | two names order like their creation if and only if, within one second, the counts are written in order; the "0" page is always first |
| PageNames.NamesOfSecondAscend | kisscpp/persisted_queue.tpp:434-438 | the names of one second are in ascending order if and only if there are at most 10000 |
| PageNames.WidthIsNeeded | kisscpp/persisted_queue.tpp:432-438 | an instance of the collision: second 1 with count 10000, second 11 with count 0 |
| PageNames.ValueOfDec | kisscpp/persisted_queue.tpp:432 | seconds are written in decimal without a leading zero |
| PageNames.GeneratedNames | kisscpp/persisted_queue.tpp:420-441 | over a whole process, under a nondecreasing clock, all names differ, and they ascend if and only if the counts of every second are written in order |
| PageNames.GivesOutIff | kisscpp/persisted_queue.tpp:420-441 | a process whose counters start at zero can give out a given name if and only if the name's second is not before its start |
| Paging.NextStampIsGivenOut | kisscpp/persisted_queue.tpp:425-430 | the next name has the next count of the same second, or the first one of another second |
| PageNames.NameIsolation | kisscpp/persisted_queue.tpp:31-33 | no file name matches the pattern or is the state file of two different queues |
| PageNames.MatchesPatternIff | kisscpp/persisted_queue.tpp:31-33 | the scan accepts exactly the queue's name, an underscore and any number of decimal digits |
| PageNames.OwnedIff | kisscpp/persisted_queue.tpp:346-355 | all files of a queue are those names and its state file |
| PageNames.PageFileOwned | kisscpp/persisted_queue.tpp:184-186 | every page file matches its queue's pattern and is not its state file |
| Paging.PushBackAppends | kisscpp/persisted_queue.tpp:50-64 | all three branches of push_back append to the sequence and keep the invariant |
| Paging.PushBackPages | kisscpp/persisted_queue.tpp:53-60 | one page object becomes two exactly when the first page is full, and the last page goes to a file exactly when it is full |
| Paging.PushFrontPrepends | kisscpp/persisted_queue.tpp:68-75 | push_front prepends to the first page, full or not, touches no other page, and keeps the invariant |
| Paging.RefillKeeps | kisscpp/persisted_queue.tpp:84-90 | refilling touches nothing while the first page has items; otherwise it loads one page file, or makes the last page the first, moves no item, and leaves the first page empty only when the whole queue is |
| Paging.PopFrontRemovesHead | kisscpp/persisted_queue.tpp:79-103 | pop_front removes and returns the head, or null exactly when the queue is empty, and touches the other pages only when the first page is empty |
| Paging.FrontPeeks | kisscpp/persisted_queue.tpp:107-127 | front returns the head and leaves the sequence as it is, although pages may move |
| Paging.SizeExact | kisscpp/persisted_queue.tpp:155-165 | in every valid state the size computed without reading files is the length of the sequence if and only if every listed page holds the page limit |
| Paging.SizeError | kisscpp/persisted_queue.tpp:155-165 | for any pages, the computed size exceeds the length of the sequence by what the listed pages are short of the limit |
| Paging.LoadKeeps | kisscpp/persisted_queue.tpp:286-306 | loading first and last page turns a list of page files into a valid queue with the same items |
| Paging.WrittenPagesKeep | kisscpp/persisted_queue.tpp:390-396 | each stage of the page writes of a shutdown leaves startable files that hold all but the unwritten in-memory pages |
| Paging.RestartKeepsAll | kisscpp/persisted_queue.tpp:131-136 | shutdown and restart restore the same sequence and the invariant from any valid state |
| Paging.RestartIsRefill | kisscpp/persisted_queue.tpp:286-306 | a clean restart brings the same page objects and page files back, refilled if the first page was empty |
| Paging.CrashIsRestart | kisscpp/persisted_queue.tpp:390-396 | a loss after both page writes and before the state file is a clean restart |
| Paging.CrashKeepsFiles | kisscpp/persisted_queue.tpp:321-342 | crash recovery yields exactly the items in page files, a contiguous part, when their counts are written in order; after both page writes nothing is lost |
| Paging.ScanOrderIff | kisscpp/persisted_queue.tpp:321-342 | however the page files lie in the directory, an orphan scan finds them in creation order if and only if the counts of every second are written in order |
| Paging.OrphanOrderIff | kisscpp/persisted_queue.tpp:321-342 | for every list of page files in creation order: an orphan scan keeps the order if and only if the counts of every second are written in order |
| Paging.FewNamesInOrder | kisscpp/persisted_queue.tpp:434-438 | fewer than 10000 names in every second are enough for it |
| Paging.CrashCanReorder | kisscpp/persisted_queue.tpp:434-438 | pages 9999 and 10000 of one second come back swapped from an orphan scan |
| Paging.SameSecondRestart | kisscpp/persisted_queue.tpp:24-26 | an instance: a process restarted in the same second gives out a name that is still listed |
| Paging.FreshNamesIff | kisscpp/persisted_queue.tpp:24-26 | a new process can give out no listed name if and only if every listed page file is of an earlier second than its start |
| Paging.SecondShutdown | kisscpp/persisted_queue.tpp:42-46 | a second shutdown leaves first and last page as the recoverable sequence: the original one if and only if no page file lay between |
| PagedRuns.ReachableInv | kisscpp/persisted_queue.tpp:50-151 | every state reached by operations, restarts and crashes satisfies the invariant |
| PagedRuns.RunRefinesSequence | kisscpp/persisted_queue.tpp:50-151 | in every run without crashes all answers and the final contents are those of one plain sequence |
| PagedRuns.RunIsFifo | kisscpp/persisted_queue.tpp:50-103 | in every run from empty without push_front, popped items then contents are a subsequence of the pushed ones, and all of them without a crash |
| PagedRuns.CrashLossIsBounded | kisscpp/persisted_queue.tpp:310-342 | without push_front at most two pages are in memory and each crash loses at most two pages of items |
| PagedRuns.RunConserves | kisscpp/persisted_queue.tpp:50-103 | in every run, push_front and crashes included, what comes out, what is left and what the crashes cut off is what was there and what was pushed: nothing is handed out twice |
| PagedRuns.SizeInRuns | kisscpp/persisted_queue.tpp:155-165 | in every state reached by operations, single shutdowns, restarts and crashes listed pages are full, and size is exact unless a limit of 0 meets a page file |
| Subsequences.Places | kisscpp/persisted_queue.tpp:50-103 | a subsequence gives every item its own position in the whole, in increasing order |
| Storage.CoderRoundTrip | kisscpp/persisted_queue.hpp:62-63 | a bicoder over base64 decodes what it encodes, on one line |
| Storage.PageRoundTrip | kisscpp/persisted_queue.tpp:201-243 | a page file reads back as the page, of any length including zero |
| Storage.OrphansAreListed | kisscpp/persisted_queue.tpp:321-342 | the sorted scan finds exactly the recorded list of files |
| Storage.ByNameIsSort | kisscpp/persisted_queue.tpp:340 | ordering page files by name is sorting the list of their names |
| Storage.OrphanOrderOfSecond | kisscpp/persisted_queue.tpp:434-438 | the page files of one second survive an orphan scan in order if and only if there are at most 10000 |
| Storage.OtherQueueUntouched | kisscpp/persisted_queue.tpp:31-33 | whatever a queue does to its own files leaves the files of a queue with another name readable and exact |
| Storage.RecoverableElsewhere | kisscpp/persisted_queue.tpp:321-354 | and leaves that queue's starting directory startable with the same pages |
| Storage.NewPageFile | kisscpp/persisted_queue.tpp:184-199 | a page file under the next sequence number keeps all listed files and extends the list |
| Storage.FrontFile | kisscpp/persisted_queue.tpp:254-262 | the first listed file is on disk, reads back as its page, and is the only file that goes |
| Storage.BackFile | kisscpp/persisted_queue.tpp:266-274 | the last listed file is on disk and reads back as its page |
| Storage.ShutdownLeaves | kisscpp/persisted_queue.tpp:131-136 | the files after a shutdown hold the contents, are startable, and no other queue's file changed |
| Storage.ShutdownKeys | kisscpp/persisted_queue.tpp:390-416 | a shutdown writes "0" for a non-empty first page, a file for a separate last page and a state file unless the queue is empty, and nothing else |
| Storage.RestartOnDisk | kisscpp/persisted_queue.tpp:278-317 | the files after a shutdown meet the precondition of a start, whose result is the restart step of the run model, and the queue owns no other file |
| Storage.CrashOnDisk | kisscpp/persisted_queue.tpp:310-342 | the same for a crash between operations or within the page writes of a shutdown |
| Storage.StartIsUnique | kisscpp/persisted_queue.tpp:278-342 | a directory determines the pages a queue starts with |
| Storage.SecondShutdownLeftovers | kisscpp/persisted_queue.tpp:390-416 | after a second shutdown the directory is free of unlisted page files if and only if the two pages were one; otherwise a stray copy of the last page stays |
| Storage.SpillAppendsIffFresh | kisscpp/persisted_queue.tpp:190-208 | writing a page appends it to what can be loaded if and only if its name was not listed |
| Storage.DrainIsFlatten | kisscpp/persisted_queue.tpp:254-262 | loading the listed files one after the other yields their items in order |
| StrayRuns.StepKept | kisscpp/persisted_queue.tpp:42-342 | every step keeps the invariant: operations, any number of shutdowns, losses, and orphan scans that meet stray page files |
| StrayRuns.RunIsFifo | kisscpp/persisted_queue.tpp:42-136 | in every run with any number of shutdowns and losses in which no orphan scan meets a stray file, popped items and then what is in the queue are a subsequence of the pushed ones |
| StrayRuns.ListedHeld | kisscpp/persisted_queue.tpp:390-416 | a start from a state file restores what it lists, whichever page writes of a further shutdown were done |
| StrayReturns.StraysIffDoubled | kisscpp/persisted_queue.tpp:390-416 | stray page files exist if and only if a shut-down queue with two page objects was shut down again, or lost after both page writes of that |
| StrayReturns.DoubleShutdownDecides | kisscpp/persisted_queue.tpp:321-416 | a run of distinct pushes, then drained and lost, hands out nothing twice if and only if no step of it made a stray page file |
| StrayReturns.OnlyCopy | kisscpp/persisted_queue.tpp:390-416 | a loss right after a double shutdown of two one-item pages loses both from memory and finds the stray copy of the last item only |
| StrayReturns.FewPushesOnePage | kisscpp/persisted_queue.tpp:50-64 | runs that push no more items than a page holds keep one page object and no page file, and leave nothing stray after any number of shutdowns |
| StrayReturns.SizeInSafeRuns | kisscpp/persisted_queue.tpp:155-165 | as long as no orphan scan meets a stray file, listed pages are full and size is exact unless a limit of 0 meets a page file |
| StrayReturns.ShortPageSize | kisscpp/persisted_queue.tpp:155-165 | a short stray page found between full ones makes the computed size 6 for five items |
| DirectoryRuns.StepOnDisk | kisscpp/persisted_queue.tpp:42-416 | each step on process state and files is determined, is the model's step, and leaves exactly the model's files, also when an orphan scan meets stray files |
| DirectoryRuns.RunOnDisk | kisscpp/persisted_queue.tpp:21-416 | the same for every run: no start fails, the state is the model's, the queue owns the model's files and no other, other files are unchanged |
| DirectoryRuns.ScanFindsStrays | kisscpp/persisted_queue.tpp:321-342 | after a loss in any run the sorted scan finds the stray page files together with the listed ones, whatever their counts |
| DirectoryRuns.DirectoryIsFifo | kisscpp/persisted_queue.tpp:21-416 | first-in first-out order of safe runs for a program that starts from its files |
| SharedRuns.RunOnDisk | kisscpp/persisted_queue.tpp:21-416 | interleaved runs of differently named queues in one directory: no start fails, every program is in the state of its model, and the directory holds exactly their files |
| SharedRuns.AsIfAlone | kisscpp/threadsafe_persisted_priority_queue.hpp:123-137 | each queue ends in the state that its own events alone lead to |
| PersistedQueues.Clock.Read | kisscpp/persisted_queue.tpp:423 | a clock reading, not before the previous one |
| PersistedQueues.PersistedQueue.constructor | kisscpp/persisted_queue.tpp:21-38 | starting from the files of shutdowns or a crash, stray page files included, gives a valid queue with their items in order, and a clean one if there were no other files |
| PersistedQueues.PersistedQueue.PushBack | kisscpp/persisted_queue.tpp:50-64 | appends, or refuses after a shutdown; starts a second page exactly when the only one is full; the new state is the push_back step, and the new files have at most the spilled page more |
| PersistedQueues.PersistedQueue.PushFront | kisscpp/persisted_queue.tpp:68-75 | the new state is the push_front step, or a refusal |
| PersistedQueues.PersistedQueue.PopFront | kisscpp/persisted_queue.tpp:79-103 | removes and returns the head, null exactly when empty, or refuses; at most the loaded page file goes |
| PersistedQueues.PersistedQueue.Front | kisscpp/persisted_queue.tpp:107-127 | returns the head and keeps the sequence, even after a shutdown |
| PersistedQueues.PersistedQueue.Shutdown | kisscpp/persisted_queue.tpp:131-136 | drains the list, writes a startable directory whose pages flatten to the contents, keeps both pages in memory |
| PersistedQueues.PersistedQueue.Clear | kisscpp/persisted_queue.tpp:140-144 | terminates with one empty page and none of the queue's files on disk |
| PersistedQueues.PersistedQueue.Empty | kisscpp/persisted_queue.tpp:148-151 | holds exactly when the sequence is empty |
| PersistedQueues.PersistedQueue.Size | kisscpp/persisted_queue.tpp:155-165 | is the length of the sequence if and only if every listed page holds the limit; with full pages, if and only if the limit is at least 1 or no file is listed |
| PersistedQueues.PersistedQueue.SeqNumber | kisscpp/persisted_queue.tpp:420-441 | the padded string built step by step is the name of the next stamp |
| PersistedQueues.PersistedQueue.PersistToFile | kisscpp/persisted_queue.tpp:176-210 | lists the name, in front for "0", and writes one encoded record per line |
| PersistedQueues.PersistedQueue.SpillLastPage | kisscpp/persisted_queue.tpp:54-56 | the written page joins the page files, under a name later than all listed |
| PersistedQueues.PersistedQueue.LoadFromFile | kisscpp/persisted_queue.tpp:214-250 | returns the decoded page and removes the file, or fails on a missing file or a malformed record without removing it |
| PersistedQueues.PersistedQueue.LoadFrontFile | kisscpp/persisted_queue.tpp:254-262 | loads and unlists the first file |
| PersistedQueues.PersistedQueue.LoadBackFile | kisscpp/persisted_queue.tpp:266-274 | loads and unlists the last file |
| PersistedQueues.PersistedQueue.LoadFirstAndLastPage | kisscpp/persisted_queue.tpp:286-306 | sets up both pages, as one object for at most one file, and fails when a listed file is missing |
| PersistedQueues.PersistedQueue.LoadPersistedFileNames | kisscpp/persisted_queue.tpp:310-317 | state file or orphan scan, the list is that of the recoverable pages, and the state file is gone |
| PersistedQueues.PersistedQueue.LoadOrphanedQueueFiles | kisscpp/persisted_queue.tpp:321-342 | lists exactly the files named after the queue, an underscore and digits, ascending, whatever order the directory is read in |
| PersistedQueues.PersistedQueue.LoadStateFile | kisscpp/persisted_queue.tpp:372-386 | appends every record of the state file and removes it |
| PersistedQueues.PersistedQueue.WriteFirstAndLastPage | kisscpp/persisted_queue.tpp:390-396 | writes a non-empty first page as "0" in front and a separate last page under a new name at the back |
| PersistedQueues.PersistedQueue.WriteStateFile | kisscpp/persisted_queue.tpp:400-416 | drains the list into the state file, or writes nothing for an empty list |
| PersistedQueues.PersistedQueue.Undisturbed | kisscpp/threadsafe_persisted_priority_queue.hpp:123-137 | another queue's operations leave this queue valid, with the same sequence and exact files |
| PriorityLevels.DrainIsConcat | kisscpp/threadsafe_persisted_priority_queue.hpp:65-75 | from any state, pops until empty yield the levels one after the other |
| PriorityLevels.DrainIsStableSort | kisscpp/threadsafe_persisted_priority_queue.hpp:56-75 | pushes into an empty queue come out as the stable sort by clamped priority |
| PriorityLevels.LevelsAreStableSort | kisscpp/threadsafe_persisted_priority_queue.hpp:56-63 | such a stable sort exists for any pushes |
| PriorityLevels.PushAllLevels | kisscpp/threadsafe_persisted_priority_queue.hpp:56-63 | a level gains exactly the pushes clamped to it, in order |
| PriorityLevels.RunConserves | kisscpp/threadsafe_persisted_priority_queue.hpp:65-90 | over any run, held plus popped is what was there plus pushed plus requeued, and nothing is requeued more often than popped |
| PriorityLevels.RequeueOnce | kisscpp/threadsafe_persisted_priority_queue.hpp:82-90 | the last popped item goes back once, to the tail of the level it came from, and is forgotten |
| PriorityQueues.LevelNamesDiffer | kisscpp/threadsafe_persisted_priority_queue.hpp:130-131 | different levels have different queue names |
| PriorityQueues.LevelOwns | kisscpp/threadsafe_persisted_priority_queue.hpp:130-131 | the exact names of all files of a level |
| PriorityQueues.PriorityQueue.constructor | kisscpp/threadsafe_persisted_priority_queue.hpp:37-49 | every level restarts with its own sequence from the shared directory, and is clean if no level had other files; files of no level are unchanged |
| PriorityQueues.PriorityQueue.CreateQueues | kisscpp/threadsafe_persisted_priority_queue.hpp:123-137 | starting one level leaves the files of the others startable and exact and the started ones as they were; files of no level are unchanged |
| PriorityQueues.PriorityQueue.OnlyLevel | kisscpp/threadsafe_persisted_priority_queue.hpp:56-90 | a change of one level leaves all other levels' sequences and files unchanged |
| PriorityQueues.OutsideUntouched | kisscpp/threadsafe_persisted_priority_queue.hpp:123-137 | a queue whose name is no level's keeps its files, exact and startable, whatever the priority queue does |
| PriorityQueues.PriorityQueue.Push | kisscpp/threadsafe_persisted_priority_queue.hpp:56-63 | appends to the clamped level only; files of no level are unchanged |
| PriorityQueues.PriorityQueue.Pop | kisscpp/threadsafe_persisted_priority_queue.hpp:65-75 | takes the head of the first non-empty level and remembers level and item; files of no level are unchanged |
| PriorityQueues.PriorityQueue.PushBackLastPop | kisscpp/threadsafe_persisted_priority_queue.hpp:82-90 | puts the remembered item back and forgets item and level; files of no level are unchanged |
| PriorityQueues.PriorityQueue.Empty | kisscpp/threadsafe_persisted_priority_queue.hpp:92-100 | holds exactly when no level has an item |
| PriorityQueues.PriorityQueue.Clear | kisscpp/threadsafe_persisted_priority_queue.hpp:109-112 | empties one level and its files, and changes no other file |
| PriorityQueues.PriorityQueue.ClearAll | kisscpp/threadsafe_persisted_priority_queue.hpp:114-119 | empties every level and leaves none of their files; after a shutdown it fails unless every level is empty; files of no level are unchanged |
| PriorityQueues.PriorityQueue.Shutdown | kisscpp/threadsafe_persisted_priority_queue.hpp:102-107 | leaves every level's sequence on disk, startable and with no other file; first and last page of each level stay in memory; files of no level are unchanged |
| DelayLine.ReleaseKeepsLine | kisscpp/threadsafe_persisted_delayed_queue.hpp:133-151 | moving expired items never loses, duplicates or reorders one |
| DelayLine.ForcedMove | kisscpp/threadsafe_persisted_delayed_queue.hpp:61-66 | a forced move appends all waiting items in release order |
| DelayLine.PushLaterPosition | kisscpp/threadsafe_persisted_delayed_queue.hpp:75-83 | a delayed item goes behind everything released at or before its time and before everything released later |
| DelayLine.PushNowPosition | kisscpp/threadsafe_persisted_delayed_queue.hpp:73-75 | an undelayed item goes behind everything persisted and before everything waiting |
| DelayLine.MoveExactly | kisscpp/threadsafe_persisted_delayed_queue.hpp:133-151 | an unforced move takes exactly the due lists, whole, into an empty persisted queue, and nothing into one with items |
| DelayLine.NothingDueLeft | kisscpp/threadsafe_persisted_delayed_queue.hpp:85-106 | after a push and after empty nothing is due while nothing is persisted |
| DelayLine.ReadyComesFirst | kisscpp/threadsafe_persisted_delayed_queue.hpp:68-106 | in every run what is persisted comes out or stays before everything else, undelayed pushes right behind it |
| DelayLine.DueComeFirst | kisscpp/threadsafe_persisted_delayed_queue.hpp:94-106 | all that is due when an operation finds nothing persisted comes out, in release order, before anything pushed later |
| DelayLine.UndelayedInOrder | kisscpp/threadsafe_persisted_delayed_queue.hpp:68-99 | in every run the persisted items and then the undelayed pushes come out or stay in that order |
| DelayLine.EarlierIsFirst | kisscpp/threadsafe_persisted_delayed_queue.hpp:94-99 | of items waiting together those released earlier come out first in every run |
| DelayLine.RunKeepsOrder | kisscpp/threadsafe_persisted_delayed_queue.hpp:68-106 | in every run the items in line come out or stay in the order of the line |
| DelayLine.RunConserves | kisscpp/threadsafe_persisted_delayed_queue.hpp:68-106 | in every run what comes out and stays is what was there and what was pushed |
| DelayLine.PopIsNullIff | kisscpp/threadsafe_persisted_delayed_queue.hpp:94-99 | pop returns null exactly when nothing is persisted and every waiting release time is now or later |
| DelayLine.NeverEarly | kisscpp/threadsafe_persisted_delayed_queue.hpp:142 | without a forced move an item with a delay is popped only after its release second |
| DelayLine.ReleaseKey | kisscpp/threadsafe_persisted_delayed_queue.hpp:143-147 | moving the list of the next key and erasing the key is releasing up to that key |
| DelayedQueues.AscendingKeys | kisscpp/threadsafe_persisted_delayed_queue.hpp:139 | the keys of the map, ascending |
| DelayedQueues.DelayedQueue.constructor | kisscpp/threadsafe_persisted_delayed_queue.hpp:52-59 | starts with the recovered sequence and nothing waiting, clean if there were no other files, and leaves other queues' files alone |
| DelayedQueues.DelayedQueue.Push | kisscpp/threadsafe_persisted_delayed_queue.hpp:68-86 | enters the item by its release time, an undelayed one behind the persisted ones, then moves what is due into an empty persisted queue |
| DelayedQueues.DelayedQueue.Pop | kisscpp/threadsafe_persisted_delayed_queue.hpp:94-99 | the pop step of the line, with the exact condition for null |
| DelayedQueues.DelayedQueue.Empty | kisscpp/threadsafe_persisted_delayed_queue.hpp:101-106 | holds exactly when a pop at that second would return null; after a shutdown it fails exactly when something is due |
| DelayedQueues.DelayedQueue.Size | kisscpp/threadsafe_persisted_delayed_queue.hpp:108-112 | persisted plus waiting items, if and only if every listed page file holds the limit |
| DelayedQueues.DelayedQueue.NoLockMapSize | kisscpp/threadsafe_persisted_delayed_queue.hpp:122-131 | the number of waiting items |
| DelayedQueues.DelayedQueue.MoveExpired | kisscpp/threadsafe_persisted_delayed_queue.hpp:133-151 | the nested loops release exactly the due lists, all of them, in release order, into an empty persisted queue; a persisted queue that was shut down makes them fail with nothing moved |
| DelayedQueues.DelayedQueue.MoveList | kisscpp/threadsafe_persisted_delayed_queue.hpp:143-147 | moves one list to the persisted queue, in order, and erases its key |
| DelayedQueues.DelayedQueue.Shutdown | kisscpp/threadsafe_persisted_delayed_queue.hpp:61-92 | leaves the persisted sequence and then the waiting items in release order on disk, startable and with no other file |

## Left out

- SeqNumber: the 32-bit wrap of the count after 2^32 names in one second is not modelled; counts are unbounded.
- PersistedQueues.PersistedQueue.constructor: covers directories whose files a queue can start from; the load failure that a missing listed file causes is stated on `LoadFirstAndLastPage`.
- Stream failures while writing (`CouldNotWriteQueueFile`), and a crash while the state file is being written or while a queue is being constructed.
- Malformed page texts that the JSON reader rejects; `LoadFromFile` models malformed base64 only.
- Decoding a text of fewer than two characters, or with more padding than bytes, has no defined result in the source and is reported as malformed.
- Base64.DecodeFromBase64: on malformed records only, differs from Boost's iterators, which read an inner '=' as zero bits and discard left-over bits; the model reports an inner '=' as malformed and fills a started byte with zero bits.
- In the run model, `front` on a queue that has been shut down with an empty first page and a separate last page, which merges the two pages before a further shutdown; the contracts of the class cover it.
- `lastPopObject`, which returns a field.
- The working directory prefix of paths, which all names of one queue share, and `setWorkingDirectory`.
- JSON and property trees: any payload format that reads back what it writes stands in for them.
- Boost's iterators, regular expressions and file-system calls have their documented meaning.
- Mutexes, the locking wrapper `ThreadsafePersistedQueue` and `ThreadsafeQueue`: locked operations are single steps.
- Log lines, the unused `swapPage`, `QueueType` aliases and the `StatAbleQueue` interface.
- Client, server, connection, configuration, statistics and error-state parts of the library.
