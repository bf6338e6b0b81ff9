/** Several queues in one directory: runs in which their events are interleaved in any way. */
module SharedRuns {
  import opened PageNames
  import opened Paging
  import opened Storage
  import Runs
  import StrayRuns
  import opened DirectoryRuns

  type World<T> = StrayRuns.World<T>

  /** An event of the queue with the given index. */
  datatype Event<T> = Of(queue: nat, event: StrayRuns.Event<T>)

  function Step<T>(ws: seq<World<T>>, e: Event<T>, cfgs: seq<Setting>): seq<World<T>> {
    if e.queue < |ws| && e.queue < |cfgs| then
      ws[e.queue := StrayRuns.Step(ws[e.queue], e.event, cfgs[e.queue])]
    else
      ws
  }

  predicate Allowed<T>(ws: seq<World<T>>, e: Event<T>, cfgs: seq<Setting>) {
    && |ws| == |cfgs| && e.queue < |ws|
    && StrayRuns.Legal(ws[e.queue], e.event, cfgs[e.queue]) && StrayRuns.Ordered(ws[e.queue], e.event)
  }

  function Steps<T>(cfgs: seq<Setting>): (seq<World<T>>, Event<T>) -> seq<World<T>> {
    (ws: seq<World<T>>, e: Event<T>) => Step(ws, e, cfgs)
  }

  function Allowing<T>(cfgs: seq<Setting>): (seq<World<T>>, Event<T>) -> bool {
    (ws: seq<World<T>>, e: Event<T>) => Allowed(ws, e, cfgs)
  }

  predicate OrderedRun<T>(ws: seq<World<T>>, run: seq<Event<T>>, cfgs: seq<Setting>) {
    Runs.Throughout(Steps(cfgs), Allowing(cfgs), ws, run)
  }

  function Final<T>(ws: seq<World<T>>, run: seq<Event<T>>, cfgs: seq<Setting>): seq<World<T>> {
    Runs.Final(Steps(cfgs), ws, run)
  }

  /** The events of one queue. */
  function EventsOf<T>(run: seq<Event<T>>, k: nat): seq<StrayRuns.Event<T>> {
    if run == [] then []
    else (if run[0].queue == k then [run[0].event] else []) + EventsOf(run[1..], k)
  }

  function FilesAfter<T>(ws: seq<World<T>>, files: Files, e: Event<T>, cfgs: seq<Setting>, coder: BiCoder<T>): Files {
    if e.queue < |ws| && e.queue < |cfgs| then
      DirectoryRuns.FilesAfter(ws[e.queue], files, e.event, cfgs[e.queue], coder)
    else
      files
  }

  function FinalFiles<T>(ws: seq<World<T>>, files: Files, run: seq<Event<T>>, cfgs: seq<Setting>,
                         coder: BiCoder<T>): Files
    decreases |run|
  {
    if run == [] then files
    else FinalFiles(Step(ws, run[0], cfgs), FilesAfter(ws, files, run[0], cfgs, coder), run[1..], cfgs, coder)
  }

  function Processes<T>(ws: seq<World<T>>): (ps: seq<Process<T>>)
    ensures |ps| == |ws| && forall k :: 0 <= k < |ws| ==> ps[k] == ProcessOf(ws[k])
  {
    seq(|ws|, k requires 0 <= k < |ws| => ProcessOf(ws[k]))
  }

  /** A run of the programs: each knows its own process state, and all of them the one directory. */
  ghost predicate RunsTo<T(!new)>(ps: seq<Process<T>>, files: Files, run: seq<Event<T>>, ps': seq<Process<T>>,
                                  files': Files, cfgs: seq<Setting>, coder: BiCoder<T>)
    decreases |run|
  {
    if run == [] then ps' == ps && files' == files
    else
      var k := run[0].queue;
      k < |ps| && k < |cfgs| && exists p1, files1 ::
        && Moves(ps[k], files, run[0].event, p1, files1, cfgs[k], coder)
        && RunsTo(ps[k := p1], files1, run[1..], ps', files', cfgs, coder)
  }

  ghost predicate AllKept<T>(ws: seq<World<T>>, files: Files, cfgs: seq<Setting>, coder: BiCoder<T>) {
    && |ws| == |cfgs|
    && forall k :: 0 <= k < |ws| ==> StrayRuns.Kept(ws[k], cfgs[k]) && OnlyFiles(ws[k], files, cfgs[k], coder)
  }

  /** Queue names are names of one queue each, and lines. */
  predicate NamesOk(cfgs: seq<Setting>) {
    && (forall k :: 0 <= k < |cfgs| ==> '\n' !in cfgs[k].queue)
    && (forall j, k :: 0 <= j < k < |cfgs| ==> cfgs[j].queue != cfgs[k].queue)
  }

  /** What one queue does to its own files leaves the files of another one in the state of its model. */
  lemma OnlyFilesElsewhere<T>(w: World<T>, a: Files, b: Files, other: string, cfg: Setting, coder: BiCoder<T>)
    requires OnlyFiles(w, a, cfg, coder) && SameElsewhere(a, b, other) && other != cfg.queue
    ensures OnlyFiles(w, b, cfg, coder)
  {
    OtherQueueUntouched(a, b, other, cfg.queue, coder, StrayRuns.OnFile(w), []);
    OtherQueueUntouched(a, b, other, cfg.queue, coder, StrayRuns.Listed(w), []);
    forall f | Owned(cfg.queue, f) ensures !Owned(other, f) {
      if Owned(other, f) { NameIsolation(other, cfg.queue, f); }
    }
    hide OnDisk, Names, MatchesPattern, StrayRuns.OnFile, StrayRuns.Listed;
    assert Owned(cfg.queue, StateFile(cfg.queue));
  }

  lemma StepOnDisk<T(!new)>(ws: seq<World<T>>, files: Files, e: Event<T>, p': Process<T>, files': Files,
                            cfgs: seq<Setting>, coder: BiCoder<T>)
    requires Faithful(coder) && NamesOk(cfgs) && AllKept(ws, files, cfgs, coder) && Allowed(ws, e, cfgs)
    ensures var after := FilesAfter(ws, files, e, cfgs, coder);
            && AllKept(Step(ws, e, cfgs), after, cfgs, coder)
            && (Moves(ProcessOf(ws[e.queue]), files, e.event, p', files', cfgs[e.queue], coder)
                <==> p' == ProcessOf(Step(ws, e, cfgs)[e.queue]) && files' == after)
  {
    hide StrayRuns.Kept, StrayRuns.Step, StrayRuns.Legal, StrayRuns.Ordered, OnlyFiles, SameElsewhere, Moves,
         DirectoryRuns.FilesAfter, Faithful, ProcessOf;
    var k, after := e.queue, FilesAfter(ws, files, e, cfgs, coder);
    StrayRuns.StepKept(ws[k], e.event, cfgs[k]);
    DirectoryRuns.StepOnDisk(ws[k], files, e.event, p', files', cfgs[k], coder);
    forall j | 0 <= j < |ws| && j != k ensures OnlyFiles(ws[j], after, cfgs[j], coder) {
      OnlyFilesElsewhere(ws[j], files, after, cfgs[k].queue, cfgs[j], coder);
    }
  }

  lemma ProcessesAfter<T>(ws: seq<World<T>>, e: Event<T>, cfgs: seq<Setting>)
    requires |ws| == |cfgs| && e.queue < |ws|
    ensures Processes(Step(ws, e, cfgs)) == Processes(ws)[e.queue := ProcessOf(Step(ws, e, cfgs)[e.queue])]
  {
    hide ProcessOf, StrayRuns.Step;
  }

  /** Interleaved runs: from one directory that holds exactly the files of all the queues, no start fails, every program
      ends in the state that its own events alone lead to, and the directory again holds exactly their files. */
  lemma {:induction false} RunOnDisk<T(!new)>(ws: seq<World<T>>, files: Files, run: seq<Event<T>>,
                                              ps': seq<Process<T>>, files': Files, cfgs: seq<Setting>,
                                              coder: BiCoder<T>)
    requires Faithful(coder) && NamesOk(cfgs) && AllKept(ws, files, cfgs, coder) && OrderedRun(ws, run, cfgs)
    ensures var ws', after := Final(ws, run, cfgs), FinalFiles(ws, files, run, cfgs, coder);
            && AllKept(ws', after, cfgs, coder)
            && (RunsTo(Processes(ws), files, run, ps', files', cfgs, coder) <==> ps' == Processes(ws') && files' == after)
    decreases |run|
  {
    hide AllKept, Moves, FilesAfter, Step, Processes, Faithful, NamesOk, ProcessOf;
    if run != [] {
      var e, ws1, files1 := run[0], Step(ws, run[0], cfgs), FilesAfter(ws, files, run[0], cfgs, coder);
      var k := e.queue;
      OneAllowed(ws, run, cfgs);
      ProcessesAfter(ws, e, cfgs);
      forall p2, files2
        ensures Moves(Processes(ws)[k], files, e.event, p2, files2, cfgs[k], coder)
                <==> p2 == ProcessOf(ws1[k]) && files2 == files1
      {
        StepOnDisk(ws, files, e, p2, files2, cfgs, coder);
      }
      StepOnDisk(ws, files, e, ProcessOf(ws1[k]), files1, cfgs, coder);
      RunOnDisk(ws1, files1, run[1..], ps', files', cfgs, coder);
    }
  }

  lemma OneAllowed<T>(ws: seq<World<T>>, run: seq<Event<T>>, cfgs: seq<Setting>)
    requires run != [] && OrderedRun(ws, run, cfgs)
    ensures Allowed(ws, run[0], cfgs) && |ws| == |cfgs| && run[0].queue < |ws|
    ensures OrderedRun(Step(ws, run[0], cfgs), run[1..], cfgs) && |Step(ws, run[0], cfgs)| == |ws|
  {
  }

  /** Each queue ends as if it had the directory for itself. */
  lemma {:induction false} AsIfAlone<T>(ws: seq<World<T>>, run: seq<Event<T>>, cfgs: seq<Setting>, k: nat)
    requires OrderedRun(ws, run, cfgs) && |ws| == |cfgs| && k < |ws|
    ensures |Final(ws, run, cfgs)| == |ws|
    ensures Final(ws, run, cfgs)[k] == StrayRuns.Final(ws[k], EventsOf(run, k), cfgs[k])
    ensures StrayRuns.OrderedRun(ws[k], EventsOf(run, k), cfgs[k])
    decreases |run|
  {
    hide StrayRuns.Step, StrayRuns.Legal, StrayRuns.Ordered;
    if run != [] {
      var ws1, rest := Step(ws, run[0], cfgs), EventsOf(run[1..], k);
      OneAllowed(ws, run, cfgs);
      AsIfAlone(ws1, run[1..], cfgs, k);
      if run[0].queue == k {
        assert ([run[0].event] + rest)[1..] == rest;
      } else {
        assert [] + rest == rest;
      }
    }
  }
}
