/** A map of waiting items in front of a persisted queue. */
module DelayedQueues {
  import opened Wrappers
  import opened Paging
  import opened Storage
  import opened PersistedQueues
  import DelayLine

  ghost function Least(s: set<nat>): (k: nat)
    requires s != {}
    ensures k in s && forall j :: j in s ==> k <= j
  {
    var x :| x in s;
    var rest := s - {x};
    assert s == rest + {x};
    if rest == {} then x
    else
      var k := Least(rest);
      if x < k then x else k
  }

  predicate KeysAscend(ks: seq<nat>) {
    forall i, j :: 0 <= i < j < |ks| ==> ks[i] < ks[j]
  }

  method LeastOf(s: set<nat>) returns (k: nat)
    requires s != {}
    ensures k in s && forall j :: j in s ==> k <= j
  {
    ghost var least := Least(s);
    k :| k in s && forall j :: j in s ==> k <= j;
  }

  /** What a move leaves in the map. */
  lemma MovedKeys<T>(s: DelayLine.State<T>, m: DelayLine.State<T>, force: bool, now: nat)
    requires m == if force then DelayLine.MoveAll(s) else DelayLine.Move(s, now)
    ensures forall k :: k in m.waiting <==> k in s.waiting && !force && (s.ready != [] || k >= now)
    ensures forall k :: k in m.waiting ==> m.waiting[k] == s.waiting[k]
  {
    if force { DelayLine.ForcedMove(s); } else { DelayLine.MoveExactly(s, now); }
  }

  /** The keys of a `std::map`, in the ascending order of its iteration. */
  method AscendingKeys<V>(m: map<nat, V>) returns (ks: seq<nat>)
    ensures forall k :: k in ks <==> k in m
    ensures KeysAscend(ks)
  {
    ks := [];
    var left := m.Keys;
    while left != {}
      invariant left <= m.Keys && KeysAscend(ks)
      invariant forall k :: k in m <==> k in ks || k in left
      invariant forall i, l :: 0 <= i < |ks| && l in left ==> ks[i] < l
      decreases left
    {
      var k := LeastOf(left);
      ks, left := ks + [k], left - {k};
    }
  }

  class DelayedQueue<T(!new)> {
    const persistedQ: PersistedQueue<T>
    var delayedMap: map<nat, seq<T>>

    ghost predicate Valid()
      reads this, persistedQ, persistedQ.firstPage, persistedQ.lastPage, persistedQ.disk, persistedQ.clock
    {
      persistedQ.Valid() && DelayLine.NoEmptyLists(delayedMap)
    }

    ghost function Model(): DelayLine.State<T>
      reads this, persistedQ, persistedQ.firstPage, persistedQ.lastPage
    {
      DelayLine.State(persistedQ.Items(), delayedMap)
    }

    ghost predicate AnyDue(s: DelayLine.State<T>, now: nat, force: bool) {
      (force || s.ready == []) && exists k :: k in s.waiting && (force || k < now)
    }

    constructor (queueName: string, disk: Disk, maxItemsPerPage: nat, clock: Clock, biCoder: BiCoder<T>,
                 ghost stored: seq<StoredPage<T>>)
      requires Faithful(biCoder) && clock.Valid() && '\n' !in queueName
      requires Recoverable(disk.files, Setting(queueName, maxItemsPerPage, clock.width), biCoder, stored)
      requires OlderThan(stored, clock.now)
      modifies disk
      ensures Valid() && !persistedQ.shutDown && fresh(persistedQ)
      ensures persistedQ.queueName == queueName && persistedQ.maxItemsPerPage == maxItemsPerPage
      ensures persistedQ.disk == disk && persistedQ.clock == clock && persistedQ.biCoder == biCoder
      ensures fresh(persistedQ.firstPage) && fresh(persistedQ.lastPage)
      ensures Model() == DelayLine.State(Flatten(stored), map[])
      ensures ExactWithState(old(disk.files), queueName, Names(queueName, stored)) ==> persistedQ.Clean()
      ensures Full(Load(stored).middle, Cap(maxItemsPerPage)) ==> persistedQ.FullPages()
      ensures SameElsewhere(old(disk.files), disk.files, queueName)
    {
      hide Faithful, OlderThan, Recoverable, ExactWithState, SameElsewhere, Flatten, Load, StartedFiles;
      delayedMap := map[];
      persistedQ := new PersistedQueue<T>(queueName, disk, maxItemsPerPage, clock, biCoder, stored);
    }

    /** `now` is the clock reading that decides what is due. When the persisted queue has been shut down, the
        first due item makes the move fail, with nothing moved. */
    method MoveExpired(force: bool) returns (r: Result<()>, ghost now: nat)
      requires Valid()
      modifies this`delayedMap, persistedQ, persistedQ.firstPage, persistedQ.lastPage, persistedQ.disk, persistedQ.clock
      ensures Valid() && persistedQ.shutDown == old(persistedQ.shutDown)
      ensures old(persistedQ.clock.now) <= now <= persistedQ.clock.now
      ensures r == if persistedQ.shutDown && AnyDue(old(Model()), now, force) then Failure(QueueShutDown) else Success(())
      ensures r.Success? ==> Model() == if force then DelayLine.MoveAll(old(Model())) else DelayLine.Move(old(Model()), now)
      ensures persistedQ.shutDown && !force ==> Model() == old(Model())
      ensures r.Failure? ==> Model() == old(Model())
      ensures r.Success? ==>
                forall k :: k in delayedMap <==> k in old(delayedMap) && !force && (old(Model()).ready != [] || k >= now)
      ensures forall k :: k in delayedMap ==> k in old(delayedMap) && delayedMap[k] == old(delayedMap)[k]
      ensures fresh({persistedQ.firstPage, persistedQ.lastPage} - {old(persistedQ.firstPage), old(persistedQ.lastPage)})
      ensures old(persistedQ.Clean()) ==> persistedQ.Clean()
      ensures old(persistedQ.FullPages()) ==> persistedQ.FullPages()
      ensures SameElsewhere(old(persistedQ.disk.files), persistedQ.disk.files, persistedQ.queueName)
      ensures persistedQ.shutDown ==> unchanged(persistedQ)
    {
      hide Inv, OnDisk, Faithful, SameElsewhere, Exact, Contents, PersistedQueue.Valid, PersistedQueue.Items,
           PersistedQueue.Clean, PersistedQueue.FullPages, PersistedQueue.Abs, PersistedQueue.ShapeNow,
           DelayLine.NoEmptyLists, DelayLine.Release, DelayLine.Span;
      ghost var s := Model();
      SameElsewhereReflexive(persistedQ.disk.files, persistedQ.queueName);
      now := persistedQ.clock.now;
      DelayLine.ReleaseNothing(s);
      if force || persistedQ.Empty() {
        persistedQ.ClockIsValid();
        var seconds := persistedQ.clock.Read();
        persistedQ.ClockRead();
        now := seconds;
        var mapKeys: seq<nat> := AscendingKeys(delayedMap);
        ghost var limit := if force then DelayLine.Top(delayedMap.Keys) else seconds;
        ghost var p: nat := 0;
        for i := 0 to |mapKeys|
          invariant Valid() && p <= limit && Model() == DelayLine.Release(s, p)
          invariant now <= persistedQ.clock.now
          invariant forall j :: 0 <= j < i ==> mapKeys[j] < p || mapKeys[j] >= limit
          invariant forall j :: i <= j < |mapKeys| ==> p <= mapKeys[j]
          invariant persistedQ.shutDown == old(persistedQ.shutDown)
          invariant persistedQ.shutDown ==> unchanged(persistedQ) && Model() == s && p == 0
          invariant fresh({persistedQ.firstPage, persistedQ.lastPage} - {old(persistedQ.firstPage), old(persistedQ.lastPage)})
          invariant old(persistedQ.Clean()) ==> persistedQ.Clean()
          invariant old(persistedQ.FullPages()) ==> persistedQ.FullPages()
          invariant SameElsewhere(old(persistedQ.disk.files), persistedQ.disk.files, persistedQ.queueName)
        {
          if force || mapKeys[i] < seconds {
            DelayLine.ReleaseKey(s, p, mapKeys[i]);
            ghost var files := persistedQ.disk.files;
            r := MoveList(mapKeys[i]);
            SameElsewhereTransitive(old(persistedQ.disk.files), files, persistedQ.disk.files, persistedQ.queueName);
            if r.Failure? { return; }
            p := mapKeys[i] + 1;
          }
        }
        DelayLine.ReleaseGap(s, p, limit);
      }
      MovedKeys(s, Model(), force, now);
      r := Success(());
    }

    /** The inner loop of `moveExpired`, and the erase after it. */
    method MoveList(k: nat) returns (r: Result<()>)
      requires Valid() && k in delayedMap
      modifies this`delayedMap, persistedQ, persistedQ.firstPage, persistedQ.lastPage, persistedQ.disk, persistedQ.clock
      ensures Valid() && persistedQ.shutDown == old(persistedQ.shutDown)
      ensures persistedQ.clock.Valid() && old(persistedQ.clock.now) <= persistedQ.clock.now
      ensures persistedQ.shutDown ==> r == Failure(QueueShutDown) && Model() == old(Model()) && unchanged(persistedQ)
      ensures !persistedQ.shutDown ==>
                && r == Success(())
                && Model() == DelayLine.State(old(Model()).ready + old(delayedMap)[k], old(delayedMap) - {k})
      ensures fresh({persistedQ.firstPage, persistedQ.lastPage} - {old(persistedQ.firstPage), old(persistedQ.lastPage)})
      ensures old(persistedQ.Clean()) ==> persistedQ.Clean()
      ensures old(persistedQ.FullPages()) ==> persistedQ.FullPages()
      ensures SameElsewhere(old(persistedQ.disk.files), persistedQ.disk.files, persistedQ.queueName)
    {
      hide Inv, OnDisk, Faithful, SameElsewhere, Exact, Contents, PersistedQueue.Valid, PersistedQueue.Items,
           PersistedQueue.Clean, PersistedQueue.FullPages, PersistedQueue.Abs, PersistedQueue.ShapeNow;
      persistedQ.ClockIsValid();
      SameElsewhereReflexive(persistedQ.disk.files, persistedQ.queueName);
      ghost var done := 0;
      ghost var list, ready := delayedMap[k], persistedQ.Items();
      while |delayedMap[k]| > 0
        invariant persistedQ.Valid() && done <= |list|
        invariant k in delayedMap && delayedMap == old(delayedMap)[k := list[done..]]
        invariant persistedQ.Items() == ready + list[..done]
        invariant persistedQ.shutDown == old(persistedQ.shutDown)
        invariant persistedQ.shutDown ==> unchanged(persistedQ) && done == 0 && delayedMap == old(delayedMap)
        invariant persistedQ.clock.Valid() && old(persistedQ.clock.now) <= persistedQ.clock.now
        invariant fresh({persistedQ.firstPage, persistedQ.lastPage} - {old(persistedQ.firstPage), old(persistedQ.lastPage)})
        invariant old(persistedQ.Clean()) ==> persistedQ.Clean()
        invariant old(persistedQ.FullPages()) ==> persistedQ.FullPages()
        invariant SameElsewhere(old(persistedQ.disk.files), persistedQ.disk.files, persistedQ.queueName)
        decreases |delayedMap[k]|
      {
        ghost var files := persistedQ.disk.files;
        r := persistedQ.PushBack(delayedMap[k][0]);
        SameElsewhereTransitive(old(persistedQ.disk.files), files, persistedQ.disk.files, persistedQ.queueName);
        if r.Failure? { return; }
        delayedMap := delayedMap[k := delayedMap[k][1..]];
        done := done + 1;
      }
      delayedMap := delayedMap - {k};
      r := Success(());
    }

    /** Enters the item at second `at`, then moves what is due at second `now`. After a shutdown an undelayed
        item is refused; a delayed one stays in the map, and the call fails if something is due. */
    method Push(p: T, seconds2delay: nat) returns (r: Result<()>, ghost at: nat, ghost now: nat)
      requires Valid()
      modifies this`delayedMap, persistedQ, persistedQ.firstPage, persistedQ.lastPage, persistedQ.disk, persistedQ.clock
      ensures Valid() && persistedQ.shutDown == old(persistedQ.shutDown)
      ensures old(persistedQ.clock.now) <= at <= now <= persistedQ.clock.now
      ensures !persistedQ.shutDown ==>
                r == Success(()) && Model() == DelayLine.Move(DelayLine.Enter(old(Model()), p, at, seconds2delay), now)
      ensures !persistedQ.shutDown && seconds2delay == 0 ==>
                persistedQ.Items() == old(persistedQ.Items()) + [p] && delayedMap == old(delayedMap)
      ensures persistedQ.shutDown && seconds2delay == 0 ==> r == Failure(QueueShutDown) && Model() == old(Model())
      ensures persistedQ.shutDown && seconds2delay > 0 ==>
                var entered := DelayLine.Enter(old(Model()), p, at, seconds2delay);
                r == (if AnyDue(entered, now, false) then Failure(QueueShutDown) else Success(())) && Model() == entered
      ensures fresh({persistedQ.firstPage, persistedQ.lastPage} - {old(persistedQ.firstPage), old(persistedQ.lastPage)})
      ensures old(persistedQ.Clean()) ==> persistedQ.Clean()
      ensures old(persistedQ.FullPages()) ==> persistedQ.FullPages()
      ensures SameElsewhere(old(persistedQ.disk.files), persistedQ.disk.files, persistedQ.queueName)
    {
      hide Inv, OnDisk, Faithful, SameElsewhere, Exact, Contents, PersistedQueue.Valid, PersistedQueue.Items,
           PersistedQueue.Clean, PersistedQueue.FullPages, PersistedQueue.Abs, PersistedQueue.ShapeNow, DelayLine.Release,
           DelayLine.Span, Full;
      persistedQ.ClockIsValid();
      var seconds := persistedQ.clock.Read();
      persistedQ.ClockRead();
      at, now := seconds, seconds;
      SameElsewhereReflexive(persistedQ.disk.files, persistedQ.queueName);
      var time2release := seconds + seconds2delay;
      if seconds2delay == 0 {
        r := persistedQ.PushBack(p);
        if r.Failure? { return; }
      } else {
        if time2release !in delayedMap {
          delayedMap := delayedMap[time2release := []];
        }
        delayedMap := delayedMap[time2release := delayedMap[time2release] + [p]];
      }
      assert Model() == DelayLine.Enter(old(Model()), p, at, seconds2delay);
      DelayLine.PushNowPosition(old(Model()), p);
      DelayLine.MoveExactly(DelayLine.PushNow(old(Model()), p), at);
      ghost var files := persistedQ.disk.files;
      r, now := MoveExpired(false);
      SameElsewhereTransitive(old(persistedQ.disk.files), files, persistedQ.disk.files, persistedQ.queueName);
    }

    method Pop() returns (r: Result<Option<T>>, ghost now: nat)
      requires Valid()
      modifies this`delayedMap, persistedQ, persistedQ.firstPage, persistedQ.lastPage, persistedQ.disk, persistedQ.clock
      ensures Valid() && persistedQ.shutDown == old(persistedQ.shutDown)
      ensures old(persistedQ.clock.now) <= now <= persistedQ.clock.now
      ensures persistedQ.shutDown ==> r == Failure(QueueShutDown)
      ensures !persistedQ.shutDown ==>
                (Model(), r) == (DelayLine.Pop(old(Model()), now).0, Success(DelayLine.Pop(old(Model()), now).1))
      ensures !persistedQ.shutDown ==>
                (r == Success(None) <==> old(Model()).ready == [] && forall k :: k in old(delayedMap) ==> k >= now)
      ensures fresh({persistedQ.firstPage, persistedQ.lastPage} - {old(persistedQ.firstPage), old(persistedQ.lastPage)})
      ensures old(persistedQ.Clean()) ==> persistedQ.Clean()
      ensures old(persistedQ.FullPages()) ==> persistedQ.FullPages()
      ensures SameElsewhere(old(persistedQ.disk.files), persistedQ.disk.files, persistedQ.queueName)
    {
      hide Inv, OnDisk, Faithful, SameElsewhere, Exact, Contents, PersistedQueue.Valid, PersistedQueue.Items,
           PersistedQueue.Clean, PersistedQueue.FullPages, PersistedQueue.Abs, PersistedQueue.ShapeNow, DelayLine.Span;
      var moved;
      moved, now := MoveExpired(false);
      if moved.Failure? { return Failure(moved.error), now; }
      ghost var files := persistedQ.disk.files;
      r := persistedQ.PopFront();
      SameElsewhereTransitive(old(persistedQ.disk.files), files, persistedQ.disk.files, persistedQ.queueName);
      DelayLine.PopIsNullIff(old(Model()), now);
    }

    /** `empty` speaks of the persisted queue, after moving what is due into it. */
    method Empty() returns (r: Result<bool>, ghost now: nat)
      requires Valid()
      modifies this`delayedMap, persistedQ, persistedQ.firstPage, persistedQ.lastPage, persistedQ.disk, persistedQ.clock
      ensures Valid() && persistedQ.shutDown == old(persistedQ.shutDown)
      ensures old(persistedQ.clock.now) <= now <= persistedQ.clock.now
      ensures r == if persistedQ.shutDown && AnyDue(old(Model()), now, false) then Failure(QueueShutDown)
                   else Success(DelayLine.Pop(old(Model()), now).1 == None)
      ensures Model() == if r.Failure? then old(Model()) else DelayLine.Move(old(Model()), now)
      ensures fresh({persistedQ.firstPage, persistedQ.lastPage} - {old(persistedQ.firstPage), old(persistedQ.lastPage)})
      ensures old(persistedQ.Clean()) ==> persistedQ.Clean()
      ensures old(persistedQ.FullPages()) ==> persistedQ.FullPages()
      ensures SameElsewhere(old(persistedQ.disk.files), persistedQ.disk.files, persistedQ.queueName)
    {
      var moved;
      moved, now := MoveExpired(false);
      if moved.Failure? { return Failure(moved.error), now; }
      r := Success(persistedQ.Empty());
    }

    method Size() returns (n: nat)
      requires Valid()
      ensures n == |DelayLine.Line(Model())| <==> Full(persistedQ.middle, persistedQ.maxItemsPerPage)
      ensures persistedQ.FullPages() ==>
                (n == |DelayLine.Line(Model())| <==> persistedQ.maxItemsPerPage >= 1 || persistedQ.persistedFileNames == [])
    {
      var waiting := NoLockMapSize();
      n := persistedQ.Size() + waiting;
    }

    method NoLockMapSize() returns (count: nat)
      requires Valid()
      ensures count == |DelayLine.InOrder(delayedMap)|
    {
      var mapKeys: seq<nat> := AscendingKeys(delayedMap);
      DelayLine.InOrderBelow(delayedMap, DelayLine.Top(delayedMap.Keys));
      count := 0;
      ghost var p: nat := 0;
      for i := 0 to |mapKeys|
        invariant p <= DelayLine.Top(delayedMap.Keys) && count == |DelayLine.Span(delayedMap, 0, p)|
        invariant forall j :: 0 <= j < i ==> mapKeys[j] < p
        invariant forall j :: i <= j < |mapKeys| ==> p <= mapKeys[j]
      {
        DelayLine.NextList(delayedMap, p, mapKeys[i]);
        count := count + |delayedMap[mapKeys[i]]|;
        p := mapKeys[i] + 1;
      }
      DelayLine.SpanSplit(delayedMap, 0, p, DelayLine.Top(delayedMap.Keys));
      DelayLine.SpanOfNothing(delayedMap, p, DelayLine.Top(delayedMap.Keys));
    }

    /** What `shutdown` and the destructor do: a forced move, then the shutdown of the persisted queue. The
        pages left on disk hold the persisted sequence and then the waiting items in release order. */
    method Shutdown() returns (r: Result<()>, ghost stored: seq<StoredPage<T>>)
      requires Valid()
      modifies this`delayedMap, persistedQ, persistedQ.firstPage, persistedQ.lastPage, persistedQ.disk, persistedQ.clock
      ensures Valid()
      ensures r == if old(persistedQ.shutDown) && old(delayedMap) != map[] then Failure(QueueShutDown) else Success(())
      ensures r.Success? ==>
                persistedQ.shutDown && delayedMap == map[] && Flatten(stored) == DelayLine.Line(old(Model()))
      ensures !old(persistedQ.shutDown) && old(persistedQ.Clean()) ==>
                && Recoverable(persistedQ.disk.files, persistedQ.Cfg(), persistedQ.biCoder, stored)
                && OlderThan(stored, persistedQ.clock.now + 1)
                && ExactWithState(persistedQ.disk.files, persistedQ.queueName, Names(persistedQ.queueName, stored))
      ensures SameElsewhere(old(persistedQ.disk.files), persistedQ.disk.files, persistedQ.queueName)
    {
      hide Inv, OnDisk, Faithful, SameElsewhere, Exact, Contents, PersistedQueue.Valid, PersistedQueue.Items,
           PersistedQueue.Clean, PersistedQueue.FullPages, PersistedQueue.ShapeNow, Recoverable, OlderThan,
           ShutdownPages, Flatten, ShutdownFiles,
           ExactWithState, DelayLine.InOrder;
      ghost var now;
      stored := [];
      DelayLine.ForcedMove(Model());
      r, now := MoveExpired(true);
      if r.Failure? { return; }
      ghost var m, files := persistedQ.Abs(), persistedQ.disk.files;
      persistedQ.Shutdown();
      SameElsewhereTransitive(old(persistedQ.disk.files), files, persistedQ.disk.files, persistedQ.queueName);
      stored := ShutdownPages(m.shape, NextStamp(m, persistedQ.clock.now));
    }
  }
}
