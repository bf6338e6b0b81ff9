/** What a priority queue does to its levels: clamping, taking from the first non-empty level,
    putting the last popped item back. */
module PriorityLevels {
  import opened Wrappers

  /** `lastLevel` is `None` for a `lastPopLevel` of -1. */
  datatype State<T> = State(levels: seq<seq<T>>, lastLevel: Option<nat>, lastObject: Option<T>)

  datatype Ticket<T> = Ticket(item: T, priority: nat)

  function Clamp(priority: nat, levels: nat): nat
    requires levels >= 1
  {
    if priority >= levels then levels - 1 else priority
  }

  function Concat<T>(levels: seq<seq<T>>): seq<T> {
    if levels == [] then [] else levels[0] + Concat(levels[1..])
  }

  /** The first level with an item in it, or the number of levels. */
  function FirstLevel<T>(levels: seq<seq<T>>): (k: nat)
    ensures k <= |levels|
    ensures forall i :: 0 <= i < k ==> levels[i] == []
    ensures k < |levels| ==> levels[k] != []
  {
    if levels == [] || levels[0] != [] then 0 else 1 + FirstLevel(levels[1..])
  }

  function Push<T>(s: State<T>, x: T, priority: nat): State<T>
    requires |s.levels| >= 1
  {
    var k := Clamp(priority, |s.levels|);
    s.(levels := s.levels[k := s.levels[k] + [x]])
  }

  function Pop<T>(s: State<T>): (r: State<T>)
    requires FirstLevel(s.levels) < |s.levels|
    ensures |r.levels| == |s.levels| && r.lastLevel.Some? && r.lastLevel.value < |r.levels| && r.lastObject.Some?
  {
    var k := FirstLevel(s.levels);
    State(s.levels[k := s.levels[k][1..]], Some(k), Some(s.levels[k][0]))
  }

  predicate StateOk<T>(s: State<T>) {
    |s.levels| >= 1 && (s.lastLevel.Some? ==> s.lastLevel.value < |s.levels| && s.lastObject.Some?)
  }

  function PushBackLastPop<T>(s: State<T>): (r: State<T>)
    requires StateOk(s)
    ensures |r.levels| == |s.levels|
  {
    match s.lastLevel
    case None => s
    case Some(k) => State(s.levels[k := s.levels[k] + [s.lastObject.value]], None, None)
  }

  // ---------- draining ----------

  lemma {:induction false} PopTakesHead<T>(levels: seq<seq<T>>)
    ensures FirstLevel(levels) == |levels| <==> Concat(levels) == []
    ensures var k := FirstLevel(levels);
            k < |levels| ==> Concat(levels) == [levels[k][0]] + Concat(levels[k := levels[k][1..]])
  {
    if levels != [] {
      var k, here, rest := FirstLevel(levels), levels[0], Concat(levels[1..]);
      if here != [] {
        assert levels[0 := here[1..]][1..] == levels[1..];
        assert [here[0]] + (here[1..] + rest) == here + rest;
      } else {
        PopTakesHead(levels[1..]);
        assert here + rest == rest;
        if k < |levels| {
          assert levels[k := levels[k][1..]][1..] == levels[1..][k - 1 := levels[k][1..]];
        }
      }
    }
  }

  /** The items that pops return until the queue is empty. */
  function Drain<T>(s: State<T>, pops: nat): seq<T>
    decreases pops
  {
    if pops == 0 || FirstLevel(s.levels) == |s.levels| then []
    else [Pop(s).lastObject.value] + Drain(Pop(s), pops - 1)
  }

  /** From any state, popping as often as there are items yields the levels one after the other. */
  lemma {:induction false} DrainIsConcat<T>(s: State<T>, pops: nat)
    requires pops >= |Concat(s.levels)|
    ensures Drain(s, pops) == Concat(s.levels)
    decreases pops
  {
    PopTakesHead(s.levels);
    if pops != 0 && FirstLevel(s.levels) < |s.levels| {
      DrainIsConcat(Pop(s), pops - 1);
    }
  }

  // ---------- stable sorting ----------

  function PushAll<T>(s: State<T>, tickets: seq<Ticket<T>>): State<T>
    requires |s.levels| >= 1
    decreases |tickets|
  {
    if tickets == [] then s else PushAll(Push(s, tickets[0].item, tickets[0].priority), tickets[1..])
  }

  /** The lesser of the priority and the last level. */
  function Key<T>(t: Ticket<T>, levels: nat): nat
    requires levels >= 1
  {
    if t.priority < levels - 1 then t.priority else levels - 1
  }

  /** The tickets of one level, in their order. */
  function OfLevel<T>(tickets: seq<Ticket<T>>, k: nat, levels: nat): (r: seq<Ticket<T>>)
    requires levels >= 1
    ensures forall t <- r :: Key(t, levels) == k
  {
    if tickets == [] then []
    else (if Key(tickets[0], levels) == k then [tickets[0]] else []) + OfLevel(tickets[1..], k, levels)
  }

  function Items<T>(tickets: seq<Ticket<T>>): (items: seq<T>)
    ensures |items| == |tickets|
    ensures forall i :: 0 <= i < |tickets| ==> items[i] == tickets[i].item
  {
    seq(|tickets|, i requires 0 <= i < |tickets| => tickets[i].item)
  }

  predicate SortedByKey<T>(tickets: seq<Ticket<T>>, levels: nat)
    requires levels >= 1
  {
    forall i, j :: 0 <= i < j < |tickets| ==> Key(tickets[i], levels) <= Key(tickets[j], levels)
  }

  /** Sorted by level, with the tickets of each level in the order they were given. */
  ghost predicate IsStableSort<T(!new)>(sorted: seq<Ticket<T>>, tickets: seq<Ticket<T>>, levels: nat)
    requires levels >= 1
  {
    SortedByKey(sorted, levels) && forall k: nat :: OfLevel(sorted, k, levels) == OfLevel(tickets, k, levels)
  }

  lemma {:induction false} PushAllLevels<T>(s: State<T>, tickets: seq<Ticket<T>>, k: nat)
    requires k < |s.levels|
    ensures var n := |s.levels|;
            var s' := PushAll(s, tickets);
            |s'.levels| == n && s'.levels[k] == s.levels[k] + Items(OfLevel(tickets, k, n))
    decreases |tickets|
  {
    hide Push, Key, Items;
    if tickets == [] {
      ItemsOfNothing<T>();
    } else {
      var n, t := |s.levels|, tickets[0];
      PushLevel(s, t, k);
      PushAllLevels(Push(s, t.item, t.priority), tickets[1..], k);
      var here, rest := if Key(t, n) == k then [t] else [], OfLevel(tickets[1..], k, n);
      ItemsConcat(here, rest);
      assert s.levels[k] + Items(here) + Items(rest) == s.levels[k] + (Items(here) + Items(rest));
    }
  }

  /** One push appends to the level of its key. */
  lemma PushLevel<T>(s: State<T>, t: Ticket<T>, k: nat)
    requires k < |s.levels|
    ensures var s', n := Push(s, t.item, t.priority), |s.levels|;
            |s'.levels| == n && s'.levels[k] == s.levels[k] + Items(if Key(t, n) == k then [t] else [])
  {
    assert Items([t]) == [t.item];
  }

  lemma ItemsOfNothing<T>()
    ensures Items<T>([]) == []
  {
  }

  lemma ItemsConcat<T>(a: seq<Ticket<T>>, b: seq<Ticket<T>>)
    ensures Items(a + b) == Items(a) + Items(b)
  {
  }

  /** The levels from `k` on, laid out one after the other. */
  function FromLevel<T>(tickets: seq<Ticket<T>>, k: nat, levels: nat): seq<Ticket<T>>
    requires 1 <= levels && k <= levels
    decreases levels - k
  {
    if k == levels then [] else OfLevel(tickets, k, levels) + FromLevel(tickets, k + 1, levels)
  }

  lemma {:induction false} OfLevelAbove<T>(tickets: seq<Ticket<T>>, k: nat, levels: nat)
    requires levels >= 1 && forall i :: 0 <= i < |tickets| ==> k < Key(tickets[i], levels)
    ensures OfLevel(tickets, k, levels) == []
  {
    if tickets != [] { OfLevelAbove(tickets[1..], k, levels); }
  }

  lemma OfLevelCons<T>(t: Ticket<T>, rest: seq<Ticket<T>>, k: nat, levels: nat)
    requires levels >= 1
    ensures OfLevel([t] + rest, k, levels) == (if Key(t, levels) == k then [t] else []) + OfLevel(rest, k, levels)
  {
    assert ([t] + rest)[1..] == rest;
  }

  lemma {:induction false} LeastGoesFirst<T>(t: Ticket<T>, rest: seq<Ticket<T>>, k: nat, levels: nat)
    requires 1 <= levels && k <= levels
    requires forall i :: 0 <= i < |rest| ==> Key(t, levels) <= Key(rest[i], levels)
    ensures FromLevel([t] + rest, k, levels)
            == (if k <= Key(t, levels) then [t] else []) + FromLevel(rest, k, levels)
    decreases levels - k
  {
    hide OfLevel, Key;
    if k < levels {
      LeastGoesFirst(t, rest, k + 1, levels);
      OfLevelCons(t, rest, k, levels);
      var here, behind := OfLevel(rest, k, levels), FromLevel(rest, k + 1, levels);
      assert ([t] + here) + behind == [t] + (here + behind);
      if k < Key(t, levels) { OfLevelAbove(rest, k, levels); }
    } else {
      KeyBound(t, levels);
    }
  }

  lemma KeyBound<T>(t: Ticket<T>, levels: nat)
    requires levels >= 1
    ensures Key(t, levels) < levels
  {
  }

  /** There is only one stable sort: it is the levels one after the other. */
  lemma {:induction false} SortedIsFromLevel<T>(sorted: seq<Ticket<T>>, levels: nat)
    requires levels >= 1 && SortedByKey(sorted, levels)
    ensures sorted == FromLevel(sorted, 0, levels)
  {
    if sorted == [] {
      FromLevelOfNothing<T>(0, levels);
    } else {
      SortedIsFromLevel(sorted[1..], levels);
      assert sorted == [sorted[0]] + sorted[1..];
      LeastGoesFirst(sorted[0], sorted[1..], 0, levels);
    }
  }

  lemma {:induction false} FromLevelOfNothing<T>(k: nat, levels: nat)
    requires 1 <= levels && k <= levels
    ensures FromLevel<T>([], k, levels) == []
    decreases levels - k
  {
    if k < levels { FromLevelOfNothing<T>(k + 1, levels); }
  }

  lemma {:induction false} SameLevels<T>(a: seq<Ticket<T>>, b: seq<Ticket<T>>, k: nat, levels: nat)
    requires 1 <= levels && k <= levels
    requires forall j: nat :: OfLevel(a, j, levels) == OfLevel(b, j, levels)
    ensures FromLevel(a, k, levels) == FromLevel(b, k, levels)
    decreases levels - k
  {
    if k < levels { SameLevels(a, b, k + 1, levels); }
  }

  lemma {:induction false} ConcatIsFromLevel<T>(levels: seq<seq<T>>, tickets: seq<Ticket<T>>, k: nat, n: nat)
    requires 1 <= n == |levels| && k <= n
    requires forall i :: 0 <= i < n ==> levels[i] == Items(OfLevel(tickets, i, n))
    ensures Concat(levels[k..]) == Items(FromLevel(tickets, k, n))
    decreases n - k
  {
    if k < n {
      ConcatIsFromLevel(levels, tickets, k + 1, n);
      ItemsConcat(OfLevel(tickets, k, n), FromLevel(tickets, k + 1, n));
      assert levels[k..][1..] == levels[k + 1..];
    }
  }

  lemma {:induction false} OfLevelConcat<T>(a: seq<Ticket<T>>, b: seq<Ticket<T>>, k: nat, levels: nat)
    requires levels >= 1
    ensures OfLevel(a + b, k, levels) == OfLevel(a, k, levels) + OfLevel(b, k, levels)
  {
    if a == [] {
      assert a + b == b;
    } else {
      assert (a + b)[1..] == a[1..] + b;
      OfLevelConcat(a[1..], b, k, levels);
    }
  }

  lemma {:induction false} OfLevelOfSame<T>(tickets: seq<Ticket<T>>, j: nat, k: nat, levels: nat)
    requires levels >= 1 && forall i :: 0 <= i < |tickets| ==> Key(tickets[i], levels) == j
    ensures OfLevel(tickets, k, levels) == if j == k then tickets else []
  {
    if tickets != [] { OfLevelOfSame(tickets[1..], j, k, levels); }
  }

  lemma {:induction false} FromLevelKeys<T>(tickets: seq<Ticket<T>>, k: nat, levels: nat)
    requires 1 <= levels && k <= levels
    ensures SortedByKey(FromLevel(tickets, k, levels), levels)
    ensures forall t <- FromLevel(tickets, k, levels) :: k <= Key(t, levels)
    decreases levels - k
  {
    hide Key, OfLevel;
    if k < levels {
      FromLevelKeys(tickets, k + 1, levels);
      var here, rest := OfLevel(tickets, k, levels), FromLevel(tickets, k + 1, levels);
      forall i | 0 <= i < |rest| ensures k < Key(rest[i], levels) {
        assert rest[i] in rest;
      }
      forall i | 0 <= i < |here| ensures Key(here[i], levels) == k {
        assert here[i] in here;
      }
    }
  }

  lemma {:induction false} FromLevelOfLevel<T>(tickets: seq<Ticket<T>>, k: nat, j: nat, levels: nat)
    requires 1 <= levels && k <= levels
    ensures OfLevel(FromLevel(tickets, k, levels), j, levels) == if k <= j < levels then OfLevel(tickets, j, levels) else []
    decreases levels - k
  {
    hide Key, OfLevel;
    if k == levels {
      NothingOfLevel<T>(j, levels);
    } else {
      var here, rest := OfLevel(tickets, k, levels), FromLevel(tickets, k + 1, levels);
      FromLevelOfLevel(tickets, k + 1, j, levels);
      forall i | 0 <= i < |here| ensures Key(here[i], levels) == k {
        assert here[i] in here;
      }
      OfLevelOfSame(here, k, j, levels);
      OfLevelConcat(here, rest, j, levels);
    }
  }

  lemma NothingOfLevel<T>(k: nat, levels: nat)
    requires levels >= 1
    ensures OfLevel<T>([], k, levels) == []
  {
  }

  /** Stable sorts exist: the levels one after the other are one. */
  lemma LevelsAreStableSort<T(!new)>(tickets: seq<Ticket<T>>, levels: nat)
    requires levels >= 1
    ensures IsStableSort(FromLevel(tickets, 0, levels), tickets, levels)
  {
    FromLevelKeys(tickets, 0, levels);
    forall j: nat ensures OfLevel(FromLevel(tickets, 0, levels), j, levels) == OfLevel(tickets, j, levels) {
      FromLevelOfLevel(tickets, 0, j, levels);
      if j >= levels { NoSuchLevel(tickets, j, levels); }
    }
  }

  lemma {:induction false} NoSuchLevel<T>(tickets: seq<Ticket<T>>, k: nat, levels: nat)
    requires 1 <= levels <= k
    ensures OfLevel(tickets, k, levels) == []
  {
    if tickets != [] { NoSuchLevel(tickets[1..], k, levels); }
  }

  /** Pushes into an empty queue, then pops: the stable sort of the pushes by clamped priority. */
  lemma DrainIsStableSort<T(!new)>(levels: nat, tickets: seq<Ticket<T>>, sorted: seq<Ticket<T>>)
    requires levels >= 1 && IsStableSort(sorted, tickets, levels)
    ensures var s := PushAll(State(seq(levels, _ => []), None, None), tickets);
            forall pops :: pops >= |Concat(s.levels)| ==> Drain(s, pops) == Items(sorted)
  {
    var s0: State<T> := State(seq(levels, _ => []), None, None);
    var s := PushAll(s0, tickets);
    PushAllSize(s0, tickets);
    forall k | 0 <= k < levels ensures s.levels[k] == Items(OfLevel(tickets, k, levels)) {
      PushAllLevels(s0, tickets, k);
      assert [] + Items(OfLevel(tickets, k, levels)) == Items(OfLevel(tickets, k, levels));
    }
    ConcatIsFromLevel(s.levels, tickets, 0, levels);
    assert s.levels[0..] == s.levels;
    SameLevels(sorted, tickets, 0, levels);
    SortedIsFromLevel(sorted, levels);
    forall pops | pops >= |Concat(s.levels)| ensures Drain(s, pops) == Items(sorted) {
      DrainIsConcat(s, pops);
    }
  }

  lemma {:induction false} PushAllSize<T>(s: State<T>, tickets: seq<Ticket<T>>)
    requires |s.levels| >= 1
    ensures |PushAll(s, tickets).levels| == |s.levels|
    ensures PushAll(s, tickets).lastLevel == s.lastLevel && PushAll(s, tickets).lastObject == s.lastObject
    decreases |tickets|
  {
    if tickets != [] { PushAllSize(Push(s, tickets[0].item, tickets[0].priority), tickets[1..]); }
  }

  // ---------- conservation ----------

  datatype Event<T> = PushOf(item: T, priority: nat) | PopOne | Requeue

  predicate Legal<T>(s: State<T>, e: Event<T>) {
    StateOk(s) && (e.PopOne? ==> FirstLevel(s.levels) < |s.levels|)
  }

  function Step<T>(s: State<T>, e: Event<T>): State<T>
    requires Legal(s, e)
  {
    match e
    case PushOf(x, priority) => Push(s, x, priority)
    case PopOne => Pop(s)
    case Requeue => PushBackLastPop(s)
  }

  predicate LegalRun<T>(s: State<T>, run: seq<Event<T>>)
    decreases |run|
  {
    run == [] || (Legal(s, run[0]) && LegalRun(Step(s, run[0]), run[1..]))
  }

  function Final<T>(s: State<T>, run: seq<Event<T>>): State<T>
    requires LegalRun(s, run)
    decreases |run|
  {
    if run == [] then s else Final(Step(s, run[0]), run[1..])
  }

  function StepPushed<T>(e: Event<T>): multiset<T> {
    if e.PushOf? then multiset{e.item} else multiset{}
  }

  function StepPopped<T>(s: State<T>, e: Event<T>): multiset<T>
    requires Legal(s, e)
  {
    if e.PopOne? then multiset{Pop(s).lastObject.value} else multiset{}
  }

  function StepRequeued<T>(s: State<T>, e: Event<T>): multiset<T>
    requires Legal(s, e)
  {
    if e.Requeue? then InHand(s) else multiset{}
  }

  function Pushed<T>(run: seq<Event<T>>): multiset<T> {
    if run == [] then multiset{} else StepPushed(run[0]) + Pushed(run[1..])
  }

  function Popped<T>(s: State<T>, run: seq<Event<T>>): multiset<T>
    requires LegalRun(s, run)
    decreases |run|
  {
    if run == [] then multiset{} else StepPopped(s, run[0]) + Popped(Step(s, run[0]), run[1..])
  }

  function Requeued<T>(s: State<T>, run: seq<Event<T>>): multiset<T>
    requires LegalRun(s, run)
    decreases |run|
  {
    if run == [] then multiset{} else StepRequeued(s, run[0]) + Requeued(Step(s, run[0]), run[1..])
  }

  /** The popped item that `push_back_last_pop` would put back. */
  function InHand<T>(s: State<T>): multiset<T>
    requires StateOk(s)
  {
    if s.lastLevel.Some? then multiset{s.lastObject.value} else multiset{}
  }

  function Held<T>(s: State<T>): multiset<T> {
    multiset(Concat(s.levels))
  }

  lemma {:induction false} AppendHeld<T>(levels: seq<seq<T>>, k: nat, x: T)
    requires k < |levels|
    ensures multiset(Concat(levels[k := levels[k] + [x]])) == multiset(Concat(levels)) + multiset{x}
  {
    var levels' := levels[k := levels[k] + [x]];
    if k == 0 {
      assert levels'[1..] == levels[1..];
    } else {
      assert levels'[1..] == levels[1..][k - 1 := levels[1..][k - 1] + [x]];
      AppendHeld(levels[1..], k - 1, x);
    }
  }

  lemma PopConserves<T>(s: State<T>)
    requires StateOk(s) && FirstLevel(s.levels) < |s.levels|
    ensures Held(Pop(s)) + multiset{Pop(s).lastObject.value} == Held(s)
  {
    hide FirstLevel, Concat;
    PopTakesHead(s.levels);
    var k := FirstLevel(s.levels);
    assert multiset([s.levels[k][0]] + Concat(Pop(s).levels)) == multiset{s.levels[k][0]} + Held(Pop(s));
  }

  lemma StepConserves<T>(s: State<T>, e: Event<T>)
    requires Legal(s, e)
    ensures StateOk(Step(s, e))
    ensures Held(Step(s, e)) + StepPopped(s, e) == Held(s) + StepPushed(e) + StepRequeued(s, e)
    ensures StepRequeued(s, e) + InHand(Step(s, e)) <= InHand(s) + StepPopped(s, e)
  {
    hide FirstLevel, Concat;
    match e
    case PushOf(x, priority) => AppendHeld(s.levels, Clamp(priority, |s.levels|), x);
    case PopOne => PopConserves(s);
    case Requeue =>
      if s.lastLevel.Some? { AppendHeld(s.levels, s.lastLevel.value, s.lastObject.value); }
  }

  /** Over any run, what is held and what was popped is what was there, pushed and requeued; and nothing is
      requeued more often than it was popped. */
  lemma {:induction false} RunConserves<T(!new)>(s: State<T>, run: seq<Event<T>>)
    requires StateOk(s) && LegalRun(s, run)
    ensures StateOk(Final(s, run))
    ensures Held(Final(s, run)) + Popped(s, run) == Held(s) + Pushed(run) + Requeued(s, run)
    ensures Requeued(s, run) + InHand(Final(s, run)) <= InHand(s) + Popped(s, run)
    decreases |run|
  {
    if run != [] {
      var e, s', rest := run[0], Step(s, run[0]), run[1..];
      StepConserves(s, e);
      RunConserves(s', rest);
      Balance(Held(Final(s', rest)), Popped(s', rest), Held(s'), Pushed(rest), Requeued(s', rest),
              Held(s), StepPopped(s, e), StepPushed(e), StepRequeued(s, e));
      AtMost(Requeued(s', rest), InHand(Final(s', rest)), InHand(s'), Popped(s', rest),
             StepRequeued(s, e), InHand(s), StepPopped(s, e));
    }
  }

  lemma Balance<T>(last: multiset<T>, popped: multiset<T>, next: multiset<T>, pushed: multiset<T>,
                   requeued: multiset<T>, held: multiset<T>, pop: multiset<T>, push: multiset<T>, requeue: multiset<T>)
    requires last + popped == next + pushed + requeued
    requires next + pop == held + push + requeue
    ensures last + (pop + popped) == held + (push + pushed) + (requeue + requeued)
  {
    calc {
      last + (pop + popped);
      (last + popped) + pop;
      (next + pushed + requeued) + pop;
      (next + pop) + (pushed + requeued);
      (held + push + requeue) + (pushed + requeued);
      held + (push + pushed) + (requeue + requeued);
    }
  }

  lemma AtMost<T(!new)>(requeued: multiset<T>, last: multiset<T>, next: multiset<T>, popped: multiset<T>,
                        requeue: multiset<T>, hand: multiset<T>, pop: multiset<T>)
    requires requeued + last <= next + popped && requeue + next <= hand + pop
    ensures (requeue + requeued) + last <= hand + (pop + popped)
  {
    forall x: T ensures ((requeue + requeued) + last)[x] <= (hand + (pop + popped))[x] {
      assert (requeued + last)[x] <= (next + popped)[x] && (requeue + next)[x] <= (hand + pop)[x];
    }
  }

  /** `push_back_last_pop` puts the popped item back once, at the tail of the level it came from: with any
      pushes in between, that level has everything it had and gained, rotated by one; a second call, with no
      pop in between, does nothing. */
  lemma RequeueOnce<T>(s: State<T>, tickets: seq<Ticket<T>>)
    requires |s.levels| >= 1 && FirstLevel(s.levels) < |s.levels|
    ensures var k, n := FirstLevel(s.levels), |s.levels|;
            var s' := PushAll(Pop(s), tickets);
            && StateOk(s') && |s'.levels| == n
            && PushBackLastPop(s').levels[k] == s.levels[k][1..] + Items(OfLevel(tickets, k, n)) + [s.levels[k][0]]
            && (forall i :: 0 <= i < n && i != k ==> PushBackLastPop(s').levels[i] == s.levels[i] + Items(OfLevel(tickets, i, n)))
            && PushBackLastPop(s').lastLevel == None && PushBackLastPop(s').lastObject == None
            && PushBackLastPop(PushBackLastPop(s')) == PushBackLastPop(s')
  {
    var n := |s.levels|;
    PushAllSize(Pop(s), tickets);
    forall i | 0 <= i < n
      ensures PushAll(Pop(s), tickets).levels[i] == Pop(s).levels[i] + Items(OfLevel(tickets, i, n))
    {
      PushAllLevels(Pop(s), tickets, i);
    }
  }
}
