/** What a delayed queue does with time: items wait in a map by release time, and move to the persisted
    sequence when that has run empty. */
module DelayLine {
  import opened Wrappers
  import opened Subsequences

  /** `ready` is the persisted sequence, `waiting` the map from release times to lists. */
  datatype State<T> = State(ready: seq<T>, waiting: map<nat, seq<T>>)

  /** The items released at one second, in the order they were pushed. */
  function ListAt<T>(waiting: map<nat, seq<T>>, k: nat): seq<T> {
    if k in waiting then waiting[k] else []
  }

  /** The items released from second `from` on and before second `to`, in release order. */
  function Span<T>(waiting: map<nat, seq<T>>, from: nat, to: nat): seq<T>
    decreases to - from
  {
    if from >= to then [] else ListAt(waiting, from) + Span(waiting, from + 1, to)
  }

  /** A second after every key. */
  ghost function Top(keys: set<nat>): (top: nat)
    ensures forall k :: k in keys ==> k < top
  {
    if keys == {} then 0
    else
      var k :| k in keys;
      var rest := Top(keys - {k});
      assert keys == (keys - {k}) + {k};
      if k < rest then rest else k + 1
  }

  /** All waiting items, by release time, those of one time in the order they were pushed. */
  ghost function InOrder<T>(waiting: map<nat, seq<T>>): seq<T> {
    Span(waiting, 0, Top(waiting.Keys))
  }

  /** The whole queue as one line: what is persisted, then what waits. */
  ghost function Line<T>(s: State<T>): seq<T> {
    s.ready + InOrder(s.waiting)
  }

  predicate NoEmptyLists<T>(waiting: map<nat, seq<T>>) {
    forall k :: k in waiting ==> waiting[k] != []
  }

  // ---------- operations ----------

  function PushNow<T>(s: State<T>, x: T): State<T> {
    s.(ready := s.ready + [x])
  }

  function PushLater<T>(s: State<T>, x: T, release: nat): State<T> {
    s.(waiting := s.waiting[release := ListAt(s.waiting, release) + [x]])
  }

  /** `push` at second `at`, before the move at its end. */
  function Enter<T>(s: State<T>, x: T, at: nat, delay: nat): State<T> {
    if delay == 0 then PushNow(s, x) else PushLater(s, x, at + delay)
  }

  /** Everything with a release time before `now`. */
  function Release<T>(s: State<T>, now: nat): State<T> {
    State(s.ready + Span(s.waiting, 0, now), map k | k in s.waiting && k >= now :: s.waiting[k])
  }

  /** `moveExpired()` at second `now`: it moves only into an empty persisted queue. */
  function Move<T>(s: State<T>, now: nat): State<T> {
    if s.ready != [] then s else Release(s, now)
  }

  /** `moveExpired(true)`. */
  ghost function MoveAll<T>(s: State<T>): State<T> {
    Release(s, Top(s.waiting.Keys))
  }

  function Pop<T>(s: State<T>, now: nat): (State<T>, Option<T>) {
    var m := Move(s, now);
    if m.ready == [] then (m, None) else (m.(ready := m.ready[1..]), Some(m.ready[0]))
  }

  // ---------- spans ----------

  lemma {:induction false} SpanSplit<T>(waiting: map<nat, seq<T>>, a: nat, b: nat, c: nat)
    requires a <= b <= c
    ensures Span(waiting, a, c) == Span(waiting, a, b) + Span(waiting, b, c)
    decreases b - a
  {
    hide ListAt;
    if a == b {
      assert Span(waiting, a, b) == [] && [] + Span(waiting, b, c) == Span(waiting, b, c);
    } else {
      SpanSplit(waiting, a + 1, b, c);
      assert ListAt(waiting, a) + (Span(waiting, a + 1, b) + Span(waiting, b, c))
          == ListAt(waiting, a) + Span(waiting, a + 1, b) + Span(waiting, b, c);
    }
  }

  lemma {:induction false} SpanOfNothing<T>(waiting: map<nat, seq<T>>, a: nat, b: nat)
    requires forall k :: a <= k < b ==> k !in waiting
    ensures Span(waiting, a, b) == []
    decreases b - a
  {
    if a < b { SpanOfNothing(waiting, a + 1, b); }
  }

  lemma {:induction false} SpanSame<T>(v: map<nat, seq<T>>, w: map<nat, seq<T>>, a: nat, b: nat)
    requires forall k :: a <= k < b ==> ListAt(v, k) == ListAt(w, k)
    ensures Span(v, a, b) == Span(w, a, b)
    decreases b - a
  {
    if a < b { SpanSame(v, w, a + 1, b); }
  }

  lemma SpanOne<T>(waiting: map<nat, seq<T>>, k: nat)
    ensures Span(waiting, k, k + 1) == ListAt(waiting, k)
  {
    assert Span(waiting, k + 1, k + 1) == [];
  }

  lemma SpanAt<T>(waiting: map<nat, seq<T>>, k: nat)
    requires k in waiting
    ensures Span(waiting, k, k + 1) == waiting[k]
  {
    SpanOne(waiting, k);
  }

  /** Any bound beyond the keys will do. */
  lemma InOrderBelow<T>(waiting: map<nat, seq<T>>, bound: nat)
    requires forall k :: k in waiting ==> k < bound
    ensures InOrder(waiting) == Span(waiting, 0, bound)
  {
    var top := Top(waiting.Keys);
    if top <= bound {
      SpanSplit(waiting, 0, top, bound);
      SpanOfNothing(waiting, top, bound);
    } else {
      SpanSplit(waiting, 0, bound, top);
      SpanOfNothing(waiting, bound, top);
    }
  }

  // ---------- moving keeps the line ----------

  /** Releasing never loses, duplicates or reorders an item: the line stays as it is. */
  lemma ReleaseKeepsLine<T>(s: State<T>, now: nat)
    ensures Line(Release(s, now)) == Line(s)
    ensures NoEmptyLists(s.waiting) ==> NoEmptyLists(Release(s, now).waiting)
  {
    hide Span, InOrder;
    var left := Release(s, now).waiting;
    var bound := Top(s.waiting.Keys) + now;
    InOrderBelow(s.waiting, bound);
    InOrderBelow(left, bound);
    SpanSplit(s.waiting, 0, now, bound);
    SpanSplit(left, 0, now, bound);
    SpanOfNothing(left, 0, now);
    SpanSame(s.waiting, left, now, bound);
    assert s.ready + Span(s.waiting, 0, now) + Span(left, now, bound)
        == s.ready + (Span(s.waiting, 0, now) + Span(left, now, bound));
  }

  /** A forced move leaves nothing waiting: the persisted sequence is the whole line. */
  lemma ForcedMove<T>(s: State<T>)
    ensures MoveAll(s) == State(Line(s), map[])
  {
  }

  /** An unforced move takes everything that is due into an empty persisted queue, and nothing into one with items. */
  lemma MoveExactly<T>(s: State<T>, now: nat)
    ensures s.ready != [] ==> Move(s, now) == s
    ensures s.ready == [] ==> Move(s, now).ready == Span(s.waiting, 0, now)
    ensures s.ready == [] ==> forall k :: k in Move(s, now).waiting <==> k in s.waiting && k >= now
    ensures forall k :: k in Move(s, now).waiting ==> Move(s, now).waiting[k] == s.waiting[k]
  {
    assert [] + Span(s.waiting, 0, now) == Span(s.waiting, 0, now);
  }

  // ---------- where a push goes ----------

  /** An undelayed push goes behind everything that is persisted, and before everything that waits. */
  lemma PushNowPosition<T>(s: State<T>, x: T)
    ensures Line(PushNow(s, x)) == s.ready + [x] + InOrder(s.waiting)
    ensures PushNow(s, x).ready == s.ready + [x] && PushNow(s, x).waiting == s.waiting
  {
  }

  /** A delayed push goes behind everything that is released at or before its own time, and before
      everything that is released later. */
  lemma PushLaterPosition<T>(s: State<T>, x: T, release: nat, bound: nat)
    requires release < bound && forall k :: k in s.waiting ==> k < bound
    ensures var early, late := s.ready + Span(s.waiting, 0, release + 1), Span(s.waiting, release + 1, bound);
            Line(s) == early + late && Line(PushLater(s, x, release)) == early + [x] + late
  {
    hide Span, InOrder;
    var w := PushLater(s, x, release).waiting;
    InOrderBelow(s.waiting, bound);
    InOrderBelow(w, bound);
    SpanSplit(s.waiting, 0, release + 1, bound);
    SpanSplit(w, 0, release + 1, bound);
    SpanSame(s.waiting, w, release + 1, bound);
    SpanAppend(s.waiting, x, release);
    var early, late := Span(s.waiting, 0, release + 1), Span(s.waiting, release + 1, bound);
    assert s.ready + (early + [x] + late) == s.ready + early + [x] + late;
  }

  lemma SpanAppend<T>(waiting: map<nat, seq<T>>, x: T, release: nat)
    ensures Span(waiting[release := ListAt(waiting, release) + [x]], 0, release + 1) == Span(waiting, 0, release + 1) + [x]
  {
    var w := waiting[release := ListAt(waiting, release) + [x]];
    SpanSplit(waiting, 0, release, release + 1);
    SpanSplit(w, 0, release, release + 1);
    SpanSame(waiting, w, 0, release);
    SpanOne(waiting, release);
    SpanOne(w, release);
  }

  // ---------- readiness ----------

  lemma {:induction false} SpanEmptyIff<T>(waiting: map<nat, seq<T>>, a: nat, b: nat)
    requires NoEmptyLists(waiting)
    ensures Span(waiting, a, b) == [] <==> forall k :: k in waiting ==> !(a <= k < b)
    decreases b - a
  {
    if a < b {
      SpanEmptyIff(waiting, a + 1, b);
      assert ListAt(waiting, a) == [] <==> a !in waiting;
    }
  }

  /** pop returns null exactly when nothing is persisted and every waiting release time is now or later. */
  lemma PopIsNullIff<T>(s: State<T>, now: nat)
    requires NoEmptyLists(s.waiting)
    ensures Pop(s, now).1 == None <==> s.ready == [] && forall k :: k in s.waiting ==> k >= now
  {
    SpanEmptyIff(s.waiting, 0, now);
  }

  // ---------- runs ----------

  /** `at` and `now` are the two clock readings of a push. */
  datatype Event<T> =
    | PushAt(item: T, delay: nat, at: nat, now: nat)
    | PopAt(now: nat)
    | EmptyAt(now: nat)

  function Step<T>(s: State<T>, e: Event<T>): State<T> {
    match e
    case PushAt(x, delay, at, now) => Move(Enter(s, x, at, delay), now)
    case PopAt(now) => Pop(s, now).0
    case EmptyAt(now) => Move(s, now)
  }

  function Final<T>(s: State<T>, run: seq<Event<T>>): State<T>
    decreases |run|
  {
    if run == [] then s else Final(Step(s, run[0]), run[1..])
  }

  function StepPopped<T>(s: State<T>, e: Event<T>): seq<T> {
    if e.PopAt? && Pop(s, e.now).1.Some? then [Pop(s, e.now).1.value] else []
  }

  function Popped<T>(s: State<T>, run: seq<Event<T>>): seq<T>
    decreases |run|
  {
    if run == [] then [] else StepPopped(s, run[0]) + Popped(Step(s, run[0]), run[1..])
  }

  function StepPushed<T>(e: Event<T>): multiset<T> {
    if e.PushAt? then multiset{e.item} else multiset{}
  }

  function Pushed<T>(run: seq<Event<T>>): multiset<T> {
    if run == [] then multiset{} else StepPushed(run[0]) + Pushed(run[1..])
  }

  lemma MoveKeepsLine<T>(s: State<T>, now: nat)
    ensures Line(Move(s, now)) == Line(s)
    ensures NoEmptyLists(s.waiting) ==> NoEmptyLists(Move(s, now).waiting)
  {
    ReleaseKeepsLine(s, now);
  }

  /** A pop at any time takes the head of the line, or nothing. */
  lemma PopOfLine<T>(s: State<T>, now: nat)
    ensures Line(s) == StepPopped(s, PopAt(now)) + Line(Pop(s, now).0)
  {
    MoveKeepsLine(s, now);
    var m := Move(s, now);
    if m.ready != [] {
      assert m.ready == [m.ready[0]] + m.ready[1..];
    }
  }

  /** A push inserts its item somewhere in the line. */
  lemma EnterLine<T>(s: State<T>, x: T, at: nat, delay: nat) returns (early: seq<T>, late: seq<T>)
    ensures Line(s) == early + late && Line(Enter(s, x, at, delay)) == early + [x] + late
  {
    if delay == 0 {
      early, late := s.ready, InOrder(s.waiting);
    } else {
      var release := at + delay;
      var bound := Top(s.waiting.Keys) + release + 1;
      PushLaterPosition(s, x, release, bound);
      early := s.ready + Span(s.waiting, 0, release + 1);
      late := Span(s.waiting, release + 1, bound);
    }
  }

  /** One step inserts the pushed item somewhere in the line, or takes its head, or leaves it as it is. */
  lemma StepOfLine<T>(s: State<T>, e: Event<T>) returns (early: seq<T>, late: seq<T>)
    ensures Line(s) == early + late
    ensures StepPopped(s, e) + Line(Step(s, e)) == early + (if e.PushAt? then [e.item] else []) + late
  {
    match e
    case PushAt(x, delay, at, now) =>
      MoveKeepsLine(Enter(s, x, at, delay), now);
      early, late := EnterLine(s, x, at, delay);
    case PopAt(now) =>
      PopOfLine(s, now);
      early, late := Line(s), [];
    case EmptyAt(now) =>
      MoveKeepsLine(s, now);
      early, late := Line(s), [];
  }

  /** What a run hands out and what it leaves behind. */
  ghost function Seen<T>(s: State<T>, run: seq<Event<T>>): seq<T> {
    Popped(s, run) + Line(Final(s, run))
  }

  lemma SeenUnfolds<T>(s: State<T>, run: seq<Event<T>>)
    requires run != []
    ensures Seen(s, run) == StepPopped(s, run[0]) + Seen(Step(s, run[0]), run[1..])
  {
    hide Step, StepPopped, Line;
    var out, s', rest := StepPopped(s, run[0]), Step(s, run[0]), run[1..];
    Associate(out, Popped(s', rest), Line(Final(s', rest)));
  }

  /** Order over any run: the items in line come out, or stay, in the order of the line. */
  lemma {:induction false} RunKeepsOrder<T>(s: State<T>, run: seq<Event<T>>)
    ensures Subsequence(Line(s), Seen(s, run))
    decreases |run|
  {
    if run == [] {
      SubsequenceReflexive(Line(s));
      assert Seen(s, run) == Line(s);
    } else {
      var e, s' := run[0], Step(s, run[0]);
      RunKeepsOrder(s', run[1..]);
      var early, late := StepOfLine(s, e);
      var x := if e.PushAt? then [e.item] else [];
      SubsequencePrepend(StepPopped(s, e), Line(s'), Seen(s', run[1..]));
      SeenUnfolds(s, run);
      SubsequenceWithout(early, x, late, Seen(s, run));
    }
  }

  // ---------- what is persisted comes first ----------

  /** Of an operation's items only its pop can be taken from the persisted queue, and only at its head. */
  lemma StepOfReady<T>(s: State<T>, e: Event<T>)
    ensures s.ready + (if e.PushAt? && e.delay == 0 then [e.item] else []) <= StepPopped(s, e) + Step(s, e).ready
  {
    match e
    case PushAt(x, delay, at, now) =>
    case PopAt(now) => if s.ready != [] { assert [s.ready[0]] + s.ready[1..] == s.ready; }
    case EmptyAt(now) =>
  }

  /** In every run what is persisted comes out, or stays, before everything else: delayed items that become due and
      whatever is pushed later. */
  lemma {:induction false} ReadyComesFirst<T>(s: State<T>, run: seq<Event<T>>)
    ensures s.ready <= Seen(s, run)
    decreases |run|
  {
    hide Step, StepPopped, InOrder;
    if run != [] {
      var e, s' := run[0], Step(s, run[0]);
      var here := if e.PushAt? && e.delay == 0 then [e.item] else [];
      ReadyComesFirst(s', run[1..]);
      StepOfReady(s, e);
      SeenUnfolds(s, run);
      PrefixChain(s.ready + here, StepPopped(s, e), s'.ready, Seen(s', run[1..]));
    }
  }

  lemma PrefixChain<T>(ready: seq<T>, out: seq<T>, next: seq<T>, seen: seq<T>)
    requires ready <= out + next && next <= seen
    ensures ready <= out + seen
  {
    assert out + seen == out + next + seen[|next|..];
  }

  /** What waits when an operation looks for due items. */
  function Waiting<T>(s: State<T>, e: Event<T>): map<nat, seq<T>> {
    if e.PushAt? && e.delay > 0 then
      s.waiting[e.at + e.delay := ListAt(s.waiting, e.at + e.delay) + [e.item]]
    else
      s.waiting
  }

  lemma StepOfDue<T>(s: State<T>, e: Event<T>)
    requires s.ready == [] && (e.PushAt? ==> e.delay > 0)
    ensures Span(Waiting(s, e), 0, e.now) == StepPopped(s, e) + Step(s, e).ready
  {
    hide Span;
    var s1 := if e.PushAt? then Enter(s, e.item, e.at, e.delay) else s;
    assert s1.ready == [] && s1.waiting == Waiting(s, e);
    MoveExactly(s1, e.now);
    var due := Span(s1.waiting, 0, e.now);
    assert e.PopAt? && due != [] ==> [due[0]] + due[1..] == due;
  }

  /** All that is due when an operation finds nothing persisted comes out, in release order, before anything that is
      pushed later. */
  lemma DueComeFirst<T>(s: State<T>, run: seq<Event<T>>)
    requires s.ready == [] && run != [] && (run[0].PushAt? ==> run[0].delay > 0)
    ensures Span(Waiting(s, run[0]), 0, run[0].now) <= Seen(s, run)
  {
    hide Span, Waiting, Step, StepPopped, Seen;
    var e, s' := run[0], Step(s, run[0]);
    StepOfDue(s, e);
    ReadyComesFirst(s', run[1..]);
    SeenUnfolds(s, run);
    PrefixChain(Span(Waiting(s, e), 0, e.now), StepPopped(s, e), s'.ready, Seen(s', run[1..]));
  }

  /** After a push and after `empty`, nothing is due while nothing is persisted. */
  lemma NothingDueLeft<T>(s: State<T>, e: Event<T>)
    requires !e.PopAt? && Step(s, e).ready == []
    ensures forall k :: k in Step(s, e).waiting ==> k >= e.now
  {
    hide Span;
    var s1 := if e.PushAt? then Enter(s, e.item, e.at, e.delay) else s;
    MoveExactly(s1, e.now);
  }

  /** The items pushed without a delay, in the order they were pushed. */
  function Undelayed<T>(run: seq<Event<T>>): seq<T> {
    if run == [] then []
    else (if run[0].PushAt? && run[0].delay == 0 then [run[0].item] else []) + Undelayed(run[1..])
  }

  /** In every run the persisted items and then the undelayed pushes come out, or stay, in that order. */
  lemma {:induction false} UndelayedInOrder<T>(s: State<T>, run: seq<Event<T>>)
    ensures Subsequence(s.ready + Undelayed(run), Seen(s, run))
    decreases |run|
  {
    hide InOrder, Subsequence, Step, StepPopped;
    if run == [] {
      assert s.ready + [] == s.ready && Seen(s, run) == s.ready + InOrder(s.waiting);
      SubsequenceReflexive(s.ready);
      SubsequenceBehind(s.ready, s.ready, InOrder(s.waiting));
    } else {
      var e, s', later := run[0], Step(s, run[0]), Undelayed(run[1..]);
      UndelayedInOrder(s', run[1..]);
      StepOfReady(s, e);
      SeenUnfolds(s, run);
      OneStepInOrder(s.ready, if e.PushAt? && e.delay == 0 then [e.item] else [], StepPopped(s, e), s'.ready, later,
                     Seen(s', run[1..]));
    }
  }

  lemma OneStepInOrder<T>(ready: seq<T>, here: seq<T>, out: seq<T>, next: seq<T>, later: seq<T>, seen: seq<T>)
    requires ready + here <= out + next && Subsequence(next + later, seen)
    ensures Subsequence(ready + (here + later), out + seen)
  {
    hide Subsequence;
    var head := ready + here;
    var rest := (out + next)[|head|..];
    SubsequencePrepend(out, next + later, seen);
    Regroup(out, next, head, rest, later);
    SubsequenceWithout(head, rest, later, out + seen);
    Associate(ready, here, later);
  }

  lemma Regroup<T>(out: seq<T>, next: seq<T>, head: seq<T>, rest: seq<T>, later: seq<T>)
    requires head <= out + next && rest == (out + next)[|head|..]
    ensures out + (next + later) == head + rest + later
  {
    assert out + next == head + rest;
    Associate(out, next, later);
  }

  lemma Associate<T>(a: seq<T>, b: seq<T>, c: seq<T>)
    ensures a + b + c == a + (b + c)
  {
  }

  lemma StepConserves<T>(s: State<T>, e: Event<T>)
    ensures multiset(StepPopped(s, e) + Line(Step(s, e))) == multiset(Line(s)) + StepPushed(e)
  {
    var early, late := StepOfLine(s, e);
  }

  /** Conservation over any run: what comes out and stays is what was there and what was pushed. */
  lemma {:induction false} RunConserves<T>(s: State<T>, run: seq<Event<T>>)
    ensures multiset(Seen(s, run)) == multiset(Line(s)) + Pushed(run)
    decreases |run|
  {
    if run == [] {
      assert Seen(s, run) == Line(s);
    } else {
      var e, s', rest := run[0], Step(s, run[0]), run[1..];
      RunConserves(s', rest);
      StepConserves(s, e);
      SeenUnfolds(s, run);
      Chain(StepPopped(s, e), Line(s'), Seen(s', rest), multiset(Line(s)), StepPushed(e), Pushed(rest));
    }
  }

  lemma Chain<T>(out: seq<T>, next: seq<T>, rest: seq<T>, here: multiset<T>, pushed: multiset<T>, later: multiset<T>)
    requires multiset(out + next) == here + pushed && multiset(rest) == multiset(next) + later
    ensures multiset(out + rest) == here + (pushed + later)
  {
    assert multiset(out + rest) == multiset(out) + multiset(next) + later;
    assert multiset(out + next) == multiset(out) + multiset(next);
  }

  /** Of the items waiting together, those with the earlier release time come out first, and those of one
      time in the order they were pushed. */
  lemma EarlierIsFirst<T>(s: State<T>, run: seq<Event<T>>, j: nat, k: nat)
    requires j in s.waiting && k in s.waiting && j < k
    ensures Subsequence(s.waiting[j] + s.waiting[k], Seen(s, run))
  {
    var w := s.waiting;
    var a, b, c := LineAround(s, j, k);
    RunKeepsOrder(s, run);
    SubsequenceOfParts(a, w[j], b, w[k], c, Seen(s, run));
  }

  lemma LineAround<T>(s: State<T>, j: nat, k: nat) returns (a: seq<T>, b: seq<T>, c: seq<T>)
    requires j in s.waiting && k in s.waiting && j < k
    ensures Line(s) == a + s.waiting[j] + b + s.waiting[k] + c
  {
    hide Span, ListAt, NoEmptyLists;
    var top, w := Top(s.waiting.Keys), s.waiting;
    assert j < top && k < top && InOrder(w) == Span(w, 0, top);
    SpanSplit(w, 0, j, top);
    SpanSplit(w, j, j + 1, top);
    SpanSplit(w, j + 1, k, top);
    SpanSplit(w, k, k + 1, top);
    SpanAt(w, j);
    SpanAt(w, k);
    a, b, c := s.ready + Span(w, 0, j), Span(w, j + 1, k), Span(w, k + 1, top);
    Flat(s.ready, Span(w, 0, j), w[j], b, w[k], c);
  }

  lemma Flat<T>(r: seq<T>, a: seq<T>, x: seq<T>, b: seq<T>, y: seq<T>, c: seq<T>)
    ensures r + (a + (x + (b + (y + c)))) == r + a + x + b + y + c
  {
    assert r + (a + (x + (b + (y + c)))) == (r + a) + (x + (b + (y + c)));
    assert (r + a) + (x + (b + (y + c))) == ((r + a) + x) + (b + (y + c));
  }

  // ---------- releasing key by key ----------

  lemma ReleaseNothing<T>(s: State<T>)
    ensures Release(s, 0) == s
  {
    assert (map k | k in s.waiting && k >= 0 :: s.waiting[k]) == s.waiting;
  }

  /** With no key in between, two bounds release the same. */
  lemma ReleaseGap<T>(s: State<T>, a: nat, b: nat)
    requires a <= b && forall k :: a <= k < b ==> k !in s.waiting
    ensures Release(s, a) == Release(s, b)
  {
    SpanSplit(s.waiting, 0, a, b);
    SpanOfNothing(s.waiting, a, b);
    assert Release(s, a).waiting == Release(s, b).waiting;
  }

  /** Releasing the next key moves its list and erases it. */
  lemma ReleaseKey<T>(s: State<T>, a: nat, k: nat)
    requires a <= k && k in s.waiting && forall j :: a <= j < k ==> j !in s.waiting
    ensures Release(s, k + 1) == State(Release(s, a).ready + s.waiting[k], Release(s, a).waiting - {k})
    ensures k in Release(s, a).waiting && Release(s, a).waiting[k] == s.waiting[k]
  {
    hide Span;
    NextList(s.waiting, a, k);
    assert Release(s, k + 1).waiting == Release(s, a).waiting - {k};
    assert s.ready + (Span(s.waiting, 0, a) + s.waiting[k]) == s.ready + Span(s.waiting, 0, a) + s.waiting[k];
  }

  lemma NextList<T>(waiting: map<nat, seq<T>>, a: nat, k: nat)
    requires a <= k && k in waiting && forall j :: a <= j < k ==> j !in waiting
    ensures Span(waiting, 0, k + 1) == Span(waiting, 0, a) + waiting[k]
  {
    SpanSplit(waiting, 0, k, k + 1);
    SpanSplit(waiting, 0, a, k);
    SpanOfNothing(waiting, a, k);
    SpanOne(waiting, k);
  }

  // ---------- no early release ----------

  /** An item together with the second its delay ends in, if it has a delay. */
  datatype Ticket<T> = Ticket(item: T, release: Option<nat>)

  ghost predicate Timely<T(!new)>(s: State<Ticket<T>>, time: nat) {
    && (forall t <- s.ready :: t.release.Some? ==> t.release.value < time)
    && (forall k :: k in s.waiting ==> forall t <- s.waiting[k] :: t.release == Some(k))
  }

  /** The clock does not go back, and tickets say what the push says. */
  predicate Stamped<T>(run: seq<Event<Ticket<T>>>, time: nat)
    decreases |run|
  {
    run == [] ||
    (&& time <= run[0].now
     && (run[0].PushAt? ==>
           && time <= run[0].at <= run[0].now
           && run[0].item.release == if run[0].delay == 0 then None else Some(run[0].at + run[0].delay))
     && Stamped(run[1..], run[0].now))
  }

  lemma {:induction false} SpanTimely<T>(waiting: map<nat, seq<Ticket<T>>>, a: nat, b: nat)
    requires forall k :: k in waiting ==> forall t <- waiting[k] :: t.release == Some(k)
    ensures forall t <- Span(waiting, a, b) :: t.release.Some? && t.release.value < b
    decreases b - a
  {
    if a < b { SpanTimely(waiting, a + 1, b); }
  }

  lemma MoveTimely<T(!new)>(s: State<Ticket<T>>, time: nat, now: nat)
    requires Timely(s, time) && time <= now
    ensures Timely(Move(s, now), now)
  {
    SpanTimely(s.waiting, 0, now);
  }

  lemma EnterTimely<T(!new)>(s: State<Ticket<T>>, x: Ticket<T>, at: nat, delay: nat, time: nat)
    requires Timely(s, time)
    requires x.release == if delay == 0 then None else Some(at + delay)
    ensures Timely(Enter(s, x, at, delay), time)
  {
  }

  /** What each pop returns, with the second it happens in. */
  function Receipts<T>(s: State<T>, run: seq<Event<T>>): seq<(T, nat)>
    decreases |run|
  {
    if run == [] then []
    else
      (if run[0].PopAt? && Pop(s, run[0].now).1.Some? then [(Pop(s, run[0].now).1.value, run[0].now)] else [])
      + Receipts(Step(s, run[0]), run[1..])
  }

  /** Without a forced move, no delayed item is popped before its release time has passed. */
  lemma {:induction false} NeverEarly<T(!new)>(s: State<Ticket<T>>, run: seq<Event<Ticket<T>>>, time: nat)
    requires Timely(s, time) && Stamped(run, time)
    ensures forall i :: 0 <= i < |Receipts(s, run)| ==>
              var (ticket, now) := Receipts(s, run)[i];
              ticket.release.Some? ==> ticket.release.value < now
    decreases |run|
  {
    if run != [] {
      var e, s' := run[0], Step(s, run[0]);
      match e {
        case PushAt(x, delay, at, now) =>
          EnterTimely(s, x, at, delay, time);
          MoveTimely(Enter(s, x, at, delay), time, now);
        case PopAt(now) => MoveTimely(s, time, now);
        case EmptyAt(now) => MoveTimely(s, time, now);
      }
      NeverEarly(s', run[1..], e.now);
    }
  }
}
