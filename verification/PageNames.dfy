/** The names of page files and state files: `seqNumber`, `persistToFile`, `makeStateFilePath`
    and the file-name pattern of the constructor. */
module PageNames {
  import opened NameOrder

  // ---------- decimal strings ----------

  predicate IsDigit(c: char) {
    '0' <= c <= '9'
  }

  function Digit(d: nat): char
    requires d < 10
  {
    (d + 48) as char
  }

  function Dec(n: nat): (s: string)
    ensures |s| >= 1
    ensures forall c <- s :: IsDigit(c)
  {
    if n < 10 then [Digit(n)] else Dec(n / 10) + [Digit(n % 10)]
  }

  /** `n` in exactly `w` digits. */
  function Digits(n: nat, w: nat): (s: string)
    ensures |s| == w
  {
    if w == 0 then "" else Digits(n / 10, w - 1) + [Digit(n % 10)]
  }

  predicate Fits(n: nat, w: nat) {
    if w == 0 then n == 0 else Fits(n / 10, w - 1)
  }

  lemma {:induction false} DecIsDigits(n: nat)
    ensures Fits(n, |Dec(n)|) && Dec(n) == Digits(n, |Dec(n)|)
  {
    if n < 10 {
      assert Digits(n, 1) == Digits(0, 0) + [Digit(n)];
      assert Fits(0, 0);
    } else {
      DecIsDigits(n / 10);
    }
  }

  lemma {:induction false} DigitsOrder(m: nat, n: nat, w: nat)
    requires Fits(m, w) && Fits(n, w) && m < n
    ensures LexLess(Digits(m, w), Digits(n, w))
  {
    if m / 10 < n / 10 {
      DigitsOrder(m / 10, n / 10, w - 1);
      LexLessLeading(Digits(m / 10, w - 1), Digits(n / 10, w - 1), [Digit(m % 10)], [Digit(n % 10)]);
    } else {
      LexLessCommonPrefix(Digits(m / 10, w - 1), [Digit(m % 10)], [Digit(n % 10)]);
    }
  }

  lemma DigitsInjective(m: nat, n: nat, w: nat)
    requires Fits(m, w) && Fits(n, w) && Digits(m, w) == Digits(n, w)
    ensures m == n
  {
    LexLessIrreflexive(Digits(m, w));
    if m < n { DigitsOrder(m, n, w); }
    if n < m { DigitsOrder(n, m, w); }
  }

  lemma DecInjective(m: nat, n: nat)
    requires Dec(m) == Dec(n)
    ensures m == n
  {
    DecIsDigits(m);
    DecIsDigits(n);
    DigitsInjective(m, n, |Dec(m)|);
  }

  lemma DecOrder(m: nat, n: nat)
    requires m < n && |Dec(m)| == |Dec(n)|
    ensures LexLess(Dec(m), Dec(n))
  {
    DecIsDigits(m);
    DecIsDigits(n);
    DigitsOrder(m, n, |Dec(m)|);
  }

  // ---------- sequence numbers ----------

  /** What a page file is named after: "0" for the first page at shutdown, or the second and the
      count within that second. */
  datatype Stamp = Zero | At(sec: nat, count: nat)

  /** The count as `seqNumber` writes it: four digits below 10000, as many as it takes from there. */
  function Count(c: nat): (s: string)
    ensures forall d <- s :: IsDigit(d)
  {
    (if c < 1000 then "0" else "") + (if c < 100 then "0" else "") + (if c < 10 then "0" else "") + Dec(c)
  }

  function SeqString(s: Stamp): (r: string)
    ensures forall d <- r :: IsDigit(d)
    ensures r != ""
  {
    match s
    case Zero => "0"
    case At(sec, count) => Dec(sec) + Count(count)
  }

  lemma DecLength(c: nat)
    ensures |Dec(c)| == 1 <==> c < 10
    ensures |Dec(c)| == 2 <==> 10 <= c < 100
    ensures |Dec(c)| == 3 <==> 100 <= c < 1000
    ensures |Dec(c)| == 4 <==> 1000 <= c < 10000
  {
    assert c >= 10 ==> |Dec(c)| == 1 + |Dec(c / 10)|;
    assert c >= 100 ==> |Dec(c / 10)| == 1 + |Dec(c / 10 / 10)|;
    assert c >= 1000 ==> |Dec(c / 10 / 10)| == 1 + |Dec(c / 10 / 10 / 10)|;
    assert c >= 10000 ==> |Dec(c / 10 / 10 / 10)| == 1 + |Dec(c / 10 / 10 / 10 / 10)|;
  }

  lemma CountIsDigits(c: nat)
    requires c < 10000
    ensures Fits(c, 4) && Count(c) == Digits(c, 4)
  {
    DecIsDigits(c);
    DecLength(c);
    var w := |Dec(c)|;
    if w < 4 { WidenDigits(c, w); }
    if w < 3 { WidenDigits(c, w + 1); }
    if w < 2 { WidenDigits(c, w + 2); }
  }

  lemma {:induction false} WidenDigits(n: nat, w: nat)
    requires Fits(n, w)
    ensures Fits(n, w + 1) && Digits(n, w + 1) == "0" + Digits(n, w)
  {
    if w == 0 {
      assert Digits(n, 1) == Digits(0, 0) + [Digit(0)];
      assert Fits(n, 1) == Fits(0, 0);
    } else {
      WidenDigits(n / 10, w - 1);
    }
  }

  lemma CountLength(c: nat)
    ensures |Count(c)| >= 4
    ensures |Count(c)| == 4 <==> c < 10000
    ensures c >= 10000 ==> Count(c) == Dec(c)
  {
    DecLength(c);
  }

  lemma OnlyZeroIsZero(sec: nat, c: nat)
    ensures SeqString(At(sec, c)) != "0"
  {
    CountLength(c);
  }

  lemma CountInjective(c: nat, d: nat)
    requires Count(c) == Count(d)
    ensures c == d
  {
    CountLength(c);
    CountLength(d);
    if c < 10000 {
      CountIsDigits(c);
      CountIsDigits(d);
      DigitsInjective(c, d, 4);
    } else {
      DecInjective(c, d);
    }
  }

  /** `n` without its last `k` decimal digits. */
  function Leading(n: nat, k: nat): nat {
    if k == 0 then n else Leading(n / 10, k - 1)
  }

  /** Whether the count `c` is written to sort before the greater count `d`: not above what `d` is cut to at
      the length `c` is written with. */
  predicate Precedes(c: nat, d: nat) {
    |Count(c)| <= |Count(d)| && c <= Leading(d, |Count(d)| - |Count(c)|)
  }

  lemma {:induction false} LeadingDigits(n: nat, w: nat, k: nat)
    requires Fits(n, w) && k <= w
    ensures Fits(Leading(n, k), w - k) && Digits(n, w)[..w - k] == Digits(Leading(n, k), w - k)
  {
    if k > 0 {
      LeadingDigits(n / 10, w - 1, k - 1);
      assert Digits(n, w)[..w - k] == Digits(n / 10, w - 1)[..w - k];
    } else {
      assert Digits(n, w)[..w] == Digits(n, w);
    }
  }

  lemma {:induction false} DecLonger(m: nat, n: nat)
    requires m <= n
    ensures |Dec(m)| <= |Dec(n)|
  {
    if m >= 10 { DecLonger(m / 10, n / 10); }
  }

  lemma CountFits(c: nat)
    ensures Fits(c, |Count(c)|) && Count(c) == Digits(c, |Count(c)|)
  {
    CountLength(c);
    if c < 10000 { CountIsDigits(c); } else { DecIsDigits(c); }
  }

  lemma {:induction false} LexLessPrefix(a: string, b: string)
    requires b != ""
    ensures LexLess(a, a + b)
  {
    if a == "" {
      assert a + b == b;
    } else {
      assert (a + b)[1..] == a[1..] + b;
      LexLessPrefix(a[1..], b);
    }
  }

  /** The exact condition under which two counts of one second are written in order. */
  lemma CountOrderIff(c: nat, d: nat)
    requires c < d
    ensures LexLess(Count(c), Count(d)) <==> Precedes(c, d)
  {
    hide Count, LexLess, Digits, Fits, Leading;
    var m, n := |Count(c)|, |Count(d)|;
    CountsLonger(c, d);
    CountFits(c);
    CountFits(d);
    LeadingDigits(d, n, n - m);
    var p, rest := Leading(d, n - m), Count(d)[m..];
    assert Count(d) == Digits(p, m) + rest && Count(c) == Digits(c, m) + "";
    if c < p {
      DigitsOrder(c, p, m);
      LexLessLeading(Digits(c, m), Digits(p, m), "", rest);
    } else if c == p {
      LeadingNothing(d);
      LexLessPrefix(Count(c), rest);
    } else {
      DigitsOrder(p, c, m);
      LexLessLeading(Digits(p, m), Digits(c, m), rest, "");
      LexLessAsymmetric(Count(d), Count(c));
    }
  }

  lemma LeadingNothing(d: nat)
    ensures Leading(d, 0) == d
  {
  }

  lemma CountsLonger(c: nat, d: nat)
    requires c <= d
    ensures |Count(c)| <= |Count(d)|
  {
    CountLength(c);
    CountLength(d);
    DecLonger(c, d);
  }

  /** Below 10000 the written order is the numeric one. */
  lemma FewPrecede(c: nat, d: nat)
    requires c < d < 10000
    ensures Precedes(c, d)
  {
    CountLength(c);
    CountLength(d);
  }

  /** Creation order: the "0" page goes before every other, the others by second and count. */
  predicate Before(a: Stamp, b: Stamp) {
    match (a, b)
    case (_, Zero) => false
    case (Zero, At(_, _)) => true
    case (At(s, c), At(t, d)) => s < t || (s == t && c < d)
  }

  /** A stamp from a clock whose seconds, never zero, have `width` digits. */
  predicate Wide(s: Stamp, width: nat) {
    s.At? ==> 1 <= s.sec && |Dec(s.sec)| == width
  }

  lemma {:induction false} DecLeadingDigit(n: nat)
    requires 1 <= n
    ensures '1' <= Dec(n)[0]
  {
    if n >= 10 { DecLeadingDigit(n / 10); }
  }

  /** Names never collide, whatever the count, as long as seconds keep one digit width. */
  lemma SeqStringInjective(a: Stamp, b: Stamp, width: nat)
    requires Wide(a, width) && Wide(b, width)
    requires SeqString(a) == SeqString(b)
    ensures a == b
  {
    if a.At? { CountLength(a.count); }
    if b.At? { CountLength(b.count); }
    if a.At? && b.At? {
      assert Dec(a.sec) == SeqString(a)[..width] && Dec(b.sec) == SeqString(b)[..width];
      assert Count(a.count) == SeqString(a)[width..] && Count(b.count) == SeqString(b)[width..];
      DecInjective(a.sec, b.sec);
      CountInjective(a.count, b.count);
    }
  }

  /** Whether a name sorts before a later one: always in different seconds, by the written counts in one. */
  predicate InNameOrder(a: Stamp, b: Stamp) {
    a.At? && b.At? && a.sec == b.sec ==> Precedes(a.count, b.count)
  }

  /** The exact condition under which the string order of two names is their creation order. */
  lemma SeqStringOrder(a: Stamp, b: Stamp, width: nat)
    requires Wide(a, width) && Wide(b, width) && Before(a, b)
    ensures LexLess(SeqString(a), SeqString(b)) <==> InNameOrder(a, b)
  {
    if a.Zero? {
      DecLeadingDigit(b.sec);
    } else if a.sec < b.sec {
      DecOrder(a.sec, b.sec);
      LexLessLeading(Dec(a.sec), Dec(b.sec), Count(a.count), Count(b.count));
    } else {
      CountOrderIff(a.count, b.count);
      LexLessCommonPrefix(Dec(a.sec), Count(a.count), Count(b.count));
    }
  }

  // ---------- seconds of different widths ----------

  function Value(digits: string): nat
    requires forall d <- digits :: IsDigit(d)
  {
    if digits == "" then 0
    else
      var n := |digits| - 1;
      assert IsDigit(digits[n]);
      10 * Value(digits[..n]) + (digits[n] as int - 48)
  }

  lemma {:induction false} DecOfValue(digits: string)
    requires digits != "" && forall d <- digits :: IsDigit(d)
    requires digits[0] != '0'
    ensures Value(digits) >= 1 && Dec(Value(digits)) == digits
  {
    var n := |digits| - 1;
    var init := digits[..n];
    var last := digits[n] as int - 48;
    assert digits == init + [digits[n]] && IsDigit(digits[n]);
    assert Digit(last) == digits[n];
    if n > 0 {
      DecOfValue(init);
      assert Value(digits) / 10 == Value(init) && Value(digits) % 10 == last;
    } else {
      assert Value(digits) == last;
    }
  }

  /** Decimal strings are read back as their number, and have no leading zero. */
  lemma {:induction false} ValueOfDec(n: nat)
    ensures Value(Dec(n)) == n && (n > 0 ==> Dec(n)[0] != '0') && |Dec(0)| == 1
  {
    if n < 10 {
      assert Value(Dec(n)) == 10 * Value("") + n;
    } else {
      ValueOfDec(n / 10);
      assert Dec(n)[..|Dec(n)| - 1] == Dec(n / 10);
    }
  }

  /** Two seconds have a name in common exactly when the digits of the later one begin with those of the
      earlier one and go on with a digit other than zero. */
  lemma NamesCollideIff(s: nat, t: nat)
    requires 1 <= s < t
    ensures (exists c, d :: SeqString(At(s, c)) == SeqString(At(t, d)))
            <==> |Dec(s)| < |Dec(t)| && Dec(t)[..|Dec(s)|] == Dec(s) && Dec(t)[|Dec(s)|] != '0'
  {
    hide Dec, Count, Value;
    if c, d :| SeqString(At(s, c)) == SeqString(At(t, d)) {
      CollisionExtends(s, t, c, d);
    }
    if |Dec(s)| < |Dec(t)| && Dec(t)[..|Dec(s)|] == Dec(s) && Dec(t)[|Dec(s)|] != '0' {
      var r := Dec(t)[|Dec(s)|..];
      var c := Value(r + "0000");
      DecOfValue(r + "0000");
      LongCount(c);
      ZeroCount();
      assert Dec(s) + (r + "0000") == Dec(t) + "0000";
      assert SeqString(At(s, c)) == SeqString(At(t, 0));
    }
  }

  lemma ZeroCount()
    ensures Count(0) == "0000"
  {
  }

  lemma LongCount(c: nat)
    requires |Dec(c)| >= 5
    ensures Count(c) == Dec(c)
  {
    DecLength(c);
  }

  lemma CollisionExtends(s: nat, t: nat, c: nat, d: nat)
    requires 1 <= s < t && SeqString(At(s, c)) == SeqString(At(t, d))
    ensures |Dec(s)| < |Dec(t)| && Dec(t)[..|Dec(s)|] == Dec(s) && Dec(t)[|Dec(s)|] != '0'
  {
    hide Dec, Count;
    var x := SeqString(At(s, c));
    var m, n := |Dec(s)|, |Dec(t)|;
    DecLonger(s, t);
    assert x[..m] == Dec(s) && x[m..] == Count(c) && x[..n] == Dec(t) && x[n..] == Count(d);
    assert m < n by {
      if m == n { DecInjective(s, t); }
    }
    CountLength(c);
    CountLength(d);
    DecLeadingDigit(c);
    assert Dec(t)[..m] == x[..m] && Dec(t)[m] == x[m] == Count(c)[0];
  }

  /** An instance: second 1 with count 10000, second 11 with count 0. */
  lemma WidthIsNeeded()
    ensures SeqString(At(1, 10000)) == SeqString(At(11, 0))
  {
    assert Dec(1) == "1" && Dec(11) == "11";
    assert Dec(100) == "100" && Dec(1000) == "1000" && Dec(10000) == "10000";
    ZeroCount();
    LongCount(10000);
    hide Dec, Count;
    assert "1" + "10000" == "11" + "0000";
  }

  /** The first `n` names of one second. */
  function NamesOfSecond(sec: nat, n: nat): (r: seq<string>)
    ensures |r| == n
    ensures forall i :: 0 <= i < n ==> r[i] == SeqString(At(sec, i))
  {
    seq(n, i requires 0 <= i => SeqString(At(sec, i)))
  }

  lemma CountsOutOfOrder()
    ensures !Precedes(9999, 10000) && !LexLess(Count(9999), Count(10000))
  {
    CountLength(9999);
    DecLength(1000);
    assert |Dec(10000)| == 5;
    assert Leading(10000, 1) == 1000;
    CountOrderIff(9999, 10000);
  }

  /** The names of one second sort in creation order exactly when there are at most 10000 of them. */
  lemma NamesOfSecondAscend(sec: nat, n: nat)
    requires 1 <= sec
    ensures Ascending(NamesOfSecond(sec, n)) <==> n <= 10000
  {
    hide Count, LexLess, Dec;
    var names := NamesOfSecond(sec, n);
    if n <= 10000 {
      forall i, j | 0 <= i < j < n ensures LexLess(names[i], names[j]) {
        FewPrecede(i, j);
        SeqStringOrder(At(sec, i), At(sec, j), |Dec(sec)|);
      }
    } else {
      CountsOutOfOrder();
      LexLessCommonPrefix(Dec(sec), Count(9999), Count(10000));
      assert !LexLess(names[9999], names[10000]);
    }
  }

  // ---------- the names of a whole process ----------

  /** The stamps `seqNumber` gives out at the given clock readings, from given counters. */
  function Stamps(lastSeq: nat, count: nat, times: seq<nat>): (r: seq<Stamp>)
    ensures |r| == |times|
    ensures forall i :: 0 <= i < |r| ==> r[i].At?
    decreases |times|
  {
    if times == [] then []
    else
      var next := if lastSeq == times[0] then count + 1 else 0;
      [At(times[0], next)] + Stamps(times[0], next, times[1..])
  }

  predicate ClockRun(times: seq<nat>, width: nat) {
    && (forall i :: 0 <= i < |times| ==> 1 <= times[i] && |Dec(times[i])| == width)
    && (forall i, j :: 0 <= i < j < |times| ==> times[i] <= times[j])
  }

  lemma {:induction false} StampsIncrease(lastSeq: nat, count: nat, times: seq<nat>, width: nat)
    requires ClockRun(times, width) && (times != [] ==> lastSeq <= times[0])
    ensures forall i :: 0 <= i < |times| ==> Wide(Stamps(lastSeq, count, times)[i], width)
    ensures forall i :: 0 <= i < |times| ==> Before(At(lastSeq, count), Stamps(lastSeq, count, times)[i])
    ensures forall i, j :: 0 <= i < j < |times| ==> Before(Stamps(lastSeq, count, times)[i], Stamps(lastSeq, count, times)[j])
    decreases |times|
  {
    if times != [] {
      var next := if lastSeq == times[0] then count + 1 else 0;
      var first, rest := At(times[0], next), Stamps(times[0], next, times[1..]);
      assert forall i :: 0 <= i < |times| - 1 ==> times[1..][i] == times[i + 1];
      StampsIncrease(times[0], next, times[1..], width);
      assert Stamps(lastSeq, count, times) == [first] + rest;
      forall i | 0 <= i < |rest| ensures Before(At(lastSeq, count), rest[i]) {
        assert Before(first, rest[i]);
      }
    }
  }

  /** Under a clock that does not go back and keeps its digit width, no two names of a process are equal,
      however many there are in a second; and they come in ascending order exactly when the counts of every
      second are written in order. */
  lemma GeneratedNames(lastSeq: nat, count: nat, times: seq<nat>, width: nat)
    requires ClockRun(times, width) && (times != [] ==> lastSeq <= times[0])
    ensures var r := Stamps(lastSeq, count, times);
            && (forall i, j :: 0 <= i < j < |r| ==> SeqString(r[i]) != SeqString(r[j]))
            && ((forall i, j :: 0 <= i < j < |r| ==> LexLess(SeqString(r[i]), SeqString(r[j])))
                <==> forall i, j :: 0 <= i < j < |r| ==> InNameOrder(r[i], r[j]))
  {
    hide Dec, SeqString, LexLess, Stamps, InNameOrder;
    var r := Stamps(lastSeq, count, times);
    StampsIncrease(lastSeq, count, times, width);
    forall i, j | 0 <= i < j < |r|
      ensures SeqString(r[i]) != SeqString(r[j])
      ensures LexLess(SeqString(r[i]), SeqString(r[j])) <==> InNameOrder(r[i], r[j])
    {
      assert Before(r[i], r[j]);
      if SeqString(r[i]) == SeqString(r[j]) { SeqStringInjective(r[i], r[j], width); }
      SeqStringOrder(r[i], r[j], width);
    }
  }

  lemma {:induction false} StampSeconds(lastSeq: nat, count: nat, times: seq<nat>, i: nat)
    requires i < |times|
    ensures Stamps(lastSeq, count, times)[i].sec == times[i]
    decreases |times|
  {
    if i > 0 {
      StampSeconds(times[0], if lastSeq == times[0] then count + 1 else 0, times[1..], i - 1);
    }
  }

  /** Within one second the counts go up by one. */
  lemma {:induction false} StampsOfSecond(count: nat, sec: nat, times: seq<nat>, i: nat)
    requires i < |times| && forall j :: 0 <= j < |times| ==> times[j] == sec
    ensures Stamps(sec, count, times)[i] == At(sec, count + 1 + i)
    decreases |times|
  {
    if i > 0 { StampsOfSecond(count + 1, sec, times[1..], i - 1); }
  }

  // ---------- file names ----------

  function PageFile(queue: string, s: Stamp): string {
    queue + "_" + SeqString(s)
  }

  function StateFile(queue: string): string {
    queue + "_STATE"
  }

  /** The pattern `^<queue>_[0-9]*`, matched against a whole file name. */
  predicate MatchesPattern(queue: string, file: string) {
    && |queue| < |file|
    && file[..|queue| + 1] == queue + "_"
    && forall c <- file[|queue| + 1..] :: IsDigit(c)
  }

  lemma {:induction false} DigitsAreDigits(n: nat, w: nat)
    ensures forall c <- Digits(n, w) :: IsDigit(c)
  {
    if w > 0 { DigitsAreDigits(n / 10, w - 1); }
  }

  lemma {:induction false} DigitsOfValue(digits: string)
    requires forall c <- digits :: IsDigit(c)
    ensures Digits(Value(digits), |digits|) == digits
  {
    if digits != "" {
      var n := |digits| - 1;
      var last := digits[n] as int - 48;
      assert IsDigit(digits[n]) && digits == digits[..n] + [digits[n]];
      DigitsOfValue(digits[..n]);
      assert Value(digits) / 10 == Value(digits[..n]) && Value(digits) % 10 == last && Digit(last) == digits[n];
    }
  }

  /** The queue's name, an underscore, and some number in some number of decimal digits. */
  ghost predicate HasDigits(queue: string, file: string) {
    exists n: nat, w: nat :: file == queue + "_" + Digits(n, w)
  }

  /** The names an orphan scan accepts are those and no other. */
  lemma MatchesPatternIff(queue: string, file: string)
    ensures MatchesPattern(queue, file) <==> exists n: nat, w: nat :: file == queue + "_" + Digits(n, w)
    ensures MatchesPattern(queue, file) <==> HasDigits(queue, file)
  {
    if MatchesPattern(queue, file) {
      var digits := file[|queue| + 1..];
      DigitsOfValue(digits);
      assert file == queue + "_" + Digits(Value(digits), |digits|);
    }
    if n: nat, w: nat :| file == queue + "_" + Digits(n, w) {
      DigitsAreDigits(n, w);
      assert file[..|queue| + 1] == queue + "_" && file[|queue| + 1..] == Digits(n, w);
    }
  }

  /** All files a queue ever writes, reads or removes. */
  lemma OwnedIff(queue: string, file: string)
    ensures Owned(queue, file) <==> file == queue + "_STATE" || exists n: nat, w: nat :: file == queue + "_" + Digits(n, w)
  {
    MatchesPatternIff(queue, file);
  }

  predicate Owned(queue: string, file: string) {
    MatchesPattern(queue, file) || file == StateFile(queue)
  }

  lemma PageFileOwned(queue: string, s: Stamp)
    ensures MatchesPattern(queue, PageFile(queue, s)) && PageFile(queue, s) != StateFile(queue)
  {
    var file := PageFile(queue, s);
    assert file[..|queue| + 1] == queue + "_";
    assert file[|queue| + 1..] == SeqString(s);
    StateFileIsNoPage(queue);
  }

  lemma StateFileIsNoPage(queue: string)
    ensures !MatchesPattern(queue, StateFile(queue))
  {
    var file := StateFile(queue);
    assert file[|queue| + 1..] == "STATE";
    assert !IsDigit('S') && file[|queue| + 1..][0] == 'S';
    assert 'S' in file[|queue| + 1..];
  }

  lemma ZeroFile(queue: string)
    ensures PageFile(queue, Zero) == queue + "_" + "0"
  {
  }

  lemma PageFileInjective(queue: string, a: Stamp, b: Stamp, width: nat)
    requires Wide(a, width) && Wide(b, width)
    requires PageFile(queue, a) == PageFile(queue, b)
    ensures a == b
  {
    assert PageFile(queue, a)[|queue| + 1..] == SeqString(a);
    assert PageFile(queue, b)[|queue| + 1..] == SeqString(b);
    SeqStringInjective(a, b, width);
  }

  lemma PageFileOrder(queue: string, a: Stamp, b: Stamp, width: nat)
    requires Wide(a, width) && Wide(b, width) && Before(a, b)
    ensures LexLess(PageFile(queue, a), PageFile(queue, b)) <==> InNameOrder(a, b)
  {
    SeqStringOrder(a, b, width);
    LexLessCommonPrefix(queue + "_", SeqString(a), SeqString(b));
  }

  lemma OwnedSuffix(queue: string, file: string)
    requires Owned(queue, file)
    ensures |queue| < |file| && file[..|queue|] == queue && file[|queue|] == '_'
    ensures forall i :: |queue| < i < |file| ==> file[i] != '_'
  {
    if file == StateFile(queue) {
      assert file[..|queue|] == queue;
    } else {
      assert file[..|queue| + 1][|queue|] == '_';
      assert file[..|queue|] == file[..|queue| + 1][..|queue|];
      forall i | |queue| < i < |file| ensures file[i] != '_' {
        assert file[i] == file[|queue| + 1..][i - |queue| - 1];
        assert IsDigit(file[|queue| + 1..][i - |queue| - 1]);
      }
    }
  }

  /** No file belongs to two queues: every owned name splits at its last underscore. */
  lemma NameIsolation(a: string, b: string, file: string)
    requires Owned(a, file) && Owned(b, file)
    ensures a == b
  {
    OwnedSuffix(a, file);
    OwnedSuffix(b, file);
    assert |a| == |b|;
  }

  // ---------- names of an earlier process ----------

  /** A process that starts at second `up`, with its counters at zero, can give out the name. */
  ghost predicate GivesOut(queue: string, up: nat, width: nat, file: string) {
    exists times: seq<nat>, i: nat ::
      && i < |times| && ClockRun(times, width) && up <= times[0]
      && PageFile(queue, Stamps(0, 0, times)[i]) == file
  }

  /** The exact condition under which a new process can give out a name of an earlier one: the name is of a second
      not before the start. */
  lemma GivesOutIff(queue: string, up: nat, width: nat, s: Stamp)
    requires Wide(s, width)
    ensures GivesOut(queue, up, width, PageFile(queue, s)) <==> s.At? && up <= s.sec
  {
    hide Dec, PageFile, Stamps;
    if GivesOut(queue, up, width, PageFile(queue, s)) {
      var times: seq<nat>, i: nat :|
        && i < |times| && ClockRun(times, width) && up <= times[0]
        && PageFile(queue, Stamps(0, 0, times)[i]) == PageFile(queue, s);
      StampsIncrease(0, 0, times, width);
      StampSeconds(0, 0, times, i);
      PageFileInjective(queue, Stamps(0, 0, times)[i], s, width);
    }
    if s.At? && up <= s.sec {
      var times := seq(s.count + 1, _ => s.sec);
      CountReached(s.sec, s.count, times);
      assert ClockRun(times, width) && up <= times[0];
    }
  }

  lemma CountReached(sec: nat, count: nat, times: seq<nat>)
    requires sec >= 1 && count < |times| && forall j :: 0 <= j < |times| ==> times[j] == sec
    ensures Stamps(0, 0, times)[count] == At(sec, count)
  {
    if count > 0 { StampsOfSecond(0, sec, times[1..], count - 1); }
  }
}
