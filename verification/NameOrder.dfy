/** `std::string::operator<` and `std::sort` over file names. */
module NameOrder {

  predicate LexLess(a: string, b: string) {
    if b == "" then false
    else if a == "" then true
    else a[0] < b[0] || (a[0] == b[0] && LexLess(a[1..], b[1..]))
  }

  lemma {:induction false} LexLessIrreflexive(a: string)
    ensures !LexLess(a, a)
  {
    if a != "" { LexLessIrreflexive(a[1..]); }
  }

  lemma {:induction false} LexLessTransitive(a: string, b: string, c: string)
    requires LexLess(a, b) && LexLess(b, c)
    ensures LexLess(a, c)
  {
    if a != "" && a[0] == b[0] && b[0] == c[0] {
      LexLessTransitive(a[1..], b[1..], c[1..]);
    }
  }

  lemma {:induction false} LexLessTotal(a: string, b: string)
    requires a != b
    ensures LexLess(a, b) || LexLess(b, a)
  {
    if a != "" && b != "" && a[0] == b[0] {
      assert a == [a[0]] + a[1..] && b == [b[0]] + b[1..];
      LexLessTotal(a[1..], b[1..]);
    }
  }

  lemma {:induction false} LexLessCommonPrefix(p: string, a: string, b: string)
    ensures LexLess(p + a, p + b) <==> LexLess(a, b)
  {
    if p == "" {
      assert p + a == a && p + b == b;
    } else {
      assert (p + a)[1..] == p[1..] + a && (p + b)[1..] == p[1..] + b;
      LexLessCommonPrefix(p[1..], a, b);
    }
  }

  /** With equally long leading parts that differ, the leading parts decide. */
  lemma {:induction false} LexLessLeading(a: string, b: string, c: string, d: string)
    requires |a| == |b| && LexLess(a, b)
    ensures LexLess(a + c, b + d)
  {
    assert (a + c)[1..] == a[1..] + c && (b + d)[1..] == b[1..] + d;
    if a[0] == b[0] { LexLessLeading(a[1..], b[1..], c, d); }
  }

  /** The first place where two strings differ decides, or that one of them ends there. */
  lemma {:induction false} LexLessIff(a: string, b: string)
    ensures LexLess(a, b)
            <==> exists k :: 0 <= k <= |a| && k < |b| && a[..k] == b[..k] && (k == |a| || a[k] < b[k])
  {
    if a == "" {
      if b != "" { assert a[..0] == b[..0]; }
    } else if b != "" {
      LexLessIff(a[1..], b[1..]);
      if LexLess(a, b) {
        if a[0] < b[0] {
          assert a[..0] == b[..0];
        } else {
          var k :|
            && 0 <= k <= |a[1..]| && k < |b[1..]| && a[1..][..k] == b[1..][..k]
            && (k == |a[1..]| || a[1..][k] < b[1..][k]);
          assert a[..k + 1] == [a[0]] + a[1..][..k] && b[..k + 1] == [b[0]] + b[1..][..k];
        }
      }
      if k :| 0 <= k <= |a| && k < |b| && a[..k] == b[..k] && (k == |a| || a[k] < b[k]) {
        if k > 0 {
          assert a[..k][0] == b[..k][0];
          assert a[1..][..k - 1] == a[..k][1..] && b[1..][..k - 1] == b[..k][1..];
        }
      }
    }
  }

  predicate Ascending(s: seq<string>) {
    forall i, j :: 0 <= i < j < |s| ==> LexLess(s[i], s[j])
  }

  /** Two strictly ascending lists of the same names are the same list. */
  lemma {:induction false} AscendingUnique(s: seq<string>, t: seq<string>)
    requires Ascending(s) && Ascending(t)
    requires forall x :: x in s <==> x in t
    ensures s == t
  {
    assert t != [] ==> t[0] in s;
    if s != [] {
      assert s[0] in t;
      HeadIsLeast(s, t);
      TailHas(s);
      TailHas(t);
      AscendingUnique(s[1..], t[1..]);
    }
  }

  lemma HeadIsLeast(s: seq<string>, t: seq<string>)
    requires s != [] && t != [] && Ascending(s) && Ascending(t)
    requires s[0] in t && t[0] in s
    ensures s[0] == t[0]
  {
    var i :| 0 <= i < |t| && t[i] == s[0];
    var j :| 0 <= j < |s| && s[j] == t[0];
    if 0 < i && 0 < j {
      LexLessTransitive(s[0], t[0], s[0]);
      LexLessIrreflexive(s[0]);
    }
  }

  lemma TailHas(s: seq<string>)
    requires s != [] && Ascending(s)
    ensures forall x :: x in s[1..] <==> x in s && x != s[0]
  {
    LexLessIrreflexive(s[0]);
    forall x | x in s && x != s[0] ensures x in s[1..] {
      var i :| 0 <= i < |s| && s[i] == x;
      assert s[1..][i - 1] == x;
    }
  }

  lemma LexLessAsymmetric(a: string, b: string)
    requires LexLess(a, b)
    ensures !LexLess(b, a)
  {
    if LexLess(b, a) {
      LexLessTransitive(a, b, a);
      LexLessIrreflexive(a);
    }
  }

  predicate Distinct<T(==)>(s: seq<T>) {
    forall i, j :: 0 <= i < j < |s| ==> s[i] != s[j]
  }

  lemma WithoutOne<T>(s: seq<T>, k: nat)
    requires Distinct(s) && k < |s|
    ensures forall x :: x in s[..k] + s[k + 1..] <==> x in s && x != s[k]
  {
    var left := s[..k] + s[k + 1..];
    assert forall i :: 0 <= i < |s| && i != k ==> s[i] == left[if i < k then i else i - 1];
  }

  // ---------- std::sort ----------

  /** The names of a list of things. */
  function NamesOf<T>(name: T -> string, s: seq<T>): (names: seq<string>)
    ensures |names| == |s|
    ensures forall i :: 0 <= i < |s| ==> names[i] == name(s[i])
  {
    seq(|s|, i requires 0 <= i < |s| => name(s[i]))
  }

  /** `s` is sorted by name already; put `x` in its place. */
  function Insert<T>(name: T -> string, x: T, s: seq<T>): (r: seq<T>)
    ensures multiset(r) == multiset(s) + multiset{x}
  {
    if s == [] || LexLess(name(x), name(s[0])) then [x] + s
    else
      assert s == [s[0]] + s[1..];
      [s[0]] + Insert(name, x, s[1..])
  }

  /** The things in the order of their names. */
  function Sort<T>(name: T -> string, s: seq<T>): (r: seq<T>)
    ensures multiset(r) == multiset(s)
  {
    if s == [] then []
    else
      assert s == [s[0]] + s[1..];
      Insert(name, s[0], Sort(name, s[1..]))
  }

  /** A name is its own name. */
  function Itself(name: string): string {
    name
  }

  lemma NamesOfNames(names: seq<string>)
    ensures NamesOf(Itself, names) == names
  {
  }

  lemma {:induction false} InsertOfNames<T>(name: T -> string, x: T, s: seq<T>)
    ensures NamesOf(name, Insert(name, x, s)) == Insert(Itself, name(x), NamesOf(name, s))
  {
    hide LexLess;
    NamesCons(name, x, s);
    if s != [] && !LexLess(name(x), name(s[0])) {
      var rest := s[1..];
      InsertOfNames(name, x, rest);
      NamesCons(name, s[0], Insert(name, x, rest));
      assert NamesOf(name, s)[1..] == NamesOf(name, rest);
    }
  }

  /** Sorting things by name is sorting their names. */
  lemma {:induction false} SortOfNames<T>(name: T -> string, s: seq<T>)
    ensures NamesOf(name, Sort(name, s)) == Sort(Itself, NamesOf(name, s))
  {
    hide Insert;
    if s != [] {
      SortOfNames(name, s[1..]);
      assert NamesOf(name, s)[1..] == NamesOf(name, s[1..]);
      InsertOfNames(name, s[0], Sort(name, s[1..]));
    }
  }

  lemma {:induction false} InsertAscending<T>(name: T -> string, x: T, s: seq<T>)
    requires Ascending(NamesOf(name, s)) && name(x) !in NamesOf(name, s)
    ensures Ascending(NamesOf(name, Insert(name, x, s)))
    ensures forall n :: n in NamesOf(name, Insert(name, x, s)) <==> n == name(x) || n in NamesOf(name, s)
  {
    hide LexLess;
    if s == [] {
      NamesCons(name, x, s);
    } else if LexLess(name(x), name(s[0])) {
      NamesCons(name, x, s);
      forall i | 0 <= i < |s| ensures LexLess(name(x), NamesOf(name, s)[i]) {
        if i > 0 { LexLessTransitive(name(x), name(s[0]), name(s[i])); }
      }
    } else {
      var names, rest := NamesOf(name, s), s[1..];
      assert s == [s[0]] + rest;
      NamesCons(name, s[0], rest);
      assert name(x) != names[0] && names == [name(s[0])] + NamesOf(name, rest);
      LexLessTotal(name(x), name(s[0]));
      InsertAscending(name, x, rest);
      NamesCons(name, s[0], Insert(name, x, rest));
      HeadBefore(name(s[0]), name(x), NamesOf(name, rest), NamesOf(name, Insert(name, x, rest)));
    }
  }

  lemma HeadBefore(head: string, x: string, rest: seq<string>, tail: seq<string>)
    requires Ascending([head] + rest) && LexLess(head, x) && Ascending(tail)
    requires forall n :: n in tail <==> n == x || n in rest
    ensures Ascending([head] + tail)
  {
    hide LexLess;
    forall i | 0 <= i < |tail| ensures LexLess(head, tail[i]) {
      assert tail[i] in tail;
      if tail[i] in rest {
        var k :| 0 <= k < |rest| && rest[k] == tail[i];
        assert LexLess(([head] + rest)[0], ([head] + rest)[k + 1]);
      }
    }
  }

  lemma NamesCons<T>(name: T -> string, x: T, s: seq<T>)
    ensures NamesOf(name, [x] + s) == [name(x)] + NamesOf(name, s)
  {
  }

  /** Sorting things with distinct names makes the names strictly ascending. */
  lemma {:induction false} SortAscending<T>(name: T -> string, s: seq<T>)
    requires Distinct(NamesOf(name, s))
    ensures Ascending(NamesOf(name, Sort(name, s)))
    ensures forall n :: n in NamesOf(name, Sort(name, s)) <==> n in NamesOf(name, s)
  {
    hide LexLess, Insert;
    if s != [] {
      var names, rest := NamesOf(name, s), s[1..];
      assert s == [s[0]] + rest;
      NamesCons(name, s[0], rest);
      assert names == [names[0]] + NamesOf(name, rest);
      TailDistinct(names[0], NamesOf(name, rest));
      SortAscending(name, rest);
      InsertAscending(name, s[0], Sort(name, rest));
    }
  }

  lemma TailDistinct(head: string, tail: seq<string>)
    requires Distinct([head] + tail)
    ensures Distinct(tail) && head !in tail
  {
    var all := [head] + tail;
    forall i | 0 <= i < |tail| ensures tail[i] != head && all[i + 1] == tail[i] {
      assert all[0] != all[i + 1];
    }
    forall i, j | 0 <= i < j < |tail| ensures tail[i] != tail[j] {
      assert all[i + 1] != all[j + 1];
    }
  }

  lemma {:induction false} SortOfAscending<T>(name: T -> string, s: seq<T>)
    requires Ascending(NamesOf(name, s))
    ensures Sort(name, s) == s
  {
    hide LexLess;
    if s != [] {
      var names, rest := NamesOf(name, s), s[1..];
      assert s == [s[0]] + rest;
      NamesCons(name, s[0], rest);
      assert Ascending(NamesOf(name, rest)) by {
        assert forall i :: 0 <= i < |rest| ==> NamesOf(name, rest)[i] == names[i + 1];
      }
      SortOfAscending(name, rest);
      assert |s| > 1 ==> LexLess(names[0], names[1]);
    }
  }

  lemma SortSwaps<T>(name: T -> string, x: T, y: T)
    requires !LexLess(name(x), name(y))
    ensures Sort(name, [x, y]) == [y, x]
  {
    hide LexLess;
    assert [x, y][1..] == [y] && [y][1..] == [];
    assert Sort(name, [y]) == [y];
    assert Insert(name, x, [y]) == [y] + Insert(name, x, []);
  }

  /** Sorting keeps the order of things with distinct names exactly when the names are ascending. */
  lemma SortKeepsIff<T>(name: T -> string, s: seq<T>)
    requires Distinct(NamesOf(name, s))
    ensures Sort(name, s) == s <==> Ascending(NamesOf(name, s))
  {
    SortAscending(name, s);
    if Ascending(NamesOf(name, s)) { SortOfAscending(name, s); }
  }
}
