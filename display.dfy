/**
 * How the two screens order the stored set for display, both with
 * `String.CASE_INSENSITIVE_ORDER`: the categories screen collects it into
 * a comparator-keyed sorted set (`toSortedSet`), the recorder screen sorts
 * a list of it (`sortWith`). The set's own iteration order is the
 * platform's, so it is a parameter: a sequence listing each stored name once.
 */
module Display {
  import opened Text

  /** `iteration` lists every member of `stored` exactly once. */
  ghost predicate Enumerates(iteration: seq<string>, stored: set<string>) {
    (forall i, j :: 0 <= i < j < |iteration| ==> iteration[i] != iteration[j]) &&
    (forall name :: name in iteration <==> name in stored)
  }

  /** Each entry strictly before the next under the case-insensitive order. */
  ghost predicate StrictlyIncreasing(s: seq<string>) {
    forall i, j :: 0 <= i < j < |s| ==> Compare(s[i], s[j]) < 0
  }

  /** Each entry at or before the next under the case-insensitive order. */
  ghost predicate NonDecreasing(s: seq<string>) {
    forall i, j :: 0 <= i < j < |s| ==> Compare(s[i], s[j]) <= 0
  }

  /** Some entry of `s` equals `name` ignoring case. */
  ghost predicate HasEqual(s: seq<string>, name: string) {
    exists k :: 0 <= k < |s| && EqualsIgnoreCase(s[k], name)
  }

  // ---- the categories screen: a sorted set keyed by the comparator ----

  /**
   * `TreeSet.add`: a name the comparator finds equal to an entry is not
   * added (the entry already there stays); any other name goes into its
   * place in the order.
   */
  function AddToSortedSet(s: seq<string>, name: string): (r: seq<string>)
    requires StrictlyIncreasing(s)
    ensures StrictlyIncreasing(r)
    ensures HasEqual(s, name) ==> r == s
    ensures !HasEqual(s, name) ==> |r| == |s| + 1
    ensures forall x :: x in r <==> x in s || (x == name && !HasEqual(s, name))
  {
    if s == [] then [name]
    else if Compare(name, s[0]) < 0 then
      PrependKeepsIncreasing(name, s);
      NotEqualBelowFirst(s, name);
      [name] + s
    else if Compare(name, s[0]) == 0 then
      assert EqualsIgnoreCase(s[0], name) by { CompareAntisymmetric(name, s[0]); }
      s
    else
      var rest := AddToSortedSet(s[1..], name);
      HasEqualTail(s, name);
      CompareAntisymmetric(name, s[0]);
      PrependKeepsIncreasing(s[0], rest);
      [s[0]] + rest
  }

  /** A name smaller than the head of an increasing sequence can go in front. */
  lemma PrependKeepsIncreasing(x: string, s: seq<string>)
    requires StrictlyIncreasing(s)
    requires s != [] ==> Compare(x, s[0]) < 0
    ensures StrictlyIncreasing([x] + s)
  {
    var r := [x] + s;
    forall i, j | 0 <= i < j < |r| ensures Compare(r[i], r[j]) < 0 {
      if i == 0 && j > 1 {
        CompareTransitiveStrict(x, s[0], s[j - 1]);
      }
    }
  }

  /** Nothing in an increasing sequence equals a name below its head. */
  lemma NotEqualBelowFirst(s: seq<string>, name: string)
    requires StrictlyIncreasing(s) && s != [] && Compare(name, s[0]) < 0
    ensures !HasEqual(s, name)
  {
    if HasEqual(s, name) {
      var k :| 0 <= k < |s| && EqualsIgnoreCase(s[k], name);
      CompareCongruent(s[k], name, s[0]);
      if k != 0 {
        CompareAntisymmetric(s[0], s[k]);
      }
      assert false;
    }
  }

  /** Past a head that is below `name`, only the tail can hold its equal. */
  lemma HasEqualTail(s: seq<string>, name: string)
    requires s != [] && Compare(name, s[0]) > 0
    ensures HasEqual(s, name) <==> HasEqual(s[1..], name)
  {
    if HasEqual(s, name) {
      var k :| 0 <= k < |s| && EqualsIgnoreCase(s[k], name);
      if k == 0 {
        assert false;
      }
      assert s[1..][k - 1] == s[k];
    }
    if HasEqual(s[1..], name) {
      var k :| 0 <= k < |s| - 1 && EqualsIgnoreCase(s[1..][k], name);
      assert s[k + 1] == s[1..][k];
    }
  }

  /** `toSortedSet(CASE_INSENSITIVE_ORDER)`: the names added one by one, in iteration order. */
  function ToSortedSet(names: seq<string>): (r: seq<string>)
    requires forall i, j :: 0 <= i < j < |names| ==> names[i] != names[j]
    ensures StrictlyIncreasing(r)
    ensures forall x :: x in r ==> x in names
    ensures forall k :: 0 <= k < |names| ==> HasEqual(r, names[k])
    ensures forall i, j :: 0 <= i < j < |names| && names[j] in r ==> !EqualsIgnoreCase(names[i], names[j])
  {
    if names == [] then []
    else
      var s := ToSortedSet(names[..|names| - 1]);
      SortedSetStep(names, s);
      AddToSortedSet(s, names[|names| - 1])
  }

  /** Adding the last name to the sorted set of the others gives the sorted set of all. */
  lemma SortedSetStep(names: seq<string>, s: seq<string>)
    requires names != [] && forall i, j :: 0 <= i < j < |names| ==> names[i] != names[j]
    requires var pre := names[..|names| - 1];
      StrictlyIncreasing(s) &&
      (forall x :: x in s ==> x in pre) &&
      (forall k :: 0 <= k < |pre| ==> HasEqual(s, pre[k])) &&
      (forall i, j :: 0 <= i < j < |pre| && pre[j] in s ==> !EqualsIgnoreCase(pre[i], pre[j]))
    ensures var r := AddToSortedSet(s, names[|names| - 1]);
      StrictlyIncreasing(r) &&
      (forall x :: x in r ==> x in names) &&
      (forall k :: 0 <= k < |names| ==> HasEqual(r, names[k])) &&
      (forall i, j :: 0 <= i < j < |names| && names[j] in r ==> !EqualsIgnoreCase(names[i], names[j]))
  {
    var pre, last := names[..|names| - 1], names[|names| - 1];
    var r := AddToSortedSet(s, last);
    assert names == pre + [last];
    AddKeepsEquals(pre, last, s, r);
    AddKeepsFirst(pre, last, s, r);
  }

  /** A name is shown only if no earlier name in iteration order equals it
      ignoring case: the new name is kept out when an equal is shown, and an
      earlier name's equal is always shown. */
  lemma AddKeepsFirst(pre: seq<string>, last: string, s: seq<string>, r: seq<string>)
    requires StrictlyIncreasing(s) && r == AddToSortedSet(s, last)
    requires last !in pre && forall x :: x in s ==> x in pre
    requires forall k :: 0 <= k < |pre| ==> HasEqual(s, pre[k])
    requires forall i, j :: 0 <= i < j < |pre| && pre[j] in s ==> !EqualsIgnoreCase(pre[i], pre[j])
    ensures var names := pre + [last];
      forall i, j :: 0 <= i < j < |names| && names[j] in r ==> !EqualsIgnoreCase(names[i], names[j])
  {
    var names := pre + [last];
    forall i, j | 0 <= i < j < |names| && names[j] in r ensures !EqualsIgnoreCase(names[i], names[j]) {
      assert names[i] == pre[i];
      if j < |pre| {
        assert names[j] == pre[j];
        if pre[j] !in s {
          assert false;
        }
      } else {
        assert last !in s;
        NoEqualOfNew(pre[i], last, s);
      }
    }
  }

  /** A name with no shown equal is not equal to a name that has one. */
  lemma NoEqualOfNew(earlier: string, last: string, s: seq<string>)
    requires HasEqual(s, earlier) && !HasEqual(s, last)
    ensures !EqualsIgnoreCase(earlier, last)
  {
    var m :| 0 <= m < |s| && EqualsIgnoreCase(s[m], earlier);
  }

  /** Adding one more name keeps an equal of every earlier name and gains one of the new name. */
  lemma AddKeepsEquals(pre: seq<string>, last: string, s: seq<string>, r: seq<string>)
    requires StrictlyIncreasing(s) && r == AddToSortedSet(s, last)
    requires forall k :: 0 <= k < |pre| ==> HasEqual(s, pre[k])
    ensures forall k :: 0 <= k < |pre| + 1 ==> HasEqual(r, (pre + [last])[k])
  {
    forall k | 0 <= k < |pre| + 1 ensures HasEqual(r, (pre + [last])[k]) {
      if k < |pre| {
        assert (pre + [last])[k] == pre[k];
        var m :| 0 <= m < |s| && EqualsIgnoreCase(s[m], pre[k]);
        assert s[m] in r;
        var m' :| 0 <= m' < |r| && r[m'] == s[m];
      } else if !HasEqual(s, last) {
        assert last in r;
        var m :| 0 <= m < |r| && r[m] == last;
        assert EqualsIgnoreCase(r[m], last);
      }
    }
  }

  // ---- the recorder screen: a list sorted with the comparator ----

  /** `name` alone when it equals `x` ignoring case, nothing otherwise. */
  function CaseOf(name: string, x: string): seq<string> {
    if EqualsIgnoreCase(name, x) then [name] else []
  }

  /** The entries of `s` equal to `x` ignoring case, in their order in `s`. */
  function CaseClass(s: seq<string>, x: string): seq<string> {
    if s == [] then [] else CaseOf(s[0], x) + CaseClass(s[1..], x)
  }

  /** Taking the entries equal to `x` distributes over concatenation. */
  lemma {:induction false} CaseClassConcat(a: seq<string>, b: seq<string>, x: string)
    ensures CaseClass(a + b, x) == CaseClass(a, x) + CaseClass(b, x)
  {
    if a == [] {
      assert a + b == b;
    } else {
      assert (a + b)[1..] == a[1..] + b;
      CaseClassConcat(a[1..], b, x);
    }
  }

  /** A sequence with no entry equal to `x` has no entries of its class. */
  lemma {:induction false} CaseClassEmpty(s: seq<string>, x: string)
    requires forall k :: 0 <= k < |s| ==> !EqualsIgnoreCase(s[k], x)
    ensures CaseClass(s, x) == []
  {
    if s != [] {
      CaseClassEmpty(s[1..], x);
    }
  }

  /** The first entry of a class is the earliest entry of `s` in it. */
  lemma {:induction false} CaseClassHead(s: seq<string>, x: string, i: nat)
    requires i < |s| && EqualsIgnoreCase(s[i], x)
    ensures CaseClass(s, x) != []
    ensures exists m :: 0 <= m <= i && CaseClass(s, x)[0] == s[m]
  {
    if !EqualsIgnoreCase(s[0], x) {
      CaseClassHead(s[1..], x, i - 1);
      var m :| 0 <= m <= i - 1 && CaseClass(s[1..], x)[0] == s[1..][m];
      assert CaseClass(s, x)[0] == s[m + 1];
    }
  }

  /**
   * One step of a stable insertion sort: `name` goes before the first entry
   * strictly above it, so after every entry it equals ignoring case.
   */
  function InsertSorted(s: seq<string>, name: string): (r: seq<string>)
    requires NonDecreasing(s)
    ensures NonDecreasing(r)
    ensures multiset(r) == multiset(s) + multiset{name}
    ensures forall x :: CaseClass(r, x) == CaseClass(s, x) + CaseOf(name, x)
  {
    if s == [] then
      assert CaseClass([name], name) == CaseOf(name, name) + CaseClass([], name);
      [name]
    else if Compare(name, s[0]) < 0 then
      InsertFront(s, name);
      [name] + s
    else
      var rest := InsertSorted(s[1..], name);
      InsertAfterHead(s, name, rest);
      [s[0]] + rest
  }

  /** A name below the head goes in front and comes last in its (empty) class. */
  lemma InsertFront(s: seq<string>, name: string)
    requires NonDecreasing(s) && s != [] && Compare(name, s[0]) < 0
    ensures NonDecreasing([name] + s)
    ensures forall x :: CaseClass([name] + s, x) == CaseClass(s, x) + CaseOf(name, x)
  {
    var r := [name] + s;
    forall i, j | 0 <= i < j < |r| ensures Compare(r[i], r[j]) <= 0 {
      if i == 0 && j > 1 { CompareTransitive(name, s[0], s[j - 1]); }
    }
    assert r[1..] == s;
    forall x ensures CaseClass(r, x) == CaseClass(s, x) + CaseOf(name, x) {
      if EqualsIgnoreCase(name, x) {
        forall k | 0 <= k < |s| ensures !EqualsIgnoreCase(s[k], x) {
          if k > 0 { CompareTransitiveStrict(name, s[0], s[k]); }
          CompareCongruent(name, x, s[k]);
          CompareAntisymmetric(x, s[k]);
        }
        CaseClassEmpty(s, x);
      }
    }
  }

  /** A name at or above the head goes into the tail, after the head. */
  lemma InsertAfterHead(s: seq<string>, name: string, rest: seq<string>)
    requires NonDecreasing(s) && s != [] && Compare(name, s[0]) >= 0
    requires NonDecreasing(rest) && multiset(rest) == multiset(s[1..]) + multiset{name}
    requires forall x :: CaseClass(rest, x) == CaseClass(s[1..], x) + CaseOf(name, x)
    ensures NonDecreasing([s[0]] + rest)
    ensures multiset([s[0]] + rest) == multiset(s) + multiset{name}
    ensures forall x :: CaseClass([s[0]] + rest, x) == CaseClass(s, x) + CaseOf(name, x)
  {
    HeadStaysFirst(s, name, rest);
    assert s == [s[0]] + s[1..];
    forall x ensures CaseClass([s[0]] + rest, x) == CaseClass(s, x) + CaseOf(name, x) {
      ClassBehindHead(s[0], s[1..], rest, name, x);
    }
  }

  /** Putting the same head in front of both sides keeps a class equation. */
  lemma ClassBehindHead(h: string, tail: seq<string>, rest: seq<string>, name: string, x: string)
    requires CaseClass(rest, x) == CaseClass(tail, x) + CaseOf(name, x)
    ensures CaseClass([h] + rest, x) == CaseClass([h] + tail, x) + CaseOf(name, x)
  {
    assert ([h] + rest)[1..] == rest;
    assert ([h] + tail)[1..] == tail;
  }

  /** The head of `s` is at or below every entry of the tail with `name` inserted. */
  lemma HeadStaysFirst(s: seq<string>, name: string, rest: seq<string>)
    requires NonDecreasing(s) && s != [] && Compare(name, s[0]) >= 0
    requires NonDecreasing(rest) && multiset(rest) == multiset(s[1..]) + multiset{name}
    ensures NonDecreasing([s[0]] + rest)
  {
    var r := [s[0]] + rest;
    CompareAntisymmetric(name, s[0]);
    forall j | 0 < j < |r| ensures Compare(r[0], r[j]) <= 0 {
      assert rest[j - 1] in multiset(rest);
      if rest[j - 1] != name {
        assert rest[j - 1] in multiset(s[1..]);
        var m :| 0 <= m < |s[1..]| && s[1..][m] == rest[j - 1];
        assert s[m + 1] == s[1..][m];
      }
    }
  }

  /** `sortWith(CASE_INSENSITIVE_ORDER)` on a list: a stable sort. */
  function SortIgnoreCase(names: seq<string>): (r: seq<string>)
    ensures NonDecreasing(r)
    ensures multiset(r) == multiset(names)
    ensures forall x :: CaseClass(r, x) == CaseClass(names, x)
  {
    if names == [] then []
    else
      var pre := names[..|names| - 1];
      var last := names[|names| - 1];
      assert names == pre + [last];
      forall x ensures CaseClass(names, x) == CaseClass(pre, x) + CaseOf(last, x) {
        CaseClassConcat(pre, [last], x);
        assert CaseClass([last], x) == CaseOf(last, x) + CaseClass([], x);
      }
      InsertSorted(SortIgnoreCase(pre), last)
  }

  // ---- what each screen shows ----

  /**
   * The categories screen's list: strictly increasing ignoring case, so no
   * two entries are equal ignoring case; every entry is stored; every stored
   * name has an entry equal to it ignoring case; and when no two stored names
   * differ only in case, every stored name is shown.
   */
  function CategoriesDisplay(stored: set<string>, iteration: seq<string>): (r: seq<string>)
    requires Enumerates(iteration, stored)
    ensures StrictlyIncreasing(r)
    ensures forall i, j :: 0 <= i < j < |r| ==> !EqualsIgnoreCase(r[i], r[j])
    ensures forall x :: x in r ==> x in stored
    ensures forall x :: x in stored ==> HasEqual(r, x)
    ensures CaseDistinct(stored) ==> forall x :: x in stored ==> x in r
    ensures forall i, j :: 0 <= i < j < |iteration| && iteration[j] in r ==> !EqualsIgnoreCase(iteration[i], iteration[j])
  {
    var r := ToSortedSet(iteration);
    SortedSetFacts(stored, iteration, r);
    r
  }

  /** The facts `CategoriesDisplay` promises, from those `ToSortedSet` gives. */
  lemma SortedSetFacts(stored: set<string>, iteration: seq<string>, r: seq<string>)
    requires Enumerates(iteration, stored) && r == ToSortedSet(iteration)
    ensures forall i, j :: 0 <= i < j < |r| ==> !EqualsIgnoreCase(r[i], r[j])
    ensures forall x :: x in stored ==> HasEqual(r, x)
    ensures CaseDistinct(stored) ==> forall x :: x in stored ==> x in r
  {
    forall i, j | 0 <= i < j < |r| ensures !EqualsIgnoreCase(r[i], r[j]) {
      assert Compare(r[i], r[j]) < 0;
    }
    forall x | x in stored ensures HasEqual(r, x) {
      var k :| 0 <= k < |iteration| && iteration[k] == x;
    }
    if CaseDistinct(stored) {
      forall x | x in stored ensures x in r {
        var k :| 0 <= k < |iteration| && iteration[k] == x;
        var m :| 0 <= m < |r| && EqualsIgnoreCase(r[m], x);
        assert r[m] in stored;
      }
    }
  }

  /** No two stored names are equal ignoring case. */
  ghost predicate CaseDistinct(stored: set<string>) {
    forall a, b :: a in stored && b in stored && a != b ==> !EqualsIgnoreCase(a, b)
  }

  /**
   * The recorder screen's options: every stored name exactly once (a
   * permutation of the set), in non-decreasing case-insensitive order, with
   * names equal ignoring case kept in iteration order (the sort is stable).
   */
  function RecorderOptions(stored: set<string>, iteration: seq<string>): (r: seq<string>)
    requires Enumerates(iteration, stored)
    ensures NonDecreasing(r)
    ensures |r| == |stored|
    ensures forall x :: x in r <==> x in stored
    ensures forall i, j :: 0 <= i < j < |r| ==> r[i] != r[j]
    ensures forall x :: CaseClass(r, x) == CaseClass(iteration, x)
  {
    var r := SortIgnoreCase(iteration);
    DistinctSize(iteration, stored);
    forall x ensures x in r <==> x in stored {
      assert x in r <==> x in multiset(r);
      assert x in iteration <==> x in multiset(iteration);
    }
    forall i, j | 0 <= i < j < |r| ensures r[i] != r[j] {
      CountAtMostOne(iteration, r[i]);
      if r[i] == r[j] {
        CountTwo(r, i, j);
        assert false;
      }
    }
    r
  }

  /**
   * The first option, the one auto-selection picks, is the earliest name in
   * iteration order among the stored names equal to it ignoring case.
   */
  lemma FirstOptionListedFirst(stored: set<string>, iteration: seq<string>)
    requires Enumerates(iteration, stored) && stored != {}
    ensures var r := RecorderOptions(stored, iteration);
      r != [] &&
      forall i, j :: 0 <= i < j < |iteration| && iteration[j] == r[0] ==> !EqualsIgnoreCase(iteration[i], r[0])
  {
    var r := RecorderOptions(stored, iteration);
    var x :| x in stored;
    assert r != [];
    assert CaseClass(r, r[0])[0] == r[0];
    forall i, j | 0 <= i < j < |iteration| && iteration[j] == r[0] ensures !EqualsIgnoreCase(iteration[i], r[0]) {
      if EqualsIgnoreCase(iteration[i], r[0]) {
        CaseClassHead(iteration, r[0], i);
        assert false;
      }
    }
  }

  /** A duplicate-free listing of a set is as long as the set is large. */
  lemma {:induction false} DistinctSize(iteration: seq<string>, stored: set<string>)
    requires Enumerates(iteration, stored)
    ensures |iteration| == |stored|
  {
    if iteration != [] {
      var last := iteration[|iteration| - 1];
      var pre := iteration[..|iteration| - 1];
      assert Enumerates(pre, stored - {last}) by {
        forall name ensures name in pre <==> name in stored - {last} {
          if name in pre {
            var k :| 0 <= k < |pre| && pre[k] == name;
            assert iteration[k] == name;
          }
          if name in stored - {last} {
            var k :| 0 <= k < |iteration| && iteration[k] == name;
            assert pre[k] == name;
          }
        }
      }
      DistinctSize(pre, stored - {last});
    }
  }

  /** Two positions holding the same name count it twice. */
  lemma {:induction false} CountTwo(s: seq<string>, i: nat, j: nat)
    requires i < j < |s| && s[i] == s[j]
    ensures multiset(s)[s[i]] >= 2
  {
    assert s == s[..i] + [s[i]] + s[i + 1..j] + [s[j]] + s[j + 1..];
  }

  /** A name appears at most once in a duplicate-free sequence. */
  lemma {:induction false} CountAtMostOne(s: seq<string>, x: string)
    requires forall i, j :: 0 <= i < j < |s| ==> s[i] != s[j]
    ensures multiset(s)[x] <= 1
  {
    if s != [] {
      var pre := s[..|s| - 1];
      assert s == pre + [s[|s| - 1]];
      CountAtMostOne(pre, x);
      if s[|s| - 1] == x {
        assert x !in pre;
      }
    }
  }
}
