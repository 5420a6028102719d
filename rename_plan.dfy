/**
 * The rename step shared by both programs: collect the numbered files of
 * a listing into a map keyed by their digit string (last write wins),
 * copy the map's entries into a vector, sort it by the integer value of
 * the key, and give the k-th entry the name "image_" + k zero-padded +
 * suffix. Each `Rename(from, to)` of a plan stands for one
 * `fs::rename(from, to)`, in plan order.
 */
module RenamePlan {
  import opened Text
  import opened Stoi
  import opened DigitRun
  import opened Directory

  /** One `fileMap` entry as a `std::pair`: (digit string, file name). */
  type Numbered = (string, string)

  datatype Rename = Rename(from: string, to: string)

  /** Every key is what `extractNumberFromFilename` returns for a file kept: a non-empty digit string. */
  ghost predicate NumberedMap(m: map<string, string>) {
    forall k :: k in m ==> k != [] && AllDigits(k)
  }

  /** A file enters the map when it is regular, has the wanted extension and a digit in its name. */
  predicate Qualifies(e: Entry, ext: string) {
    e.isRegular && Extension(e.name) == ext && LastDigitRun(e.name) != []
  }

  /** The map after the directory loop, starting from `m` (`fileMap[number] = filename`). */
  function Collect(m: map<string, string>, listing: seq<Entry>, ext: string): map<string, string>
  {
    if listing == [] then m
    else
      var prev := Collect(m, listing[..|listing| - 1], ext);
      var e := listing[|listing| - 1];
      if Qualifies(e, ext) then prev[LastDigitRun(e.name) := e.name] else prev
  }

  /** Every qualifying file's digit string is a key afterwards. */
  lemma {:induction false} CollectHasKey(m: map<string, string>, listing: seq<Entry>, ext: string, i: nat)
    requires i < |listing| && Qualifies(listing[i], ext)
    ensures LastDigitRun(listing[i].name) in Collect(m, listing, ext)
  {
    var n := |listing| - 1;
    if i < n {
      var init := listing[..n];
      assert init[i] == listing[i];
      CollectHasKey(m, init, ext, i);
    }
  }

  /** Every key that enters the map is a non-empty digit string. */
  lemma {:induction false} CollectNumbers(m: map<string, string>, listing: seq<Entry>, ext: string)
    requires NumberedMap(m)
    ensures NumberedMap(Collect(m, listing, ext))
  {
    if listing != [] {
      var n := |listing| - 1;
      CollectNumbers(m, listing[..n], ext);
      var e := listing[n];
      if Qualifies(e, ext) {
        var start := LastDigitRunShape(e.name);
      }
    }
  }

  /** Last write wins: a file whose key no later file shares is the key's value. */
  lemma {:induction false} CollectLastWins(m: map<string, string>, listing: seq<Entry>, ext: string, i: nat)
    requires i < |listing| && Qualifies(listing[i], ext)
    requires forall j :: i < j < |listing| && Qualifies(listing[j], ext) ==>
      LastDigitRun(listing[j].name) != LastDigitRun(listing[i].name)
    ensures LastDigitRun(listing[i].name) in Collect(m, listing, ext)
    ensures Collect(m, listing, ext)[LastDigitRun(listing[i].name)] == listing[i].name
  {
    var n := |listing| - 1;
    if i < n {
      var init := listing[..n];
      assert init[i] == listing[i];
      CollectLastWins(m, init, ext, i);
    }
  }

  /** A key that no qualifying file has keeps its earlier entry, or stays absent (entries accumulate). */
  lemma {:induction false} CollectKeeps(m: map<string, string>, listing: seq<Entry>, ext: string, k: string)
    requires forall j :: 0 <= j < |listing| && Qualifies(listing[j], ext) ==> LastDigitRun(listing[j].name) != k
    ensures k in Collect(m, listing, ext) <==> k in m
    ensures k in m ==> Collect(m, listing, ext)[k] == m[k]
  {
    if listing != [] {
      var n := |listing| - 1;
      var init := listing[..n];
      forall j | 0 <= j < |init| && Qualifies(init[j], ext)
        ensures LastDigitRun(init[j].name) != k
      {
        assert init[j] == listing[j];
      }
      CollectKeeps(m, init, ext, k);
    }
  }

  /** Every entry of the map was already there or comes from a qualifying file, under that file's digit string. */
  lemma {:induction false} CollectFrom(m: map<string, string>, listing: seq<Entry>, ext: string, k: string)
    requires k in Collect(m, listing, ext)
    ensures (k in m && Collect(m, listing, ext)[k] == m[k])
      || exists j :: 0 <= j < |listing| && Qualifies(listing[j], ext)
           && listing[j].name == Collect(m, listing, ext)[k] && LastDigitRun(listing[j].name) == k
  {
    if listing != [] {
      var n := |listing| - 1;
      var init := listing[..n];
      var e := listing[n];
      if !(Qualifies(e, ext) && LastDigitRun(e.name) == k) {
        CollectFrom(m, init, ext, k);
        if !(k in m && Collect(m, init, ext)[k] == m[k]) {
          var j :| 0 <= j < |init| && Qualifies(init[j], ext)
            && init[j].name == Collect(m, init, ext)[k] && LastDigitRun(init[j].name) == k;
          assert listing[j] == init[j];
        }
      }
    }
  }

  /** `fileMap[number] = filename` for every qualifying entry, in listing order. */
  method CollectNumbered(m0: map<string, string>, listing: seq<Entry>, ext: string) returns (m: map<string, string>)
    ensures m == Collect(m0, listing, ext)
  {
    m := m0;
    var i := 0;
    while i < |listing|
      invariant 0 <= i <= |listing|
      invariant m == Collect(m0, listing[..i], ext)
    {
      var entry := listing[i];
      assert listing[..i + 1][..i] == listing[..i];
      if entry.isRegular && Extension(entry.name) == ext {
        var number := ExtractNumberFromFilename(entry.name);
        if number != [] {
          m := m[number := entry.name];
        }
      }
      i := i + 1;
    }
    assert listing[..i] == listing;
  }

  // ---------------------------------------------------------------------
  // Sorting by the integer value of the key

  /**
   * The value of a key. Keys are digit strings (`NumberedMap`), and for them
   * this is what `std::stoi` returns (`ComparatorReadsKey`); the 0 for other
   * strings is never used.
   */
  function NumberOf(key: string): nat
  {
    if AllDigits(key) then DigitsValue(key) else 0
  }

  /**
   * For a key of a numbered map, the comparator's `std::stoi` returns
   * `NumberOf` of the key when that fits in `int`, and throws otherwise.
   */
  lemma ComparatorReadsKey(m: map<string, string>, k: string)
    requires NumberedMap(m) && k in m
    ensures IsValidNumber(k) == if NumberOf(k) <= IntMax then Some(NumberOf(k)) else None
  {
    assert k == "" + SignText(NoSign) + k + "";
    ReadsSignedDigits("", NoSign, k, "");
  }

  /** The comparator `stoi(a.first) < stoi(b.first)` never throws: each key fits in `int`. */
  ghost predicate KeysFitInt(m: map<string, string>) {
    forall k :: k in m ==> NumberOf(k) <= IntMax
  }

  /**
   * `std::sort` compares every element at least once when there are two or
   * more, so the sort throws `out_of_range` (uncaught) unless every key fits;
   * with at most one element it compares nothing.
   */
  ghost predicate SortDoesNotThrow(m: map<string, string>) {
    |m| <= 1 || KeysFitInt(m)
  }

  ghost predicate SortedByNumber(s: seq<Numbered>) {
    forall p, q :: 0 <= p < q < |s| ==> NumberOf(s[p].0) <= NumberOf(s[q].0)
  }

  /** `s` holds the entries of `m`, each exactly once. */
  ghost predicate ListsEntries(s: seq<Numbered>, m: map<string, string>) {
    multiset(s) == multiset(m.Items)
  }

  /** Every key of the map is the key of some element of a listing of it. */
  lemma KeyListed(s: seq<Numbered>, m: map<string, string>, k: string) returns (i: nat)
    requires ListsEntries(s, m) && k in m
    ensures i < |s| && s[i].0 == k
  {
    assert (k, m[k]) in m.Items;
    assert (k, m[k]) in multiset(s);
    i :| 0 <= i < |s| && s[i] == (k, m[k]);
  }

  /** Every element of a listing of a map is an entry of the map. */
  lemma EntryListed(s: seq<Numbered>, m: map<string, string>, i: nat)
    requires ListsEntries(s, m) && i < |s|
    ensures s[i].0 in m && m[s[i].0] == s[i].1
  {
    assert s[i] in multiset(s);
    assert s[i] in m.Items;
  }

  /** Adding a new key adds one entry to the listing. */
  lemma ItemsAdd(m: map<string, string>, k: string, v: string)
    requires k !in m
    ensures multiset(m[k := v].Items) == multiset(m.Items) + multiset{(k, v)}
  {
    var items := m.Items + {(k, v)};
    forall x | x in m[k := v].Items
      ensures x in items
    {
      assert x.0 in m[k := v];
      if x.0 != k {
        assert x.0 in m && m[x.0] == x.1;
      }
    }
    ItemsSubset(m[k := v].Items, items);
    forall x | x in items
      ensures x in m[k := v].Items
    {
      if x != (k, v) {
        assert x.0 in m && m[x.0] == x.1;
      }
    }
    ItemsSubset(items, m[k := v].Items);
    assert (k, v) !in m.Items;
  }

  /** `sortedFiles(fileMap.begin(), fileMap.end())`. */
  method EntriesOf(m: map<string, string>) returns (s: seq<Numbered>)
    ensures ListsEntries(s, m)
  {
    s := [];
    var rest := m;
    while rest != map[]
      invariant multiset(s) + multiset(rest.Items) == multiset(m.Items)
      decreases |rest|
    {
      var k :| k in rest;
      var smaller := rest - {k};
      assert rest.Items == smaller.Items + {(k, rest[k])} by {
        forall x | x in rest.Items ensures x in smaller.Items + {(k, rest[k])} {
          assert x.0 in rest && rest[x.0] == x.1;
        }
      }
      assert (k, rest[k]) !in smaller.Items;
      s := s + [(k, rest[k])];
      rest := smaller;
    }
  }

  method Swap(a: array<Numbered>, i: nat, j: nat)
    requires i < a.Length && j < a.Length
    modifies a
    ensures a[i] == old(a[j]) && a[j] == old(a[i])
    ensures forall p :: 0 <= p < a.Length && p != i && p != j ==> a[p] == old(a[p])
    ensures multiset(a[..]) == multiset(old(a[..]))
  {
    a[i], a[j] := a[j], a[i];
  }

  /** The first `i` entries are in order of number. */
  ghost predicate SortedPrefix(s: seq<Numbered>, i: nat)
    requires i <= |s|
  {
    forall p, q :: 0 <= p < q < i ==> NumberOf(s[p].0) <= NumberOf(s[q].0)
  }

  /**
   * Entry `j` is sinking into the sorted prefix up to `i`: the other entries
   * of that prefix are in order, and entry `j` is at most every entry after it.
   */
  ghost predicate Sinking(s: seq<Numbered>, i: nat, j: nat)
    requires j <= i < |s|
  {
    && (forall p, q :: 0 <= p < q <= i && p != j && q != j ==> NumberOf(s[p].0) <= NumberOf(s[q].0))
    && (forall q :: j < q <= i ==> NumberOf(s[j].0) <= NumberOf(s[q].0))
  }

  /** Swapping a sinking entry with a larger left neighbour moves it one place down. */
  lemma SinkStep(s: seq<Numbered>, i: nat, j: nat)
    requires 0 < j <= i < |s| && Sinking(s, i, j)
    requires NumberOf(s[j - 1].0) > NumberOf(s[j].0)
    ensures Sinking(s[j - 1 := s[j]][j := s[j - 1]], i, j - 1)
  {
  }

  /** A sinking entry that is not below its left neighbour completes the sorted prefix. */
  lemma SinkDone(s: seq<Numbered>, i: nat, j: nat)
    requires j <= i < |s| && Sinking(s, i, j)
    requires j == 0 || NumberOf(s[j - 1].0) <= NumberOf(s[j].0)
    ensures SortedPrefix(s, i + 1)
  {
    forall p, q | 0 <= p < q <= i
      ensures NumberOf(s[p].0) <= NumberOf(s[q].0)
    {
      if q == j && p < j - 1 {
        assert NumberOf(s[p].0) <= NumberOf(s[j - 1].0);
      }
    }
  }

  /** `std::sort` with the comparator `stoi(a.first) < stoi(b.first)` (an insertion sort here). */
  method SortByNumber(a: array<Numbered>)
    modifies a
    ensures SortedByNumber(a[..])
    ensures multiset(a[..]) == multiset(old(a[..]))
  {
    var i := 0;
    while i < a.Length
      invariant 0 <= i <= a.Length
      invariant SortedPrefix(a[..], i)
      invariant multiset(a[..]) == multiset(old(a[..]))
    {
      var j := i;
      while j > 0 && NumberOf(a[j - 1].0) > NumberOf(a[j].0)
        invariant 0 <= j <= i
        invariant Sinking(a[..], i, j)
        invariant multiset(a[..]) == multiset(old(a[..]))
      {
        ghost var s := a[..];
        SinkStep(s, i, j);
        Swap(a, j - 1, j);
        assert a[..] == s[j - 1 := s[j]][j := s[j - 1]];
        j := j - 1;
      }
      SinkDone(a[..], i, j);
      i := i + 1;
    }
  }

  /** The vector of the map's entries, sorted by number. */
  method SortedEntries(m: map<string, string>) returns (sorted: seq<Numbered>)
    requires SortDoesNotThrow(m)
    ensures ListsEntries(sorted, m) && SortedByNumber(sorted)
  {
    var entries := EntriesOf(m);
    var a := new Numbered[|entries|](i requires 0 <= i < |entries| => entries[i]);
    assert a[..] == entries;
    SortByNumber(a);
    sorted := a[..];
  }

  ghost predicate StrictlySortedByNumber(s: seq<Numbered>) {
    forall p, q :: 0 <= p < q < |s| ==> NumberOf(s[p].0) < NumberOf(s[q].0)
  }

  lemma TwoOccurrences(s: seq<Numbered>, p: nat, q: nat)
    requires p < q < |s| && s[p] == s[q]
    ensures multiset(s)[s[p]] >= 2
  {
    assert s == s[..q] + s[q..];
    assert s[p] in s[..q];
    assert s[q] in s[q..];
  }

  /** A listing of a map's entries never has the same key twice. */
  lemma KeysDistinct(s: seq<Numbered>, m: map<string, string>)
    requires ListsEntries(s, m)
    ensures forall p, q :: 0 <= p < q < |s| ==> s[p].0 != s[q].0
  {
    forall p, q | 0 <= p < q < |s|
      ensures s[p].0 != s[q].0
    {
      if s[p].0 == s[q].0 {
        assert s[p] in multiset(m.Items) && s[q] in multiset(m.Items);
        assert s[p] == s[q];
        TwoOccurrences(s, p, q);
      }
    }
  }

  /** When no two keys have the same value, a sorted listing is strictly increasing. */
  lemma SortedIsStrict(s: seq<Numbered>, m: map<string, string>)
    requires ListsEntries(s, m) && SortedByNumber(s)
    requires forall j, k :: j in m && k in m && NumberOf(j) == NumberOf(k) ==> j == k
    ensures StrictlySortedByNumber(s)
  {
    forall p, q | 0 <= p < q < |s|
      ensures NumberOf(s[p].0) < NumberOf(s[q].0)
    {
      if NumberOf(s[p].0) == NumberOf(s[q].0) {
        assert s[p] in multiset(m.Items) && s[q] in multiset(m.Items);
        assert s[p] == s[q];
        TwoOccurrences(s, p, q);
      }
    }
  }

  lemma {:induction false} StrictlySortedUnique(s1: seq<Numbered>, s2: seq<Numbered>)
    requires multiset(s1) == multiset(s2)
    requires StrictlySortedByNumber(s1) && StrictlySortedByNumber(s2)
    ensures s1 == s2
  {
    assert |s1| == |multiset(s1)| == |multiset(s2)| == |s2|;
    if s1 != [] {
      SameHead(s1, s2);
      TailsSameMultiset(s1, s2);
      StrictlySortedUnique(s1[1..], s2[1..]);
      assert s1 == [s1[0]] + s1[1..];
      assert s2 == [s2[0]] + s2[1..];
    }
  }

  /** Both listings start with the entry of least value. */
  lemma SameHead(s1: seq<Numbered>, s2: seq<Numbered>)
    requires s1 != [] && s2 != []
    requires multiset(s1) == multiset(s2)
    requires StrictlySortedByNumber(s1) && StrictlySortedByNumber(s2)
    ensures s1[0] == s2[0]
  {
    assert s1[0] in multiset(s2) && s2[0] in multiset(s1);
    var i :| 0 <= i < |s1| && s1[i] == s2[0];
    var j :| 0 <= j < |s2| && s2[j] == s1[0];
    if i > 0 && j > 0 {
      assert false;
    }
  }

  lemma TailsSameMultiset(s1: seq<Numbered>, s2: seq<Numbered>)
    requires s1 != [] && s2 != [] && s1[0] == s2[0]
    requires multiset(s1) == multiset(s2)
    ensures multiset(s1[1..]) == multiset(s2[1..])
  {
    assert s1 == [s1[0]] + s1[1..];
    assert s2 == [s2[0]] + s2[1..];
    assert multiset(s1) == multiset([s1[0]]) + multiset(s1[1..]);
    assert multiset(s2) == multiset([s2[0]]) + multiset(s2[1..]);
    assert multiset(s1[1..]) == multiset(s1) - multiset([s1[0]]);
    assert multiset(s2[1..]) == multiset(s2) - multiset([s2[0]]);
  }

  /**
   * When the keys have pairwise different values the sorted listing, and so
   * the plan, is determined; with equal values ("007" and "7") it is not,
   * since `std::sort` is not stable.
   */
  lemma SortedListingUnique(m: map<string, string>, s1: seq<Numbered>, s2: seq<Numbered>)
    requires ListsEntries(s1, m) && SortedByNumber(s1)
    requires ListsEntries(s2, m) && SortedByNumber(s2)
    requires forall j, k :: j in m && k in m && NumberOf(j) == NumberOf(k) ==> j == k
    ensures s1 == s2
  {
    SortedIsStrict(s1, m);
    SortedIsStrict(s2, m);
    StrictlySortedUnique(s1, s2);
  }

  /** "007" and "7" are two keys of equal value: both orders are sorted listings. */
  lemma EqualValuesEitherOrder()
    ensures var m := map["007" := "x007.jpg"]["7" := "y7.jpg"];
      && ListsEntries([("007", "x007.jpg"), ("7", "y7.jpg")], m)
      && SortedByNumber([("007", "x007.jpg"), ("7", "y7.jpg")])
      && ListsEntries([("7", "y7.jpg"), ("007", "x007.jpg")], m)
      && SortedByNumber([("7", "y7.jpg"), ("007", "x007.jpg")])
  {
    ItemsOfTwo("007", "x007.jpg", "7", "y7.jpg");
    SevenTwice();
  }

  lemma SevenTwice()
    ensures NumberOf("007") == 7 && NumberOf("7") == 7
  {
    assert "007"[..2] == "00" && "00"[..1] == "0" && "0"[..0] == [] && "7"[..0] == [];
  }

  lemma ItemsOfTwo(k1: string, v1: string, k2: string, v2: string)
    requires k1 != k2
    ensures map[k1 := v1][k2 := v2].Items == {(k1, v1), (k2, v2)}
  {
    var m := map[k1 := v1][k2 := v2];
    var items := {(k1, v1), (k2, v2)};
    forall x | x in m.Items
      ensures x in items
    {
      assert x.0 in m && m[x.0] == x.1;
    }
    ItemsSubset(m.Items, items);
    forall x | x in items
      ensures x in m.Items
    {
      assert x.0 in m && m[x.0] == x.1;
    }
    ItemsSubset(items, m.Items);
  }

  // ---------------------------------------------------------------------
  // The plan

  /** "image_" + counter padded to `width` digits + suffix. */
  function TargetName(counter: nat, width: nat, suffix: string): string
  {
    "image_" + ZeroPad(counter, width) + suffix
  }

  /** The k-th sorted entry (k from 1) is renamed to TargetName(k). */
  function PlanFor(sorted: seq<Numbered>, width: nat, suffix: string): (plan: seq<Rename>)
    ensures |plan| == |sorted|
  {
    seq(|sorted|, k requires 0 <= k < |sorted| => Rename(sorted[k].1, TargetName(k + 1, width, suffix)))
  }

  /** Different counters give different target names, whatever the width and suffix. */
  lemma TargetNameInjective(j: nat, k: nat, width: nat, suffix: string)
    requires TargetName(j, width, suffix) == TargetName(k, width, suffix)
    ensures j == k
  {
    var a, b := ZeroPad(j, width), ZeroPad(k, width);
    var x, y := TargetName(j, width, suffix), TargetName(k, width, suffix);
    assert |a| == |b|;
    assert x[6..6 + |a|] == a;
    assert y[6..6 + |b|] == b;
    ZeroPadInjective(j, k, width);
  }

  /**
   * One rename per map entry, each moving that entry's file, in sorted
   * order; the target names are pairwise distinct and are the padded
   * counters 1, 2, ...
   */
  lemma PlanTargetsDistinct(sorted: seq<Numbered>, width: nat, suffix: string)
    ensures |PlanFor(sorted, width, suffix)| == |sorted|
    ensures forall k :: 0 <= k < |sorted| ==> PlanFor(sorted, width, suffix)[k].from == sorted[k].1
    ensures forall j, k :: 0 <= j < k < |sorted| ==>
      PlanFor(sorted, width, suffix)[j].to != PlanFor(sorted, width, suffix)[k].to
  {
    var plan := PlanFor(sorted, width, suffix);
    forall j, k | 0 <= j < k < |sorted|
      ensures plan[j].to != plan[k].to
    {
      if plan[j].to == plan[k].to {
        TargetNameInjective(j + 1, k + 1, width, suffix);
      }
    }
  }

  /** One rename per map entry: the k-th rename moves the file of the k-th entry, and every entry is moved. */
  lemma OneRenamePerEntry(m: map<string, string>, sorted: seq<Numbered>, width: nat, suffix: string)
    requires ListsEntries(sorted, m)
    ensures |PlanFor(sorted, width, suffix)| == |m|
    ensures forall i :: 0 <= i < |sorted| ==>
      sorted[i].0 in m && PlanFor(sorted, width, suffix)[i].from == m[sorted[i].0]
    ensures forall k :: k in m ==>
      exists i :: 0 <= i < |sorted| && sorted[i].0 == k && PlanFor(sorted, width, suffix)[i].from == m[k]
  {
    var plan := PlanFor(sorted, width, suffix);
    assert |sorted| == |multiset(sorted)| == |multiset(m.Items)| == |m.Items| == |m|;
    forall i | 0 <= i < |sorted|
      ensures sorted[i].0 in m && plan[i].from == m[sorted[i].0]
    {
      assert sorted[i] in multiset(sorted);
      assert sorted[i] in m.Items;
    }
    forall k | k in m
      ensures exists i :: 0 <= i < |sorted| && sorted[i].0 == k && plan[i].from == m[k]
    {
      assert (k, m[k]) in m.Items;
      assert (k, m[k]) in multiset(sorted);
      var i :| 0 <= i < |sorted| && sorted[i] == (k, m[k]);
      assert plan[i].from == m[k];
    }
  }

  /** One more sorted entry adds one rename at the end of the plan. */
  lemma PlanForOneMore(sorted: seq<Numbered>, k: nat, width: nat, suffix: string)
    requires k < |sorted|
    ensures PlanFor(sorted[..k + 1], width, suffix)
      == PlanFor(sorted[..k], width, suffix) + [Rename(sorted[k].1, TargetName(k + 1, width, suffix))]
  {
  }

  /** The counter loop: `counter` starts at 1 and grows by one per entry. */
  method PlanRenames(sorted: seq<Numbered>, width: nat, suffix: string) returns (plan: seq<Rename>)
    ensures plan == PlanFor(sorted, width, suffix)
  {
    plan := [];
    var counter := 1;
    while counter <= |sorted|
      invariant 1 <= counter <= |sorted| + 1
      invariant plan == PlanFor(sorted[..counter - 1], width, suffix)
    {
      var filename := sorted[counter - 1].1;
      plan := plan + [Rename(filename, TargetName(counter, width, suffix))];
      counter := counter + 1;
    }
    assert sorted[..counter - 1] == sorted;
  }

  /** A numbered ".jpg" name: its extension is ".jpg" and its digit string is `digits`. */
  lemma NumberedJpg(stem: string, digits: string)
    requires stem != [] && !IsDigit(stem[|stem| - 1])
    requires digits != [] && AllDigits(digits)
    ensures Extension(stem + digits + ".jpg") == ".jpg"
    ensures LastDigitRun(stem + digits + ".jpg") == digits
  {
    ExtensionOf(stem + digits, ".jpg");
    SkipsDigitFreeSuffix(stem + digits, ".jpg");
    TrailingRunAfterNonDigit(stem, digits);
  }

  /** Three qualifying files, each with its own key, in listing order. */
  lemma CollectThree(e1: Entry, e2: Entry, e3: Entry, ext: string)
    requires Qualifies(e1, ext) && Qualifies(e2, ext) && Qualifies(e3, ext)
    ensures Collect(map[], [e1, e2, e3], ext)
      == map[LastDigitRun(e1.name) := e1.name][LastDigitRun(e2.name) := e2.name][LastDigitRun(e3.name) := e3.name]
  {
    var listing := [e1, e2, e3];
    assert [e1][..0] == [];
    assert Collect(map[], [e1], ext) == map[LastDigitRun(e1.name) := e1.name];
    assert [e1, e2][..1] == [e1];
    assert Collect(map[], [e1, e2], ext) == map[LastDigitRun(e1.name) := e1.name][LastDigitRun(e2.name) := e2.name];
    assert listing[..2] == [e1, e2];
  }

  lemma ItemsOfThree(k1: string, v1: string, k2: string, v2: string, k3: string, v3: string)
    requires k1 != k2 && k2 != k3 && k1 != k3
    ensures map[k1 := v1][k2 := v2][k3 := v3].Items == {(k1, v1), (k2, v2), (k3, v3)}
  {
    var m := map[k1 := v1][k2 := v2][k3 := v3];
    var items := {(k1, v1), (k2, v2), (k3, v3)};
    forall x | x in m.Items
      ensures x in items
    {
      assert x.0 in m && m[x.0] == x.1;
    }
    ItemsSubset(m.Items, items);
    forall x | x in items
      ensures x in m.Items
    {
      assert x.0 in m && m[x.0] == x.1;
    }
    ItemsSubset(items, m.Items);
  }

  lemma ItemsSubset(a: set<Numbered>, b: set<Numbered>)
    requires forall x :: x in a ==> x in b
    ensures a <= b
  {
  }

  lemma QualifiesNumberedJpg(stem: string, digits: string)
    requires stem != [] && !IsDigit(stem[|stem| - 1])
    requires digits != [] && AllDigits(digits)
    ensures Qualifies(Entry(stem + digits + ".jpg", true), ".jpg")
    ensures LastDigitRun(stem + digits + ".jpg") == digits
  {
    NumberedJpg(stem, digits);
  }

  /** The example listing a5.jpg, a12.jpg, a1.jpg collects under the keys "5", "12" and "1". */
  lemma ExampleCollect()
    ensures Collect(map[], [Entry("a5.jpg", true), Entry("a12.jpg", true), Entry("a1.jpg", true)], ".jpg")
      == map["5" := "a5.jpg"]["12" := "a12.jpg"]["1" := "a1.jpg"]
  {
    assert "a5.jpg" == "a" + "5" + ".jpg";
    assert "a12.jpg" == "a" + "12" + ".jpg";
    assert "a1.jpg" == "a" + "1" + ".jpg";
    QualifiesNumberedJpg("a", "5");
    QualifiesNumberedJpg("a", "12");
    QualifiesNumberedJpg("a", "1");
    CollectThree(Entry("a5.jpg", true), Entry("a12.jpg", true), Entry("a1.jpg", true), ".jpg");
  }

  /**
   * `fileMap` is never cleared, so a second `RenameFiles` is not a fresh
   * start: collecting a renamed file into the old map keeps every stale key
   * next to the new one.
   */
  lemma StaleEntryKept(m: map<string, string>, stem: string, digits: string, stale: string)
    requires stem != [] && !IsDigit(stem[|stem| - 1])
    requires digits != [] && AllDigits(digits)
    requires stale in m && stale != digits
    ensures var m' := Collect(m, [Entry(stem + digits + ".jpg", true)], ".jpg");
      && stale in m' && m'[stale] == m[stale]
      && digits in m' && m'[digits] == stem + digits + ".jpg"
  {
    QualifiesNumberedJpg(stem, digits);
    assert [Entry(stem + digits + ".jpg", true)][..0] == [];
  }

  /**
   * After a1.jpg became image_001.jpg, the next collection keeps "1" for the
   * moved a1.jpg next to "001" for image_001.jpg. Both keys have value 1,
   * and the stale one still names a1.jpg, which is no longer there.
   */
  lemma SecondRenameKeepsMovedFile()
    ensures var m := Collect(map["1" := "a1.jpg"], [Entry("image_" + "001" + ".jpg", true)], ".jpg");
      && "1" in m && m["1"] == "a1.jpg" && "001" in m && m["001"] == "image_" + "001" + ".jpg"
      && NumberOf("1") == NumberOf("001")
  {
    StaleEntryKept(map["1" := "a1.jpg"], "image_", "001", "1");
    assert "001"[..2] == "00" && "00"[..1] == "0" && "0"[..0] == [] && "1"[..0] == [];
  }

  /** The only sorted listing of that map is 1, 5, 12. */
  lemma ExampleSorted(sorted: seq<Numbered>)
    requires ListsEntries(sorted, map["5" := "a5.jpg"]["12" := "a12.jpg"]["1" := "a1.jpg"])
    requires SortedByNumber(sorted)
    ensures sorted == [("1", "a1.jpg"), ("5", "a5.jpg"), ("12", "a12.jpg")]
  {
    var m := map["5" := "a5.jpg"]["12" := "a12.jpg"]["1" := "a1.jpg"];
    var expected := [("1", "a1.jpg"), ("5", "a5.jpg"), ("12", "a12.jpg")];
    ExampleEntries();
    ExampleNumbers();
    SortedListingUnique(m, sorted, expected);
  }

  lemma ExampleEntries()
    ensures ListsEntries([("1", "a1.jpg"), ("5", "a5.jpg"), ("12", "a12.jpg")],
      map["5" := "a5.jpg"]["12" := "a12.jpg"]["1" := "a1.jpg"])
  {
    ItemsOfThree("5", "a5.jpg", "12", "a12.jpg", "1", "a1.jpg");
  }

  lemma ExampleNumbers()
    ensures NumberOf("1") == 1 && NumberOf("5") == 5 && NumberOf("12") == 12
  {
    assert "12"[..1] == "1" && "1"[..0] == [] && "5"[..0] == [];
  }

  /**
   * a5.jpg, a12.jpg, a1.jpg are renamed in numeric order, not in the
   * lexicographic order "1" < "12" < "5":
   * a1.jpg -> image_001.jpg, a5.jpg -> image_002.jpg, a12.jpg -> image_003.jpg.
   */
  lemma NumericOrderExample(sorted: seq<Numbered>)
    requires ListsEntries(sorted, Collect(map[], [Entry("a5.jpg", true), Entry("a12.jpg", true), Entry("a1.jpg", true)], ".jpg"))
    requires SortedByNumber(sorted)
    ensures PlanFor(sorted, 3, ".jpg")
      == [Rename("a1.jpg", "image_001.jpg"), Rename("a5.jpg", "image_002.jpg"), Rename("a12.jpg", "image_003.jpg")]
  {
    ExampleCollect();
    ExampleSorted(sorted);
    ExamplePlan();
  }

  lemma ExamplePlan()
    ensures PlanFor([("1", "a1.jpg"), ("5", "a5.jpg"), ("12", "a12.jpg")], 3, ".jpg")
      == [Rename("a1.jpg", "image_001.jpg"), Rename("a5.jpg", "image_002.jpg"), Rename("a12.jpg", "image_003.jpg")]
  {
    ExampleTargets();
  }

  lemma ExampleTargets()
    ensures TargetName(1, 3, ".jpg") == "image_001.jpg"
    ensures TargetName(2, 3, ".jpg") == "image_002.jpg"
    ensures TargetName(3, 3, ".jpg") == "image_003.jpg"
  {
    assert ZeroPad(1, 3) == "001" && ZeroPad(2, 3) == "002" && ZeroPad(3, 3) == "003";
  }
}
