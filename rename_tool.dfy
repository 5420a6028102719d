/**
 * The stand-alone renaming tool: collect the numbered ".jpg" files of the
 * current directory, sort them by number and rename them to
 * "image_" + 5-digit counter + ".jpg", logging each rename.
 */
module RenameTool {
  import opened Text
  import opened Directory
  import opened DigitRun
  import opened RenamePlan

  /** The only extension the tool looks at. */
  const Ext: string := ".jpg"

  /** `std::setw(5)` for the counter. */
  const CounterWidth: nat := 5

  /** The line written to standard output for one rename. */
  function LogLine(r: Rename): string
  {
    "Renamed: " + r.from + " -> " + r.to
  }

  /**
   * The tool's `main` on a directory listing: `sorted` is the sorted
   * `fileMap`, `plan` the renames in the order they are done (each stands
   * for one `fs::rename`) and `log` the lines printed.
   */
  method RunRename(listing: seq<Entry>) returns (sorted: seq<Numbered>, plan: seq<Rename>, log: seq<string>)
    requires SortDoesNotThrow(Collect(map[], listing, Ext))
    ensures ListsEntries(sorted, Collect(map[], listing, Ext)) && SortedByNumber(sorted)
    ensures plan == PlanFor(sorted, CounterWidth, Ext)
    ensures |log| == |plan| && forall i :: 0 <= i < |plan| ==> log[i] == LogLine(plan[i])
  {
    var fileMap := CollectNumbered(map[], listing, Ext);
    sorted := SortedEntries(fileMap);
    plan, log := [], [];
    var counter := 1;
    while counter <= |sorted|
      invariant 1 <= counter <= |sorted| + 1
      invariant plan == PlanFor(sorted[..counter - 1], CounterWidth, Ext)
      invariant |log| == |plan| && forall i :: 0 <= i < |plan| ==> log[i] == LogLine(plan[i])
    {
      var filename := sorted[counter - 1].1;
      var newFilename := TargetName(counter, CounterWidth, Ext);
      PlanForOneMore(sorted, counter - 1, CounterWidth, Ext);
      plan := plan + [Rename(filename, newFilename)];
      log := log + ["Renamed: " + filename + " -> " + newFilename];
      counter := counter + 1;
    }
    assert sorted[..counter - 1] == sorted;
  }

  // ---------------------------------------------------------------------
  // Properties

  /** Each rename moves a regular ".jpg" file of the listing whose digit string is the entry's key. */
  lemma {:induction false} RenamesListedFiles(listing: seq<Entry>, sorted: seq<Numbered>, i: nat)
    requires ListsEntries(sorted, Collect(map[], listing, Ext)) && i < |sorted|
    ensures exists j ::
      && 0 <= j < |listing| && Qualifies(listing[j], Ext)
      && listing[j].name == PlanFor(sorted, CounterWidth, Ext)[i].from
      && LastDigitRun(listing[j].name) == sorted[i].0
  {
    var m := Collect(map[], listing, Ext);
    var k := sorted[i].0;
    assert sorted[i] in multiset(m.Items);
    assert k in m && m[k] == sorted[i].1;
    CollectFrom(map[], listing, Ext, k);
  }

  /**
   * Every digit string found among the qualifying files gets a rename, of
   * the file the map kept for it (and only one: `KeysDistinct`).
   */
  lemma {:induction false} EveryNumberRenamedOnce(listing: seq<Entry>, sorted: seq<Numbered>, j: nat)
    requires ListsEntries(sorted, Collect(map[], listing, Ext))
    requires j < |listing| && Qualifies(listing[j], Ext)
    ensures LastDigitRun(listing[j].name) in Collect(map[], listing, Ext)
    ensures exists i ::
      && 0 <= i < |sorted| && sorted[i].0 == LastDigitRun(listing[j].name)
      && PlanFor(sorted, CounterWidth, Ext)[i].from == Collect(map[], listing, Ext)[LastDigitRun(listing[j].name)]
  {
    var m := Collect(map[], listing, Ext);
    CollectHasKey(map[], listing, Ext, j);
    OneRenamePerEntry(m, sorted, CounterWidth, Ext);
  }

  /** A renamed file qualifies again, under its zero-padded counter. */
  lemma RenamedFileQualifies(counter: nat)
    ensures Qualifies(Entry(TargetName(counter, CounterWidth, Ext), true), Ext)
    ensures LastDigitRun(TargetName(counter, CounterWidth, Ext)) == ZeroPad(counter, CounterWidth)
  {
    var digits := ZeroPad(counter, CounterWidth);
    assert TargetName(counter, CounterWidth, Ext) == "image_" + digits + ".jpg";
    NumberedJpg("image_", digits);
  }

  /** The key of a renamed file has the counter as its value. */
  lemma PaddedCounterValue(counter: nat)
    ensures NumberOf(ZeroPad(counter, CounterWidth)) == counter
  {
    ZeroPadRoundTrip(counter, CounterWidth);
  }

  /** The directory after a run on n files: image_00001.jpg to the n-th new name, in counter order. */
  function Renamed(n: nat): (listing: seq<Entry>)
    ensures |listing| == n
  {
    seq(n, i requires 0 <= i < n => Entry(TargetName(i + 1, CounterWidth, Ext), true))
  }

  /** The sorted map a second run should find: counter k under its padded counter. */
  function RenamedEntries(n: nat): (s: seq<Numbered>)
    ensures |s| == n
  {
    seq(n, i requires 0 <= i < n => (ZeroPad(i + 1, CounterWidth), TargetName(i + 1, CounterWidth, Ext)))
  }

  /** A second run's map holds exactly the entries of `RenamedEntries`. */
  lemma {:induction false} RenamedCollect(n: nat)
    ensures ListsEntries(RenamedEntries(n), Collect(map[], Renamed(n), Ext))
  {
    if n == 0 {
      assert Collect(map[], Renamed(0), Ext) == map[];
    } else {
      RenamedCollect(n - 1);
      ListsOneMore(n, Collect(map[], Renamed(n - 1), Ext));
      CollectOneMore(n);
    }
  }

  /** Adding the n-th renamed file under its padded counter adds its entry to the listing. */
  lemma ListsOneMore(n: nat, m: map<string, string>)
    requires n >= 1 && ListsEntries(RenamedEntries(n - 1), m)
    ensures ListsEntries(RenamedEntries(n), m[ZeroPad(n, CounterWidth) := TargetName(n, CounterWidth, Ext)])
  {
    var key, name := ZeroPad(n, CounterWidth), TargetName(n, CounterWidth, Ext);
    if key in m {
      var i := KeyListed(RenamedEntries(n - 1), m, key);
      ZeroPadInjective(i + 1, n, CounterWidth);
    }
    ItemsAdd(m, key, name);
    EntriesOneMore(n);
    assert multiset(RenamedEntries(n)) == multiset(RenamedEntries(n - 1)) + multiset{(key, name)};
  }

  lemma EntriesOneMore(n: nat)
    requires n >= 1
    ensures RenamedEntries(n) == RenamedEntries(n - 1) + [(ZeroPad(n, CounterWidth), TargetName(n, CounterWidth, Ext))]
  {
  }

  /** The n-th renamed file adds its padded counter to the map of the first n - 1. */
  lemma CollectOneMore(n: nat)
    requires n >= 1
    ensures Collect(map[], Renamed(n), Ext)
      == Collect(map[], Renamed(n - 1), Ext)[ZeroPad(n, CounterWidth) := TargetName(n, CounterWidth, Ext)]
  {
    assert Renamed(n)[..n - 1] == Renamed(n - 1);
    RenamedFileQualifies(n);
  }

  /** A file of an earlier run is the new name of one of its counters. */
  lemma RenamedIndex(n: nat, e: Entry) returns (i: nat)
    requires e in Renamed(n)
    ensures i < n && e == Entry(TargetName(i + 1, CounterWidth, Ext), true)
  {
    i :| 0 <= i < n && Renamed(n)[i] == e;
  }

  /** A collected key comes from a qualifying file of the listing that the key holds. */
  lemma CollectedFrom(listing: seq<Entry>, k: string) returns (j: nat)
    requires k in Collect(map[], listing, Ext)
    ensures j < |listing| && Qualifies(listing[j], Ext)
    ensures listing[j].name == Collect(map[], listing, Ext)[k] && LastDigitRun(listing[j].name) == k
  {
    CollectFrom(map[], listing, Ext, k);
    j :| 0 <= j < |listing| && Qualifies(listing[j], Ext)
      && listing[j].name == Collect(map[], listing, Ext)[k] && LastDigitRun(listing[j].name) == k;
  }

  /**
   * A key collected from files of an earlier run is the padded counter of
   * one of them, and holds that file's new name.
   */
  lemma KeyOfRenamed(n: nat, listing: seq<Entry>, k: string) returns (i: nat)
    requires forall e :: e in listing ==> e in Renamed(n)
    requires k in Collect(map[], listing, Ext)
    ensures i < n && k == ZeroPad(i + 1, CounterWidth)
    ensures Collect(map[], listing, Ext)[k] == TargetName(i + 1, CounterWidth, Ext)
  {
    var j := CollectedFrom(listing, k);
    assert listing[j] in listing;
    i := RenamedIndex(n, listing[j]);
    RenamedFileQualifies(i + 1);
  }

  /** The files of a permuted listing are those of the earlier run. */
  lemma SameFiles(n: nat, listing: seq<Entry>)
    requires multiset(listing) == multiset(Renamed(n))
    ensures forall e :: e in listing <==> e in Renamed(n)
  {
    forall e
      ensures e in listing <==> e in Renamed(n)
    {
      assert e in listing <==> e in multiset(listing);
      assert e in Renamed(n) <==> e in multiset(Renamed(n));
    }
  }

  /** Collecting the earlier run's files puts each new name under its padded counter. */
  lemma RenamedHolds(n: nat, i: nat)
    requires i < n
    ensures ZeroPad(i + 1, CounterWidth) in Collect(map[], Renamed(n), Ext)
    ensures Collect(map[], Renamed(n), Ext)[ZeroPad(i + 1, CounterWidth)] == TargetName(i + 1, CounterWidth, Ext)
  {
    assert RenamedEntries(n)[i] == (ZeroPad(i + 1, CounterWidth), TargetName(i + 1, CounterWidth, Ext));
    RenamedCollect(n);
    EntryListed(RenamedEntries(n), Collect(map[], Renamed(n), Ext), i);
  }

  /** A key collected from some of the earlier run's files is collected from all of them, with the same file. */
  lemma KeyAlsoRenamed(n: nat, listing: seq<Entry>, k: string)
    requires forall e :: e in listing ==> e in Renamed(n)
    requires k in Collect(map[], listing, Ext)
    ensures k in Collect(map[], Renamed(n), Ext)
    ensures Collect(map[], Renamed(n), Ext)[k] == Collect(map[], listing, Ext)[k]
  {
    var i := KeyOfRenamed(n, listing, k);
    RenamedHolds(n, i);
  }

  /** A key collected from the earlier run's files is collected from any listing that holds them all. */
  lemma KeyAlsoListed(n: nat, listing: seq<Entry>, k: string)
    requires forall e :: e in Renamed(n) ==> e in listing
    requires k in Collect(map[], Renamed(n), Ext)
    ensures k in Collect(map[], listing, Ext)
  {
    var i := KeyOfRenamed(n, Renamed(n), k);
    assert Renamed(n)[i] in Renamed(n);
    var j :| 0 <= j < |listing| && listing[j] == Renamed(n)[i];
    RenamedFileQualifies(i + 1);
    CollectHasKey(map[], listing, Ext, j);
  }

  /**
   * The directory iteration order does not matter on a second run: any
   * order of the files of an earlier run collects into the same map.
   */
  lemma PermutedRenamedCollect(n: nat, listing: seq<Entry>)
    requires multiset(listing) == multiset(Renamed(n))
    ensures Collect(map[], listing, Ext) == Collect(map[], Renamed(n), Ext)
  {
    var a := Collect(map[], listing, Ext);
    var b := Collect(map[], Renamed(n), Ext);
    SameFiles(n, listing);
    forall k | k in a
      ensures k in b && b[k] == a[k]
    {
      KeyAlsoRenamed(n, listing, k);
    }
    forall k | k in b
      ensures k in a
    {
      KeyAlsoListed(n, listing, k);
    }
    assert a.Keys == b.Keys;
  }

  /**
   * Idempotence of the renamer: on a directory that holds only the files of
   * an earlier run of n files, listed in any order, every sorted listing of
   * the map is the counter order, and the plan renames each file to its own
   * name.
   */
  lemma SecondRunKeepsNames(n: nat, listing: seq<Entry>, sorted: seq<Numbered>)
    requires multiset(listing) == multiset(Renamed(n))
    requires ListsEntries(sorted, Collect(map[], listing, Ext)) && SortedByNumber(sorted)
    ensures sorted == RenamedEntries(n)
    ensures |PlanFor(sorted, CounterWidth, Ext)| == n
    ensures forall i :: 0 <= i < n ==> PlanFor(sorted, CounterWidth, Ext)[i] == Rename(Renamed(n)[i].name, Renamed(n)[i].name)
  {
    PermutedRenamedCollect(n, listing);
    RenamedCollect(n);
    OnlySortedListing(n, Collect(map[], Renamed(n), Ext), sorted);
  }

  /** The only sorted listing of a map listed by `RenamedEntries(n)` is that one. */
  lemma OnlySortedListing(n: nat, m: map<string, string>, sorted: seq<Numbered>)
    requires ListsEntries(RenamedEntries(n), m)
    requires ListsEntries(sorted, m) && SortedByNumber(sorted)
    ensures sorted == RenamedEntries(n)
  {
    var expected := RenamedEntries(n);
    forall i | 0 <= i < n
      ensures NumberOf(expected[i].0) == i + 1
    {
      PaddedCounterValue(i + 1);
    }
    forall j, k | j in m && k in m && NumberOf(j) == NumberOf(k)
      ensures j == k
    {
      var p := KeyListed(expected, m, j);
      var q := KeyListed(expected, m, k);
    }
    SortedListingUnique(m, sorted, expected);
  }

  /** The sort of a second run does not throw while the counters fit in `int`. */
  lemma RenamedSortDoesNotThrow(n: nat, listing: seq<Entry>)
    requires n <= IntMax && multiset(listing) == multiset(Renamed(n))
    ensures SortDoesNotThrow(Collect(map[], listing, Ext))
  {
    var m := Collect(map[], listing, Ext);
    SameFiles(n, listing);
    forall k | k in m
      ensures NumberOf(k) <= IntMax
    {
      var i := KeyOfRenamed(n, listing, k);
      PaddedCounterValue(i + 1);
    }
    assert KeysFitInt(m);
  }

  /** Up to counter 99999 every new name is 15 characters long; from 100000 on the names grow. */
  lemma TargetLength(counter: nat)
    ensures |TargetName(counter, CounterWidth, Ext)| == 15 <==> counter < 100000
  {
    ZeroPadWidth(counter, CounterWidth);
    assert Pow10(CounterWidth) == 100000;
  }
}
