/**
 * `extractNumberFromFilename`: walk the file name backwards, collect digits
 * once the first one is seen, stop at the first non-digit after that, and
 * reverse what was collected. The result is the LAST maximal run of ASCII
 * digits anywhere in the name, the extension included.
 */
module DigitRun {
  import opened Text

  /** The longest suffix of `s` that consists of digits only. */
  function TrailingDigits(s: string): (r: string)
    ensures |r| <= |s| && r == s[|s| - |r|..]
    ensures AllDigits(r)
    ensures |r| < |s| ==> !IsDigit(s[|s| - |r| - 1])
  {
    if s != [] && IsDigit(s[|s| - 1]) then TrailingDigits(s[..|s| - 1]) + [s[|s| - 1]] else []
  }

  /** The last maximal run of digits in `s`, or empty when `s` has no digit. */
  function LastDigitRun(s: string): string
  {
    if s == [] then []
    else if IsDigit(s[|s| - 1]) then TrailingDigits(s)
    else LastDigitRun(s[..|s| - 1])
  }

  function Reversed(s: string): (r: string)
    ensures |r| == |s|
  {
    if s == [] then [] else [s[|s| - 1]] + Reversed(s[..|s| - 1])
  }

  lemma {:induction false} ReversedIndex(s: string, i: nat)
    requires i < |s|
    ensures Reversed(s)[i] == s[|s| - 1 - i]
  {
    if i > 0 {
      ReversedIndex(s[..|s| - 1], i - 1);
    }
  }

  /**
   * The run is a contiguous piece s[start..start+|r|] of digits, preceded by
   * a non-digit (or the start of the name) and followed only by non-digits;
   * it is empty exactly when the name has no digit at all.
   */
  lemma {:induction false} LastDigitRunShape(s: string) returns (start: nat)
    ensures start + |LastDigitRun(s)| <= |s|
    ensures s[start..start + |LastDigitRun(s)|] == LastDigitRun(s)
    ensures AllDigits(LastDigitRun(s))
    ensures NoDigits(s[start + |LastDigitRun(s)|..])
    ensures LastDigitRun(s) != [] ==> start == 0 || !IsDigit(s[start - 1])
    ensures LastDigitRun(s) == [] <==> NoDigits(s)
    decreases |s|, 1
  {
    if s == [] {
      start := 0;
    } else if IsDigit(s[|s| - 1]) {
      start := ShapeDigitLast(s);
    } else {
      start := ShapeNonDigitLast(s);
    }
  }

  lemma ShapeDigitLast(s: string) returns (start: nat)
    requires s != [] && IsDigit(s[|s| - 1])
    ensures start + |LastDigitRun(s)| == |s|
    ensures s[start..] == LastDigitRun(s)
    ensures AllDigits(LastDigitRun(s)) && LastDigitRun(s) != [] && !NoDigits(s)
    ensures start == 0 || !IsDigit(s[start - 1])
  {
    var r := TrailingDigits(s);
    assert r == LastDigitRun(s);
    start := |s| - |r|;
  }

  lemma {:induction false} ShapeNonDigitLast(s: string) returns (start: nat)
    requires s != [] && !IsDigit(s[|s| - 1])
    ensures start + |LastDigitRun(s)| <= |s|
    ensures s[start..start + |LastDigitRun(s)|] == LastDigitRun(s)
    ensures AllDigits(LastDigitRun(s))
    ensures NoDigits(s[start + |LastDigitRun(s)|..])
    ensures LastDigitRun(s) != [] ==> start == 0 || !IsDigit(s[start - 1])
    ensures LastDigitRun(s) == [] <==> NoDigits(s)
    decreases |s|, 0
  {
    var t := s[..|s| - 1];
    start := LastDigitRunShape(t);
    var r := LastDigitRun(t);
    assert LastDigitRun(s) == r;
    PrefixPieces(s, t, start, |r|);
    NoDigitsExtend(t, s);
  }

  /** Pieces of a prefix `t` of `s`: the middle piece is shared, and the tail piece grows by the last character. */
  lemma PrefixPieces(s: string, t: string, a: nat, n: nat)
    requires s != [] && t == s[..|s| - 1] && a + n <= |t|
    requires NoDigits(t[a + n..]) && !IsDigit(s[|s| - 1])
    ensures s[a..a + n] == t[a..a + n]
    ensures NoDigits(s[a + n..])
  {
    var after := s[a + n..];
    forall i | 0 <= i < |after|
      ensures !IsDigit(after[i])
    {
      if i < |after| - 1 {
        assert after[i] == t[a + n..][i];
      }
    }
  }

  /** Adding a non-digit at the end keeps a name digit-free, and a digit-free name has a digit-free prefix. */
  lemma NoDigitsExtend(t: string, s: string)
    requires s != [] && t == s[..|s| - 1] && !IsDigit(s[|s| - 1])
    ensures NoDigits(s) <==> NoDigits(t)
  {
    if NoDigits(t) {
      forall i | 0 <= i < |s|
        ensures !IsDigit(s[i])
      {
        if i < |t| {
          assert s[i] == t[i];
        }
      }
    }
    if NoDigits(s) {
      forall i | 0 <= i < |t|
        ensures !IsDigit(t[i])
      {
        assert t[i] == s[i];
      }
    }
  }

  /** Characters after the last digit (an extension such as ".jpg") are skipped. */
  lemma {:induction false} SkipsDigitFreeSuffix(stem: string, suffix: string)
    requires NoDigits(suffix)
    ensures LastDigitRun(stem + suffix) == LastDigitRun(stem)
  {
    if suffix != [] {
      var s := stem + suffix;
      var shorter := suffix[..|suffix| - 1];
      assert s[..|s| - 1] == stem + shorter;
      SkipsDigitFreeSuffix(stem, shorter);
    } else {
      assert stem + suffix == stem;
    }
  }

  /** A digit run at the very end of the name, after a non-digit, is the run. */
  lemma {:induction false} TrailingRunAfterNonDigit(prefix: string, digits: string)
    requires digits != [] && AllDigits(digits)
    requires prefix == [] || !IsDigit(prefix[|prefix| - 1])
    ensures LastDigitRun(prefix + digits) == digits
  {
    TrailingAfterNonDigit(prefix, digits);
  }

  lemma {:induction false} TrailingAfterNonDigit(prefix: string, digits: string)
    requires AllDigits(digits)
    requires prefix == [] || !IsDigit(prefix[|prefix| - 1])
    ensures TrailingDigits(prefix + digits) == digits
  {
    var s := prefix + digits;
    if digits == [] {
      assert s == prefix;
    } else {
      assert s[..|s| - 1] == prefix + digits[..|digits| - 1];
      TrailingAfterNonDigit(prefix, digits[..|digits| - 1]);
    }
  }

  /** A digit in the extension is picked up: "clip.mp4" gives "4". */
  lemma DigitInExtension()
    ensures LastDigitRun("clip.mp4") == "4"
  {
    assert "clip.mp4" == "clip.mp" + "4";
    TrailingRunAfterNonDigit("clip.mp", "4");
  }

  /** Leading zeros of the run are kept: "img007.jpg" gives "007". */
  lemma LeadingZerosKept()
    ensures LastDigitRun("img007.jpg") == "007"
  {
    assert "img007.jpg" == "img007" + ".jpg";
    SkipsDigitFreeSuffix("img007", ".jpg");
    assert "img007" == "img" + "007";
    TrailingRunAfterNonDigit("img", "007");
  }

  /** `std::reverse` over the whole buffer. */
  method ReverseInPlace(a: array<char>)
    modifies a
    ensures a[..] == Reversed(old(a[..]))
  {
    var lo, hi := 0, a.Length;
    while lo + 1 < hi
      invariant 0 <= lo <= hi <= a.Length && lo + hi == a.Length
      invariant forall i :: 0 <= i < lo ==> a[i] == old(a[a.Length - 1 - i])
      invariant forall i :: hi <= i < a.Length ==> a[i] == old(a[a.Length - 1 - i])
      invariant forall i :: lo <= i < hi ==> a[i] == old(a[i])
    {
      a[lo], a[hi - 1] := a[hi - 1], a[lo];
      lo, hi := lo + 1, hi - 1;
    }
    forall i | 0 <= i < a.Length
      ensures a[..][i] == Reversed(old(a[..]))[i]
    {
      ReversedIndex(old(a[..]), i);
    }
  }

  /**
   * The backward walk's invariant with `filename[..k]` still to visit: before
   * the first digit the run lies in what is left; after it, the run is the
   * digits still ahead of the walk followed by what was collected, reversed.
   */
  ghost predicate Walked(filename: string, k: nat, collected: string, foundDigit: bool) {
    k <= |filename|
    && (!foundDigit ==> collected == [] && LastDigitRun(filename) == LastDigitRun(filename[..k]))
    && (foundDigit ==> LastDigitRun(filename) == TrailingDigits(filename[..k]) + Reversed(collected))
  }

  /** Collecting a digit keeps the invariant. */
  lemma DigitStep(filename: string, k: nat, collected: string, foundDigit: bool)
    requires 0 < k && Walked(filename, k, collected, foundDigit) && IsDigit(filename[k - 1])
    ensures Walked(filename, k - 1, collected + [filename[k - 1]], true)
  {
    var c := filename[k - 1];
    var t := filename[..k];
    assert t[..k - 1] == filename[..k - 1] && t[k - 1] == c;
    if foundDigit {
      NextDigit(t, c, collected);
    } else {
      FirstDigit(filename, t, c);
      assert collected + [c] == [c];
    }
  }

  lemma NextDigit(t: string, c: char, collected: string)
    requires t != [] && t[|t| - 1] == c && IsDigit(c)
    ensures TrailingDigits(t) + Reversed(collected) == TrailingDigits(t[..|t| - 1]) + Reversed(collected + [c])
  {
    var a := TrailingDigits(t[..|t| - 1]);
    var b := Reversed(collected);
    var x := TrailingDigits(t);
    var y := Reversed(collected + [c]);
    TrailingStep(t);
    ReversedStep(collected, c);
    Regroup(a, b, c, x, y);
  }

  lemma Regroup(a: string, b: string, c: char, x: string, y: string)
    requires x == a + [c] && y == [c] + b
    ensures x + b == a + y
  {
  }

  lemma FirstDigit(filename: string, t: string, c: char)
    requires t != [] && t[|t| - 1] == c && IsDigit(c)
    requires LastDigitRun(filename) == LastDigitRun(t)
    ensures LastDigitRun(filename) == TrailingDigits(t[..|t| - 1]) + Reversed([c])
  {
    TrailingStep(t);
    assert Reversed([c]) == [c] by {
      assert [c][..0] == [];
    }
  }

  lemma TrailingStep(t: string)
    requires t != [] && IsDigit(t[|t| - 1])
    ensures TrailingDigits(t) == TrailingDigits(t[..|t| - 1]) + [t[|t| - 1]]
  {
  }

  lemma ReversedStep(s: string, c: char)
    ensures Reversed(s + [c]) == [c] + Reversed(s)
  {
    assert (s + [c])[..|s|] == s;
  }

  /** Skipping a non-digit before the first digit keeps the invariant. */
  lemma SkipStep(filename: string, k: nat, collected: string)
    requires 0 < k && Walked(filename, k, collected, false) && !IsDigit(filename[k - 1])
    ensures Walked(filename, k - 1, collected, false)
  {
    assert filename[..k][..k - 1] == filename[..k - 1];
  }

  /** When the backward walk stops, the digits it collected are the run, reversed. */
  lemma LoopExit(filename: string, k: nat, collected: string, foundDigit: bool)
    requires Walked(filename, k, collected, foundDigit)
    requires k == 0 || (foundDigit && !IsDigit(filename[k - 1]))
    ensures LastDigitRun(filename) == Reversed(collected)
  {
    if foundDigit {
      assert TrailingDigits(filename[..k]) == [];
    }
  }

  /** Models `extractNumberFromFilename` (identical in both programs). */
  method ExtractNumberFromFilename(filename: string) returns (number: string)
    ensures number == LastDigitRun(filename)
    ensures AllDigits(number)
    ensures number == [] <==> NoDigits(filename)
  {
    var collected: string := [];  // the digits in the order they are pushed back
    var foundDigit := false;
    var k := |filename|;          // the reverse iterator points at filename[k - 1]
    assert filename[..k] == filename;
    while k > 0
      invariant Walked(filename, k, collected, foundDigit)
    {
      var c := filename[k - 1];
      if IsDigit(c) {
        DigitStep(filename, k, collected, foundDigit);
        foundDigit := true;
        collected := collected + [c];
      } else if foundDigit {
        break;
      } else {
        SkipStep(filename, k, collected);
      }
      k := k - 1;
    }
    LoopExit(filename, k, collected, foundDigit);
    var buffer := new char[|collected|](i requires 0 <= i < |collected| => collected[i]);
    assert buffer[..] == collected;
    ReverseInPlace(buffer);
    number := buffer[..];
    var start := LastDigitRunShape(filename);
  }
}
