/**
 * The scanner that reports the files of the current directory named like
 * "A123.jpg": a whole-name match of the pattern `A\d{3}\.jpg` (an
 * uppercase 'A', three ASCII digits, a literal dot, "jpg"), tried on the
 * regular files only, in listing order.
 */
module NewRegex {
  import opened Text
  import opened Directory

  /** One position of a pattern without repetition: a literal character or `\d`. */
  datatype Atom = Char(c: char) | Digit

  /** `A\d{3}\.jpg`, with `\d{3}` written out and `\.` a literal dot. */
  const ImagePattern: seq<Atom> := [Char('A'), Digit, Digit, Digit, Char('.'), Char('j'), Char('p'), Char('g')]

  predicate AtomMatches(a: Atom, x: char) {
    match a
    case Char(c) => x == c
    case Digit => IsDigit(x)
  }

  /** `std::regex_match`: the pattern must consume the whole string. */
  predicate Matches(pattern: seq<Atom>, s: string)
    decreases pattern
  {
    if pattern == [] then s == []
    else s != [] && AtomMatches(pattern[0], s[0]) && Matches(pattern[1..], s[1..])
  }

  /** The reference reading: same length, and every character matches the atom at its position. */
  predicate PositionwiseMatch(pattern: seq<Atom>, s: string) {
    |pattern| == |s| && forall i :: 0 <= i < |s| ==> AtomMatches(pattern[i], s[i])
  }

  predicate IsImageName(name: string) {
    Matches(ImagePattern, name)
  }

  /** Matching the whole string is matching position by position. */
  lemma {:induction false} MatchesPositionwise(pattern: seq<Atom>, s: string)
    ensures Matches(pattern, s) <==> PositionwiseMatch(pattern, s)
  {
    if pattern != [] && s != [] {
      MatchesPositionwise(pattern[1..], s[1..]);
      if PositionwiseMatch(pattern[1..], s[1..]) && AtomMatches(pattern[0], s[0]) {
        forall i | 0 <= i < |s|
          ensures AtomMatches(pattern[i], s[i])
        {
          if i > 0 {
            assert pattern[i] == pattern[1..][i - 1] && s[i] == s[1..][i - 1];
          }
        }
      }
      if PositionwiseMatch(pattern, s) {
        forall i | 0 <= i < |s| - 1
          ensures AtomMatches(pattern[1..][i], s[1..][i])
        {
          assert AtomMatches(pattern[i + 1], s[i + 1]);
        }
      }
    }
  }

  /**
   * A name matches exactly when it has 8 characters: 'A', three digits and
   * ".jpg".
   */
  lemma ImageNameShape(name: string)
    ensures IsImageName(name) <==>
      |name| == 8 && name[0] == 'A' && AllDigits(name[1..4]) && name[4..] == ".jpg"
  {
    MatchesPositionwise(ImagePattern, name);
    if |name| == 8 {
      if AllDigits(name[1..4]) {
        assert IsDigit(name[1..4][0]) && IsDigit(name[1..4][1]) && IsDigit(name[1..4][2]);
      }
      if PositionwiseMatch(ImagePattern, name) {
        assert AtomMatches(ImagePattern[1], name[1]);
        assert AtomMatches(ImagePattern[2], name[2]);
        assert AtomMatches(ImagePattern[3], name[3]);
        assert AtomMatches(ImagePattern[4], name[4]);
        assert AtomMatches(ImagePattern[5], name[5]);
        assert AtomMatches(ImagePattern[6], name[6]);
        assert AtomMatches(ImagePattern[7], name[7]);
        assert name[4..] == [name[4], name[5], name[6], name[7]];
      }
      if name[4..] == ".jpg" {
        assert name[4] == name[4..][0] && name[5] == name[4..][1];
        assert name[6] == name[4..][2] && name[7] == name[4..][3];
      }
    }
  }

  /** The match is of the whole name: no text can be added before or after a matching name. */
  lemma WholeNameOnly(name: string, extra: string)
    requires IsImageName(name) && extra != []
    ensures !IsImageName(extra + name) && !IsImageName(name + extra)
  {
    ImageNameShape(name);
    ImageNameShape(extra + name);
    ImageNameShape(name + extra);
  }

  /** 'A', any three digits and ".jpg" make a matching name. */
  lemma AcceptedNames(digits: string)
    requires |digits| == 3 && AllDigits(digits)
    ensures IsImageName("A" + digits + ".jpg")
  {
    var name := "A" + digits + ".jpg";
    ImageNameShape(name);
    assert name[1..4] == digits && name[4..] == ".jpg";
  }

  /** Text around a matching name is not allowed. */
  lemma NotWholeName()
    ensures !IsImageName("xA123.jpg") && !IsImageName("A123.jpg.bak")
  {
    AcceptedNames("123");
    assert "A" + "123" + ".jpg" == "A123.jpg";
    WholeNameOnly("A123.jpg", "x");
    WholeNameOnly("A123.jpg", ".bak");
  }

  /** Only an uppercase 'A' may lead: the pattern does not take any letter. */
  lemma OnlyUppercaseA()
    ensures !IsImageName("B123.jpg") && !IsImageName("a123.jpg")
  {
    ImageNameShape("B123.jpg");
    ImageNameShape("a123.jpg");
  }

  /** The dot is literal, there are exactly three digits and the extension is lower case. */
  lemma OtherRejectedNames()
    ensures !IsImageName("A123xjpg") && !IsImageName("A12.jpg") && !IsImageName("A1234.jpg")
    ensures !IsImageName("A123.JPG")
  {
    ImageNameShape("A123xjpg");
    ImageNameShape("A12.jpg");
    ImageNameShape("A1234.jpg");
    ImageNameShape("A123.JPG");
  }

  /** The names of the regular files of `listing` that `pattern` matches, in listing order. */
  function MatchedNames(listing: seq<Entry>, pattern: seq<Atom>): (names: seq<string>)
    ensures |names| <= |listing|
  {
    if listing == [] then []
    else
      var last := listing[|listing| - 1];
      MatchedNames(listing[..|listing| - 1], pattern) + (if last.isRegular && Matches(pattern, last.name) then [last.name] else [])
  }

  /** A name is reported exactly when some regular file of the listing has it and it matches. */
  lemma {:induction false} MatchedNamesMembers(listing: seq<Entry>, pattern: seq<Atom>, name: string)
    ensures name in MatchedNames(listing, pattern) <==>
      exists j :: 0 <= j < |listing| && listing[j].isRegular && Matches(pattern, listing[j].name) && listing[j].name == name
  {
    if listing != [] {
      var init := listing[..|listing| - 1];
      MatchedNamesMembers(init, pattern, name);
      if exists j :: 0 <= j < |init| && init[j].isRegular && Matches(pattern, init[j].name) && init[j].name == name {
        var j :| 0 <= j < |init| && init[j].isRegular && Matches(pattern, init[j].name) && init[j].name == name;
        assert listing[j] == init[j];
      }
      if exists j :: 0 <= j < |listing| && listing[j].isRegular && Matches(pattern, listing[j].name) && listing[j].name == name {
        var j :| 0 <= j < |listing| && listing[j].isRegular && Matches(pattern, listing[j].name) && listing[j].name == name;
        if j < |init| {
          assert init[j] == listing[j];
        }
      }
    }
  }

  /** Listing order is kept: the matches of two listings one after the other are reported one after the other. */
  lemma {:induction false} MatchedNamesAppend(a: seq<Entry>, b: seq<Entry>, pattern: seq<Atom>)
    ensures MatchedNames(a + b, pattern) == MatchedNames(a, pattern) + MatchedNames(b, pattern)
    decreases |b|
  {
    if b == [] {
      assert a + b == a;
    } else {
      var init := b[..|b| - 1];
      assert (a + b)[..|a + b| - 1] == a + init;
      assert (a + b)[|a + b| - 1] == b[|b| - 1];
      MatchedNamesAppend(a, init, pattern);
    }
  }

  /** Scanning one more entry adds its name exactly when it is a regular file that matches. */
  lemma MatchedNamesOneMore(listing: seq<Entry>, k: nat, pattern: seq<Atom>)
    requires k < |listing|
    ensures MatchedNames(listing[..k + 1], pattern) == MatchedNames(listing[..k], pattern)
      + (if listing[k].isRegular && Matches(pattern, listing[k].name) then [listing[k].name] else [])
  {
    assert listing[..k + 1][..k] == listing[..k];
  }

  /** The printed path: the scanned directory "./" joined with the file name, in double quotes. */
  function MatchLine(name: string): string {
    "Matched file: \"./" + name + "\""
  }

  /**
   * The scan: one line per regular file whose name matches `ImagePattern`,
   * in listing order. Such a name holds no '"' or '\\', so the quoting adds
   * no escapes (`NothingToEscape`).
   */
  method ReportMatches(listing: seq<Entry>) returns (out: seq<string>)
    ensures |out| == |MatchedNames(listing, ImagePattern)|
    ensures forall i :: 0 <= i < |out| ==> out[i] == MatchLine(MatchedNames(listing, ImagePattern)[i])
  {
    out := [];
    ghost var names: seq<string> := [];
    var k := 0;
    while k < |listing|
      invariant 0 <= k <= |listing|
      invariant names == MatchedNames(listing[..k], ImagePattern)
      invariant |out| == |names|
      invariant forall i :: 0 <= i < |out| ==> out[i] == MatchLine(names[i])
    {
      var entry := listing[k];
      MatchedNamesOneMore(listing, k, ImagePattern);
      if entry.isRegular {
        var filename := entry.name;
        if Matches(ImagePattern, filename) {
          out := out + ["Matched file: \"./" + filename + "\""];
          names := names + [filename];
        }
      }
      k := k + 1;
    }
    assert listing[..k] == listing;
  }

  /** A matching name needs no escaping inside the quotes. */
  lemma NothingToEscape(name: string)
    requires IsImageName(name)
    ensures forall i :: 0 <= i < |name| ==> name[i] != '"' && name[i] != '\\'
  {
    MatchesPositionwise(ImagePattern, name);
    forall i | 0 <= i < |name|
      ensures name[i] != '"' && name[i] != '\\'
    {
      assert AtomMatches(ImagePattern[i], name[i]);
    }
  }
}
