/** What the Slovak and Czech branches extract from addresses of two and
    three lines. */
module ViesSlovakiaCzechia {
  import opened Wrappers
  import opened JsString
  import opened ViesParser
  import opened ViesProperties
  import opened ViesRoundTrips

  // ---------------------------------------------------------------------
  // Slovakia

  /** The Slovak result for a trimmed street and a line of words: postal
      code and city are its first two words, whatever the flags. */
  lemma {:induction false} SlovakOfWords(text: string, street: string, words: seq<string>, cc: string,
                                         configFlags: seq<string>)
    requires IsTrimmed(street) && |words| >= 2 && AreWords(words) && IsTrimmed(cc)
    ensures SlovakResult(text, street, Join(words, " "), cc, configFlags)
            == Parsed(text, street, ZipText(words[0]), words[1], cc)
  {
    WordsLine(words);
    assert IsWord(words[0]) && IsWord(words[1]);
    assert ' ' !in words[1] by {
      assert forall i :: 0 <= i < |words[1]| ==> !IsWs(words[1][i]);
    }
    DeleteMcWithoutSpace(words[1], configFlags);
    TrimmedIsFixed(street);
    TrimmedIsFixed(cc);
    WordIsTrimmed(words[0]);
    WordIsTrimmed(words[1]);
  }

  /** The three-line Slovak branch: street, then postal code and city; the
      third line is not read. */
  lemma {:induction false} SlovakThreeRun(text: string, street: string, words: seq<string>, country: string, cc: string,
                                          configFlags: seq<string>)
    requires IsLine(street) && |words| >= 2 && AreWords(words) && IsTrimmed(cc)
    ensures Run(SlovakiaThreeLines, text, [street, Join(words, " "), country], cc, configFlags)
            == Parsed(text, street, ZipText(words[0]), words[1], cc)
  {
    SlovakOfWords(text, street, words, cc, configFlags);
  }

  /** The two-line Slovak branch on a street and a line of words. */
  lemma {:induction false} SlovakTwoRun(text: string, street: string, words: seq<string>, cc: string,
                                        configFlags: seq<string>)
    requires IsLine(street) && |words| >= 2 && AreWords(words) && IsTrimmed(cc)
    ensures Run(SlovakiaTwoLines, text, [street, Join(words, " ")], cc, configFlags)
            == Parsed(text, street, ZipText(words[0]), words[1], cc)
  {
    NotSlovensko(words);
    SlovakOfWords(text, street, words, cc, configFlags);
  }

  /** A line of at least two words is not "Slovensko". */
  lemma {:induction false} NotSlovensko(words: seq<string>)
    requires |words| >= 2 && AreWords(words)
    ensures Join(words, " ") != "Slovensko"
  {
    WordsLine(words);
    assert ' ' !in "Slovensko";
  }

  /** The two-line Slovak branch on a line of words followed by
      "Slovensko": there is no street. */
  lemma {:induction false} SlovakNoStreetRun(text: string, words: seq<string>, cc: string, configFlags: seq<string>)
    requires |words| >= 2 && AreWords(words) && IsTrimmed(cc)
    ensures Run(SlovakiaTwoLines, text, [Join(words, " "), "Slovensko"], cc, configFlags)
            == Parsed(text, "", ZipText(words[0]), words[1], cc)
  {
    SlovakOfWords(text, "", words, cc, configFlags);
  }

  /** Slovak addresses of two and three lines go to their branches. */
  lemma {:induction false} SlovakRoutes()
    ensures Route(SK, 1, false) == Some(SlovakiaTwoLines) && BranchNewlines(SlovakiaTwoLines) == 1
    ensures Route(SK, 2, false) == Some(SlovakiaThreeLines) && BranchNewlines(SlovakiaThreeLines) == 2
  {
  }

  /** "Slovensko" is a line, and a line followed by it is the two lines
      joined by a line feed. */
  lemma {:induction false} SlovenskoLine(line: string)
    ensures IsLine("Slovensko")
    ensures line + "\nSlovensko" == line + "\n" + "Slovensko"
  {
  }

  /** A line of at least two words is a line. */
  lemma {:induction false} WordsAreLine(words: seq<string>)
    requires |words| >= 2 && AreWords(words)
    ensures IsLine(Join(words, " "))
  {
    WordsLine(words);
  }

  /** Slovakia, three lines: street, postal code and city, country; the
      country line is dropped. */
  lemma {:induction false} SlovakiaThreeLinesRoundTrip(vatNumber: string, street: string, words: seq<string>,
                                                       country: string, configFlags: seq<string>)
    requires Lookup(CountryCode(vatNumber)) == Some(SK)
    requires IsLine(street) && |words| >= 2 && AreWords(words) && IsLine(country)
    ensures var address := street + "\n" + Join(words, " ") + "\n" + country;
            GetParsedAddress(vatNumber, address, configFlags)
            == Parsed(address, street, ZipText(words[0]), words[1], CountryCode(vatNumber))
  {
    var line := Join(words, " ");
    WordsAreLine(words);
    CodeTrimmed(vatNumber, SK);
    SlovakThreeRun(street + "\n" + line + "\n" + country, street, words, country, CountryCode(vatNumber), configFlags);
    SlovakRoutes();
    ThreeLineCall(vatNumber, street, line, country, configFlags, SK, SlovakiaThreeLines);
  }

  /** Slovakia, two lines: street, then postal code and city. */
  lemma {:induction false} SlovakiaTwoLinesRoundTrip(vatNumber: string, street: string, words: seq<string>,
                                                     configFlags: seq<string>)
    requires Lookup(CountryCode(vatNumber)) == Some(SK)
    requires IsLine(street) && |words| >= 2 && AreWords(words)
    ensures var address := street + "\n" + Join(words, " ");
            GetParsedAddress(vatNumber, address, configFlags)
            == Parsed(address, street, ZipText(words[0]), words[1], CountryCode(vatNumber))
  {
    var line := Join(words, " ");
    WordsAreLine(words);
    CodeTrimmed(vatNumber, SK);
    SlovakTwoRun(street + "\n" + line, street, words, CountryCode(vatNumber), configFlags);
    SlovakRoutes();
    TwoLineCall(vatNumber, street, line, configFlags, SK, SlovakiaTwoLines);
  }

  /** Slovakia, postal code and city followed by "Slovensko": the street is
      empty. */
  lemma {:induction false} SlovakiaWithoutStreet(vatNumber: string, words: seq<string>, configFlags: seq<string>)
    requires Lookup(CountryCode(vatNumber)) == Some(SK)
    requires |words| >= 2 && AreWords(words)
    ensures var address := Join(words, " ") + "\nSlovensko";
            GetParsedAddress(vatNumber, address, configFlags)
            == Parsed(address, "", ZipText(words[0]), words[1], CountryCode(vatNumber))
  {
    var line := Join(words, " ");
    WordsAreLine(words);
    CodeTrimmed(vatNumber, SK);
    SlovenskoLine(line);
    SlovakNoStreetRun(line + "\nSlovensko", words, CountryCode(vatNumber), configFlags);
    SlovakRoutes();
    TwoLineCall(vatNumber, line, "Slovensko", configFlags, SK, SlovakiaTwoLines);
  }

  // ---------------------------------------------------------------------
  // Czechia

  /** In "z1 z2 city" the second space follows z2. */
  lemma {:induction false} SecondSpace(z1: string, z2: string, city: string)
    requires IsWord(z1) && IsWord(z2)
    ensures var line := z1 + " " + z2 + " " + city;
            IndexOfFrom(line, " ", IndexOf(line, " ") + 1) == |z1| + 1 + |z2|
  {
    var line := z1 + " " + z2 + " " + city;
    assert line == z1 + " " + (z2 + " " + city);
    FirstSpace(z1, z2 + " " + city);
    var p := |z1| + 1 + |z2|;
    assert line[p] == ' ';
    OccursAtChar(line, ' ', p);
    forall k | |z1| + 1 <= k < p ensures !OccursAt(line, " ", k) {
      assert line[k] == z2[k - |z1| - 1];
      OccursAtChar(line, ' ', k);
    }
    IndexOfFromIs(line, " ", |z1| + 1, p);
  }

  /** The two-line Czech branch on a street and "z1 z2 city": the postal
      code is the text up to the second space. */
  lemma {:induction false} CzechTwoRun(text: string, street: string, z1: string, z2: string, city: string, cc: string,
                                       configFlags: seq<string>)
    requires IsLine(street) && IsWord(z1) && IsWord(z2) && IsLine(city) && IsTrimmed(cc)
    ensures Run(CzechTwoLines, text, [street, z1 + " " + z2 + " " + city], cc, configFlags)
            == Parsed(text, street, ZipText(z1 + " " + z2), city, cc)
  {
    CzechParse(text, street, z1, z2, city, cc);
  }

  /** The two-line Czech extraction itself on a street and "z1 z2 city". */
  lemma {:induction false} CzechParse(text: string, street: string, z1: string, z2: string, city: string, cc: string)
    requires IsTrimmed(street) && IsWord(z1) && IsWord(z2) && IsLine(city) && IsTrimmed(cc)
    ensures ParseCzechTwoLines(text, [street, z1 + " " + z2 + " " + city], cc)
            == Parsed(text, street, ZipText(z1 + " " + z2), city, cc)
  {
    var line := z1 + " " + z2 + " " + city;
    CzechPieces(z1, z2, city);
    assert ParseCzechTwoLines(text, [street, line], cc) == Result(text, street, z1 + " " + z2, " " + city, cc);
    TrimLeadingSpace(city);
    TwoWordsTrimmed(z1, z2);
    TrimmedIsFixed(street);
    TrimmedIsFixed(cc);
  }

  /** "z1 z2 city" cut at its second space. */
  lemma {:induction false} CzechPieces(z1: string, z2: string, city: string)
    requires IsWord(z1) && IsWord(z2)
    ensures var line := z1 + " " + z2 + " " + city;
            var pos := IndexOfFrom(line, " ", IndexOf(line, " ") + 1);
            Substr(line, 0, pos) == z1 + " " + z2 && Substr(line, pos, |line|) == " " + city
  {
    var line := z1 + " " + z2 + " " + city;
    var p := |z1| + 1 + |z2|;
    SecondSpace(z1, z2, city);
    assert line[0..p] == z1 + " " + z2;
    assert line[p..] == " " + city;
  }

  /** Two words joined by a space are their own trim. */
  lemma {:induction false} TwoWordsTrimmed(z1: string, z2: string)
    requires IsWord(z1) && IsWord(z2)
    ensures Trim(z1 + " " + z2) == z1 + " " + z2
  {
    var zip := z1 + " " + z2;
    assert zip[0] == z1[0] && zip[|zip| - 1] == z2[|z2| - 1];
    TrimmedIsFixed(zip);
  }

  /** Czechia, two lines: street, then a postal code of two words and the
      city. */
  lemma {:induction false} CzechRoundTrip(vatNumber: string, street: string, z1: string, z2: string, city: string,
                                          configFlags: seq<string>)
    requires Lookup(CountryCode(vatNumber)) == Some(CZ)
    requires IsLine(street) && IsWord(z1) && IsWord(z2) && IsLine(city)
    ensures var address := street + "\n" + z1 + " " + z2 + " " + city;
            GetParsedAddress(vatNumber, address, configFlags)
            == Parsed(address, street, ZipText(z1 + " " + z2), city, CountryCode(vatNumber))
  {
    var line := z1 + " " + z2 + " " + city;
    CzechLine(street, z1, z2, city);
    CodeTrimmed(vatNumber, CZ);
    CzechTwoRun(street + "\n" + line, street, z1, z2, city, CountryCode(vatNumber), configFlags);
    CzechRoutes();
    TwoLineCall(vatNumber, street, line, configFlags, CZ, CzechTwoLines);
  }

  /** Two-line Czech addresses go to the two-line branch. */
  lemma {:induction false} CzechRoutes()
    ensures Route(CZ, 1, false) == Some(CzechTwoLines) && BranchNewlines(CzechTwoLines) == 1
  {
  }

  /** "z1 z2 city" of two words and a line is a line, the second line of
      the address. */
  lemma {:induction false} CzechLine(street: string, z1: string, z2: string, city: string)
    requires IsWord(z1) && IsWord(z2) && IsLine(city)
    ensures IsLine(z1 + " " + z2 + " " + city)
    ensures street + "\n" + z1 + " " + z2 + " " + city == street + "\n" + (z1 + " " + z2 + " " + city)
  {
    var line := z1 + " " + z2 + " " + city;
    assert line[0] == z1[0] && line[|line| - 1] == city[|city| - 1];
    assert '\n' !in z1 by {
      assert forall i :: 0 <= i < |z1| ==> !IsWs(z1[i]);
    }
    assert '\n' !in z2 by {
      assert forall i :: 0 <= i < |z2| ==> !IsWs(z2[i]);
    }
    assert line == z1 + (" " + z2) + (" " + city);
  }

  /** The two-line Czech branch on "zip city" with a single space: there is
      no second space, so the postal code is empty and the city is the last
      character. */
  lemma {:induction false} CzechSingleSpaceRun(text: string, street: string, zip: string, city: string, cc: string,
                                               configFlags: seq<string>)
    requires IsLine(street) && IsWord(zip) && IsWord(city) && IsTrimmed(cc)
    ensures Run(CzechTwoLines, text, [street, zip + " " + city], cc, configFlags)
            == Parsed(text, street, ZipText(""), [city[|city| - 1]], cc)
  {
    CzechSingleSpaceParse(text, street, zip, city, cc);
  }

  /** The two-line Czech extraction itself on "zip city" with a single
      space. */
  lemma {:induction false} CzechSingleSpaceParse(text: string, street: string, zip: string, city: string, cc: string)
    requires IsTrimmed(street) && IsWord(zip) && IsWord(city) && IsTrimmed(cc)
    ensures ParseCzechTwoLines(text, [street, zip + " " + city], cc)
            == Parsed(text, street, ZipText(""), [city[|city| - 1]], cc)
  {
    SingleSpacePieces(zip, city);
    assert Trim("") == "";
    TrimmedIsFixed([city[|city| - 1]]);
    TrimmedIsFixed(street);
    TrimmedIsFixed(cc);
  }

  /** "zip city" with a single space has no second space: `indexOf` gives
      -1, so the postal code is empty and the city its last character. */
  lemma {:induction false} SingleSpacePieces(zip: string, city: string)
    requires IsWord(zip) && IsWord(city)
    ensures var line := zip + " " + city;
            var pos := IndexOfFrom(line, " ", IndexOf(line, " ") + 1);
            pos == -1 && Substr(line, 0, pos) == "" && Substr(line, pos, |line|) == [city[|city| - 1]]
  {
    var line := zip + " " + city;
    FirstSpace(zip, city);
    forall k | |zip| + 1 <= k ensures !OccursAt(line, " ", k) {
      if k < |line| {
        assert line[k] == city[k - |zip| - 1];
        OccursAtChar(line, ' ', k);
      }
    }
    IndexOfFromAbsent(line, " ", |zip| + 1);
    assert line[|line| - 1..] == [city[|city| - 1]];
  }

  /** "zip city" of two words is a line, the second line of the address. */
  lemma {:induction false} SingleSpaceLine(street: string, zip: string, city: string)
    requires IsWord(zip) && IsWord(city)
    ensures IsLine(zip + " " + city)
    ensures street + "\n" + zip + " " + city == street + "\n" + (zip + " " + city)
  {
    WordsAreLine([zip, city]);
    assert Join([zip, city], " ") == zip + " " + city;
  }

  /** Czechia, two lines whose second holds a single space: the postal code
      comes back empty and the city is only the last character. */
  lemma {:induction false} CzechSingleSpace(vatNumber: string, street: string, zip: string, city: string,
                                            configFlags: seq<string>)
    requires Lookup(CountryCode(vatNumber)) == Some(CZ)
    requires IsLine(street) && IsWord(zip) && IsWord(city)
    ensures var address := street + "\n" + zip + " " + city;
            GetParsedAddress(vatNumber, address, configFlags)
            == Parsed(address, street, ZipText(""), [city[|city| - 1]], CountryCode(vatNumber))
  {
    var line := zip + " " + city;
    SingleSpaceLine(street, zip, city);
    CodeTrimmed(vatNumber, CZ);
    CzechSingleSpaceRun(street + "\n" + line, street, zip, city, CountryCode(vatNumber), configFlags);
    CzechRoutes();
    TwoLineCall(vatNumber, street, line, configFlags, CZ, CzechTwoLines);
  }
}
