/** What each country branch extracts from an address written in the form
    it expects, and how it treats the forms it does not expect. Each result
    is proved in two steps: what the branch does with given lines, then that
    the call reaches that branch with those lines. */
module ViesRoundTrips {
  import opened Wrappers
  import opened JsString
  import opened ViesParser
  import opened ViesProperties
  import Greeklish

  /** A non-empty line with no white space at either end. */
  predicate IsLine(s: string) {
    |s| > 0 && IsTrimmed(s) && '\n' !in s
  }

  /** No two spaces stand side by side. */
  predicate NoDoubleSpace(s: string) {
    forall k :: 0 <= k && k + 1 < |s| ==> !(s[k] == ' ' && s[k + 1] == ' ')
  }

  /** A sequence of words: non-empty runs without white space. */
  predicate AreWords(words: seq<string>) {
    forall i :: 0 <= i < |words| ==> IsWord(words[i])
  }

  // ---------------------------------------------------------------------
  // Text helpers

  /** A word, a space and a line form a line. */
  lemma {:induction false} WordSpaceLine(w: string, rest: string)
    requires IsWord(w) && '\n' !in w && IsLine(rest)
    ensures IsLine(w + " " + rest)
  {
    var s := w + " " + rest;
    assert s[0] == w[0] && s[|s| - 1] == rest[|rest| - 1];
    assert '\n' !in s by {
      assert s == w + (" " + rest);
    }
  }

  /** A word, a space and text with no double space have no double space. */
  lemma {:induction false} WordSpaceSingle(w: string, rest: string)
    requires IsWord(w) && |rest| > 0 && rest[0] != ' ' && NoDoubleSpace(rest)
    ensures NoDoubleSpace(w + " " + rest)
  {
    var s := w + " " + rest;
    forall k | 0 <= k && k + 1 < |s| ensures !(s[k] == ' ' && s[k + 1] == ' ') {
      if k < |w| {
        assert s[k] == w[k];
      } else if k == |w| {
        assert s[k + 1] == rest[0];
      } else {
        assert s[k] == rest[k - |w| - 1] && s[k + 1] == rest[k - |w|];
      }
    }
  }

  /** Words joined by single spaces form a line that splits back into them. */
  lemma {:induction false} WordsLine(words: seq<string>)
    requires |words| >= 1 && AreWords(words)
    ensures IsLine(Join(words, " "))
    ensures Split(Join(words, " "), " ") == words
    ensures |words| >= 2 ==> ' ' in Join(words, " ")
    decreases |words|
  {
    forall i | 0 <= i < |words| ensures ' ' !in words[i] && '\n' !in words[i] {
      assert IsWord(words[i]);
    }
    SplitJoin(words, ' ');
    if |words| > 1 {
      var w := words[0];
      TailWords(words);
      WordsLine(words[1..]);
      var rest := Join(words[1..], " ");
      assert Join(words, " ") == w + " " + rest;
      WordSpaceLine(w, rest);
      assert (w + " " + rest)[|w|] == ' ';
    } else {
      assert Join(words, " ") == words[0];
      assert IsWord(words[0]);
    }
  }

  lemma {:induction false} TailWords(words: seq<string>)
    requires |words| >= 1 && AreWords(words)
    ensures AreWords(words[1..])
  {
    forall i | 0 <= i < |words| - 1 ensures IsWord(words[1..][i]) {
      assert words[1..][i] == words[i + 1];
    }
  }

  /** Words joined by single spaces have no two spaces side by side. */
  lemma {:induction false} WordsSingleSpaced(words: seq<string>)
    requires |words| >= 1 && AreWords(words)
    ensures NoDoubleSpace(Join(words, " "))
    decreases |words|
  {
    if |words| > 1 {
      TailWords(words);
      WordsSingleSpaced(words[1..]);
      WordsLine(words[1..]);
      var rest := Join(words[1..], " ");
      assert Join(words, " ") == words[0] + " " + rest;
      assert IsWord(words[0]);
      WordSpaceSingle(words[0], rest);
    } else {
      var w := words[0];
      assert Join(words, " ") == w;
      assert IsWord(w);
      forall k | 0 <= k && k + 1 < |w| ensures !(w[k] == ' ' && w[k + 1] == ' ') {
        assert !IsWs(w[k]);
      }
    }
  }

  /** A postal code, a city and further words are words. */
  lemma {:induction false} ZipCityWords(zip: string, city: string, rest: seq<string>)
    requires IsWord(zip) && IsWord(city) && AreWords(rest)
    ensures AreWords([zip, city] + rest)
  {
    var words := [zip, city] + rest;
    forall i | 0 <= i < |words| ensures IsWord(words[i]) {
      if i >= 2 {
        assert words[i] == rest[i - 2];
      }
    }
  }

  /** Two lines joined by ", " form a trimmed line. */
  lemma {:induction false} CommaJoined(a: string, b: string)
    requires IsLine(a) && IsLine(b)
    ensures IsLine(a + ", " + b)
  {
    var s := a + ", " + b;
    assert s[0] == a[0] && s[|s| - 1] == b[|b| - 1];
  }

  /** A line led by a space trims to the line. */
  lemma {:induction false} TrimLeadingSpace(s: string)
    requires IsLine(s)
    ensures Trim(" " + s) == s
  {
    TrimOfPadded(" ", s, "");
    assert " " + s + "" == " " + s;
  }

  /** The first space after a word is right after it. */
  lemma {:induction false} FirstSpace(w: string, rest: string)
    requires IsWord(w)
    ensures IndexOf(w + " " + rest, " ") == |w|
  {
    var s := w + " " + rest;
    IndexOfChar(s, ' ');
    var i := IndexOf(s, " ");
    assert s[|w|] == ' ';
    assert forall k :: 0 <= k < |w| ==> s[k] == w[k];
    assert i == |w|;
  }

  /** No occurrence of "  " in text without two spaces side by side. */
  lemma {:induction false} NoDoubleSpaceNoPair(s: string)
    requires NoDoubleSpace(s)
    ensures forall k :: 0 <= k ==> !OccursAt(s, "  ", k)
  {
    forall k | 0 <= k ensures !OccursAt(s, "  ", k) {
      OccursAtPair(s, ' ', ' ', k);
    }
  }

  /** Splitting on "  " after a line without double spaces peels the line
      off. */
  lemma {:induction false} SplitAfterLine(street: string, rest: string)
    requires IsLine(street) && NoDoubleSpace(street)
    ensures Split(street + "  " + rest, "  ") == [street] + Split(rest, "  ")
  {
    var s := street + "  " + rest;
    forall k | 0 <= k < |street| ensures !OccursAt(s, "  ", k) {
      OccursAtPair(s, ' ', ' ', k);
      assert s[k] == street[k];
      if k + 1 < |street| {
        assert s[k + 1] == street[k + 1];
      }
    }
    SplitAt(street, "  ", rest);
  }

  /** The code of a supported country is its own trim. */
  lemma {:induction false} CodeTrimmed(vatNumber: string, c: Country)
    requires Lookup(CountryCode(vatNumber)) == Some(c)
    ensures IsTrimmed(CountryCode(vatNumber)) && Trim(CountryCode(vatNumber)) == CountryCode(vatNumber)
  {
    WordIsTrimmed(Code(c));
  }

  // ---------------------------------------------------------------------
  // Reaching a branch

  /** An address of two lines splits into them. */
  lemma {:induction false} TwoLines(a: string, b: string)
    requires IsLine(a) && IsLine(b)
    ensures Trim(a + "\n" + b) == a + "\n" + b
    ensures Lines(a + "\n" + b) == [a, b]
  {
    var s := a + "\n" + b;
    assert s[0] == a[0] && s[|s| - 1] == b[|b| - 1];
    TrimmedIsFixed(s);
    SplitCons(a, '\n', b);
    SplitAbsent(b, '\n');
  }

  /** An address of three lines splits into them. */
  lemma {:induction false} ThreeLines(a: string, b: string, c: string)
    requires IsLine(a) && IsLine(b) && IsLine(c)
    ensures Trim(a + "\n" + b + "\n" + c) == a + "\n" + b + "\n" + c
    ensures Lines(a + "\n" + b + "\n" + c) == [a, b, c]
  {
    var s := a + "\n" + b + "\n" + c;
    assert s[0] == a[0] && s[|s| - 1] == c[|c| - 1];
    TrimmedIsFixed(s);
    assert s == a + "\n" + (b + "\n" + c);
    SplitCons(a, '\n', b + "\n" + c);
    SplitCons(b, '\n', c);
    SplitAbsent(c, '\n');
  }

  /** With line breaks present the double-space test decides nothing. */
  lemma {:induction false} SelectWithLines(c: Country, newlines: int, doubleSpace: bool)
    requires newlines > 0
    ensures Select(c, newlines, doubleSpace) == Route(c, newlines, false)
  {
    SelectIsRoute(c, newlines, doubleSpace);
  }

  /** A one-line address reaches the non-Greek branch the table gives for it. */
  lemma {:induction false} OneLineCall(vatNumber: string, address: string, configFlags: seq<string>, c: Country, b: Branch)
    requires Lookup(CountryCode(vatNumber)) == Some(c) && IsLine(address)
    requires Route(c, 0, IndexOf(address, "  ") != -1) == Some(b) && BranchNewlines(b) == 0 && b != GreekHyphen
    ensures GetParsedAddress(vatNumber, address, configFlags)
            == Run(b, address, [address], CountryCode(vatNumber), configFlags)
  {
    TrimmedIsFixed(address);
    SplitAbsent(address, '\n');
    SelectIsRoute(c, 0, IndexOf(address, "  ") != -1);
    RunsOn(vatNumber, address, configFlags, c, b, [address]);
  }

  /** A two-line address reaches the branch the table gives for it. */
  lemma {:induction false} TwoLineCall(vatNumber: string, l0: string, l1: string, configFlags: seq<string>, c: Country, b: Branch)
    requires Lookup(CountryCode(vatNumber)) == Some(c) && IsLine(l0) && IsLine(l1)
    requires Route(c, 1, false) == Some(b) && BranchNewlines(b) == 1
    ensures GetParsedAddress(vatNumber, l0 + "\n" + l1, configFlags)
            == Run(b, l0 + "\n" + l1, [l0, l1], CountryCode(vatNumber), configFlags)
  {
    var address := l0 + "\n" + l1;
    TwoLines(l0, l1);
    SelectWithLines(c, 1, IndexOf(address, "  ") != -1);
    assert |[l0, l1]| - 1 == 1;
    RunsOn(vatNumber, address, configFlags, c, b, [l0, l1]);
  }

  /** A three-line address reaches the branch the table gives for it. */
  lemma {:induction false} ThreeLineCall(vatNumber: string, l0: string, l1: string, l2: string, configFlags: seq<string>,
                      c: Country, b: Branch)
    requires Lookup(CountryCode(vatNumber)) == Some(c) && IsLine(l0) && IsLine(l1) && IsLine(l2)
    requires Route(c, 2, false) == Some(b) && BranchNewlines(b) == 2
    ensures GetParsedAddress(vatNumber, l0 + "\n" + l1 + "\n" + l2, configFlags)
            == Run(b, l0 + "\n" + l1 + "\n" + l2, [l0, l1, l2], CountryCode(vatNumber), configFlags)
  {
    var address := l0 + "\n" + l1 + "\n" + l2;
    ThreeLines(l0, l1, l2);
    SelectWithLines(c, 2, IndexOf(address, "  ") != -1);
    assert |[l0, l1, l2]| - 1 == 2;
    RunsOn(vatNumber, address, configFlags, c, b, [l0, l1, l2]);
  }

  // ---------------------------------------------------------------------
  // Street, then postal code and city (NL, BE, FR, FI, AT, PL, DK, IT)

  /** `[zip, city] = line.split(" ")` on words joined by spaces takes the
      first two words. */
  lemma {:induction false} TokenResultOfWords(address: string, street: string, words: seq<string>, cc: string)
    requires |words| >= 2 && AreWords(words) && IsTrimmed(street) && IsTrimmed(cc)
    ensures TokenResult(address, street, Join(words, " "), cc)
            == Parsed(address, street, ZipText(words[0]), words[1], cc)
  {
    WordsLine(words);
    TrimmedIsFixed(street);
    TrimmedIsFixed(cc);
    WordIsTrimmed(words[0]);
    WordIsTrimmed(words[1]);
  }

  /** A word is a line without spaces. */
  lemma {:induction false} WordLine(word: string)
    requires IsWord(word)
    ensures IsLine(word) && ' ' !in word
  {
    WordIsTrimmed(word);
    assert forall i :: 0 <= i < |word| ==> word[i] != ' ' && word[i] != '\n';
  }

  /** A line that is a single word has no city, and `city.trim()` throws. */
  lemma {:induction false} TokenResultOfWord(address: string, street: string, word: string, cc: string)
    requires IsWord(word)
    ensures TokenResult(address, street, word, cc) == Throws
  {
    WordLine(word);
    SplitAbsent(word, ' ');
  }

  /** A two-line address from NL, BE, FR, FI, AT, PL, DK or IT goes to the
      expected-format branch. */
  lemma {:induction false} ExpectedFormatRoute(c: Country)
    requires c in ExpectedFormatCountries() || c == IT
    ensures Route(c, 1, false) == Some(ExpectedFormat) && BranchNewlines(ExpectedFormat) == 1
  {
  }

  /** The expected-format branch on a street line and a line of words. */
  lemma {:induction false} ExpectedFormatRun(text: string, street: string, words: seq<string>, cc: string,
                                             configFlags: seq<string>)
    requires IsLine(street) && |words| >= 2 && AreWords(words) && IsTrimmed(cc)
    ensures Run(ExpectedFormat, text, [street, Join(words, " ")], cc, configFlags)
            == Parsed(text, street, ZipText(words[0]), words[1], cc)
  {
    TokenResultOfWords(text, street, words, cc);
  }

  /** The expected-format branch on a street line and a single word. */
  lemma {:induction false} ExpectedFormatWordRun(text: string, street: string, word: string, cc: string,
                                                 configFlags: seq<string>)
    requires IsWord(word)
    ensures Run(ExpectedFormat, text, [street, word], cc, configFlags) == Throws
  {
    TokenResultOfWord(text, street, word, cc);
  }

  /** The two-line branch on a street line and a line of words. */
  lemma {:induction false} ExpectedFormatWords(vatNumber: string, street: string, words: seq<string>,
                            configFlags: seq<string>, c: Country)
    requires Lookup(CountryCode(vatNumber)) == Some(c) && (c in ExpectedFormatCountries() || c == IT)
    requires IsLine(street) && |words| >= 2 && AreWords(words)
    ensures var address := street + "\n" + Join(words, " ");
            GetParsedAddress(vatNumber, address, configFlags)
            == Parsed(address, street, ZipText(words[0]), words[1], CountryCode(vatNumber))
  {
    var line := Join(words, " ");
    WordsLine(words);
    CodeTrimmed(vatNumber, c);
    ExpectedFormatRun(street + "\n" + line, street, words, CountryCode(vatNumber), configFlags);
    ExpectedFormatRoute(c);
    TwoLineCall(vatNumber, street, line, configFlags, c, ExpectedFormat);
  }

  /** NL, BE, FR, FI, AT, PL, DK and IT: a street line, then postal code and
      city separated by a space, come back as street, postal code and city;
      words after the city are dropped. */
  lemma {:induction false} ExpectedFormatRoundTrip(vatNumber: string, street: string, zip: string, city: string,
                                rest: seq<string>, configFlags: seq<string>, c: Country)
    requires Lookup(CountryCode(vatNumber)) == Some(c) && (c in ExpectedFormatCountries() || c == IT)
    requires IsLine(street) && IsWord(zip) && IsWord(city) && AreWords(rest)
    ensures var address := street + "\n" + Join([zip, city] + rest, " ");
            GetParsedAddress(vatNumber, address, configFlags)
            == Parsed(address, street, ZipText(zip), city, CountryCode(vatNumber))
  {
    ZipCityWords(zip, city, rest);
    ExpectedFormatWords(vatNumber, street, [zip, city] + rest, configFlags, c);
  }

  /** NL, BE, FR, FI, AT, PL, DK and IT: a second line without a space has
      no city, and the call throws. */
  lemma {:induction false} ExpectedFormatOneWordThrows(vatNumber: string, street: string, word: string,
                                    configFlags: seq<string>, c: Country)
    requires Lookup(CountryCode(vatNumber)) == Some(c) && (c in ExpectedFormatCountries() || c == IT)
    requires IsLine(street) && IsWord(word)
    ensures GetParsedAddress(vatNumber, street + "\n" + word, configFlags) == Throws
  {
    WordLine(word);
    ExpectedFormatWordRun(street + "\n" + word, street, word, CountryCode(vatNumber), configFlags);
    ExpectedFormatRoute(c);
    TwoLineCall(vatNumber, street, word, configFlags, c, ExpectedFormat);
  }

  /** The French three-line branch on trimmed lines. */
  lemma {:induction false} FranceRun(text: string, place: string, street: string, words: seq<string>, cc: string,
                                     configFlags: seq<string>)
    requires IsLine(place) && IsLine(street) && |words| >= 2 && AreWords(words) && IsTrimmed(cc)
    ensures Run(FranceThreeLines, text, [place, street, Join(words, " ")], cc, configFlags)
            == Parsed(text, place + ", " + street, ZipText(words[0]), words[1], cc)
  {
    CommaJoined(place, street);
    TokenResultOfWords(text, place + ", " + street, words, cc);
  }

  /** Three French lines go to the French three-line branch. */
  lemma {:induction false} FranceRoute()
    ensures Route(FR, 2, false) == Some(FranceThreeLines) && BranchNewlines(FranceThreeLines) == 2
  {
  }

  /** France, three lines: the place name and the street are joined by ", "
      into the street; postal code and city come from the last line. */
  lemma {:induction false} FranceThreeLinesRoundTrip(vatNumber: string, place: string, street: string, words: seq<string>,
                                  configFlags: seq<string>)
    requires Lookup(CountryCode(vatNumber)) == Some(FR)
    requires IsLine(place) && IsLine(street) && |words| >= 2 && AreWords(words)
    ensures var address := place + "\n" + street + "\n" + Join(words, " ");
            GetParsedAddress(vatNumber, address, configFlags)
            == Parsed(address, place + ", " + street, ZipText(words[0]), words[1], CountryCode(vatNumber))
  {
    var line := Join(words, " ");
    var address := place + "\n" + street + "\n" + line;
    WordsLine(words);
    CodeTrimmed(vatNumber, FR);
    FranceRun(address, place, street, words, CountryCode(vatNumber), configFlags);
    FranceRoute();
    ThreeLineCall(vatNumber, place, street, line, configFlags, FR, FranceThreeLines);
  }

  // ---------------------------------------------------------------------
  // Portugal

  /** The Portuguese branch on a street, a city and a line of words. */
  lemma {:induction false} PortugalRun(text: string, street: string, city: string, words: seq<string>, cc: string,
                    configFlags: seq<string>)
    requires IsLine(street) && IsLine(city) && IsTrimmed(cc) && |words| >= 1 && AreWords(words)
    ensures Run(PortugalThreeLines, text, [street, city, Join(words, " ")], cc, configFlags)
            == Parsed(text, street, ZipText(words[0]), city, cc)
  {
    WordsLine(words);
    TrimmedIsFixed(street);
    TrimmedIsFixed(city);
    TrimmedIsFixed(cc);
    WordIsTrimmed(words[0]);
  }

  /** Three Portuguese lines go to the Portuguese branch. */
  lemma {:induction false} PortugalRoute()
    ensures Route(PT, 2, false) == Some(PortugalThreeLines) && BranchNewlines(PortugalThreeLines) == 2
  {
  }

  /** Portugal: street, city, and a last line whose first word is the postal
      code; the rest of the last line is dropped. */
  lemma {:induction false} PortugalRoundTrip(vatNumber: string, street: string, city: string, words: seq<string>,
                          configFlags: seq<string>)
    requires Lookup(CountryCode(vatNumber)) == Some(PT)
    requires IsLine(street) && IsLine(city) && |words| >= 1 && AreWords(words)
    ensures var address := street + "\n" + city + "\n" + Join(words, " ");
            GetParsedAddress(vatNumber, address, configFlags)
            == Parsed(address, street, ZipText(words[0]), city, CountryCode(vatNumber))
  {
    var line := Join(words, " ");
    WordsLine(words);
    CodeTrimmed(vatNumber, PT);
    PortugalRun(street + "\n" + city + "\n" + line, street, city, words, CountryCode(vatNumber), configFlags);
    PortugalRoute();
    ThreeLineCall(vatNumber, street, city, line, configFlags, PT, PortugalThreeLines);
  }

  // ---------------------------------------------------------------------
  // Romania

  /** The two-line Romanian branch on two lines. */
  lemma {:induction false} RomaniaTwoRun(text: string, city: string, street: string, cc: string, configFlags: seq<string>)
    requires IsLine(city) && IsLine(street) && IsTrimmed(cc)
    ensures Run(RomaniaTwoLines, text, [city, street], cc, configFlags)
            == Parsed(text, street, ZipFalse, city, cc)
  {
    TrimmedIsFixed(street);
    TrimmedIsFixed(city);
    TrimmedIsFixed(cc);
  }

  /** The three-line Romanian branch on three lines. */
  lemma {:induction false} RomaniaThreeRun(text: string, city: string, street: string, apartment: string, cc: string,
                        configFlags: seq<string>)
    requires IsLine(city) && IsLine(street) && IsLine(apartment) && IsTrimmed(cc)
    ensures Run(RomaniaThreeLines, text, [city, street, apartment], cc, configFlags)
            == Parsed(text, apartment + ", " + street, ZipFalse, city, cc)
  {
    CommaJoined(apartment, street);
    TrimmedIsFixed(apartment + ", " + street);
    TrimmedIsFixed(street);
    TrimmedIsFixed(apartment);
    TrimmedIsFixed(city);
    TrimmedIsFixed(cc);
  }

  /** Romanian addresses of two and three lines go to their branches. */
  lemma {:induction false} RomaniaRoutes()
    ensures Route(RO, 1, false) == Some(RomaniaTwoLines) && BranchNewlines(RomaniaTwoLines) == 1
    ensures Route(RO, 2, false) == Some(RomaniaThreeLines) && BranchNewlines(RomaniaThreeLines) == 2
  {
  }

  /** Romania, two lines: city first, then street; the postal code is the
      literal `false`. */
  lemma {:induction false} RomaniaTwoLinesRoundTrip(vatNumber: string, city: string, street: string, configFlags: seq<string>)
    requires Lookup(CountryCode(vatNumber)) == Some(RO) && IsLine(city) && IsLine(street)
    ensures var address := city + "\n" + street;
            GetParsedAddress(vatNumber, address, configFlags)
            == Parsed(address, street, ZipFalse, city, CountryCode(vatNumber))
  {
    CodeTrimmed(vatNumber, RO);
    RomaniaTwoRun(city + "\n" + street, city, street, CountryCode(vatNumber), configFlags);
    RomaniaRoutes();
    TwoLineCall(vatNumber, city, street, configFlags, RO, RomaniaTwoLines);
  }

  /** Romania, three lines: city, street and apartment; the apartment is put
      in front of the street. */
  lemma {:induction false} RomaniaThreeLinesRoundTrip(vatNumber: string, city: string, street: string, apartment: string,
                                   configFlags: seq<string>)
    requires Lookup(CountryCode(vatNumber)) == Some(RO)
    requires IsLine(city) && IsLine(street) && IsLine(apartment)
    ensures var address := city + "\n" + street + "\n" + apartment;
            GetParsedAddress(vatNumber, address, configFlags)
            == Parsed(address, apartment + ", " + street, ZipFalse, city, CountryCode(vatNumber))
  {
    CodeTrimmed(vatNumber, RO);
    RomaniaThreeRun(city + "\n" + street + "\n" + apartment, city, street, apartment,
                    CountryCode(vatNumber), configFlags);
    RomaniaRoutes();
    ThreeLineCall(vatNumber, city, street, apartment, configFlags, RO, RomaniaThreeLines);
  }
}
