/** What the one-line branches extract: Slovenia and Croatia (commas),
    Greece (" - " before the city) and Estonia (double spaces). */
module ViesOneLine {
  import opened Wrappers
  import opened JsString
  import opened ViesParser
  import opened ViesProperties
  import opened ViesRoundTrips
  import Greeklish

  /** A one-line address from SI or HR goes to the comma branch, with or
      without a double space. */
  lemma {:induction false} OneLineRoutes(c: Country, doubleSpace: bool)
    ensures c in {SI, HR} ==> Route(c, 0, doubleSpace) == Some(CommaSeparated)
    ensures BranchNewlines(CommaSeparated) == 0
  {
  }

  /** Trimming one character keeps it unless it is white space. */
  lemma {:induction false} TrimOfChar(c: char)
    ensures Trim([c]) == if IsWs(c) then "" else [c]
  {
    if !IsWs(c) {
      TrimmedIsFixed([c]);
    } else {
      assert [c][1..] == [];
      assert TrimStart([c]) == TrimStart([]) == [];
    }
  }

  // ---------------------------------------------------------------------
  // Slovenia and Croatia

  /** What the comma branch returns for a street and a trimmed last part:
      the postal code is the first character of the last part, the city its
      second character, and a last part shorter than two characters
      throws. */
  function CommaOutcome(address: string, street: string, last: string, cc: string): Outcome {
    if |last| < 2 then Throws
    else Parsed(address, street, ZipText([last[0]]), if IsWs(last[1]) then "" else [last[1]], cc)
  }

  /** The comma branch on text with one comma, followed by a space. */
  lemma {:induction false} CommaTwoRun(text: string, street: string, tail: string, cc: string, configFlags: seq<string>)
    requires Split(text, ",") == [street, " " + tail] && IsLine(street) && IsLine(tail) && IsTrimmed(cc)
    ensures Run(CommaSeparated, text, [text], cc, configFlags) == CommaOutcome(text, street, tail, cc)
  {
    TrimLeadingSpace(tail);
    var last := Trim(" " + tail);
    TrimmedIsFixed(street);
    TrimmedIsFixed(cc);
    if |last| >= 2 {
      TrimmedIsFixed([last[0]]);
      TrimOfChar(last[1]);
    }
  }

  /** The comma branch on text with two commas, each followed by a space:
      the middle part, trimmed, joins the street. */
  lemma {:induction false} CommaThreeRun(text: string, street: string, district: string, tail: string, cc: string,
                                         configFlags: seq<string>)
    requires Split(text, ",") == [street, " " + district, " " + tail]
    requires IsLine(street) && IsLine(district) && IsLine(tail) && IsTrimmed(cc)
    ensures Run(CommaSeparated, text, [text], cc, configFlags)
            == CommaOutcome(text, street + ", " + district, tail, cc)
  {
    TrimLeadingSpace(district);
    TrimLeadingSpace(tail);
    CommaJoined(street, district);
    TrimmedIsFixed(street + ", " + district);
    TrimmedIsFixed(cc);
    var last := Trim(" " + tail);
    if |last| >= 2 {
      TrimmedIsFixed([last[0]]);
      TrimOfChar(last[1]);
    }
  }

  /** Two parts without commas joined by ", " split on commas into them,
      the second led by a space. */
  lemma {:induction false} CommaTail(street: string, tail: string)
    requires ',' !in street && ',' !in tail
    ensures Split(street + ", " + tail, ",") == [street, " " + tail]
  {
    assert street + ", " + tail == street + [','] + (" " + tail);
    assert ',' !in " " + tail;
    SplitCons(street, ',', " " + tail);
    SplitAbsent(" " + tail, ',');
  }

  /** Three parts without commas joined by ", " split on commas into them,
      each after the first led by a space. */
  lemma {:induction false} CommaThreeSplit(street: string, district: string, tail: string)
    requires ',' !in street && ',' !in district && ',' !in tail
    ensures Split(street + ", " + district + ", " + tail, ",") == [street, " " + district, " " + tail]
  {
    var rest := " " + district + ", " + tail;
    assert street + ", " + district + ", " + tail == street + [','] + rest;
    assert rest == (" " + district) + [','] + (" " + tail);
    assert ',' !in " " + district && ',' !in " " + tail;
    SplitCons(street, ',', rest);
    SplitCons(" " + district, ',', " " + tail);
    SplitAbsent(" " + tail, ',');
  }

  /** Three lines joined by ", " form a line. */
  lemma {:induction false} CommaThreeLine(street: string, district: string, tail: string)
    requires IsLine(street) && IsLine(district) && IsLine(tail)
    ensures IsLine(street + ", " + district + ", " + tail)
  {
    CommaJoined(street, district);
    CommaJoined(street + ", " + district, tail);
  }

  /** Slovenia and Croatia, "street, postal code city": the street comes
      back whole, but the postal code is only the first character of the
      last part and the city only its second. */
  lemma {:induction false} CommaSeparatedTwoParts(vatNumber: string, street: string, tail: string,
                                                  configFlags: seq<string>, c: Country)
    requires Lookup(CountryCode(vatNumber)) == Some(c) && c in {SI, HR}
    requires IsLine(street) && ',' !in street && IsLine(tail) && ',' !in tail
    ensures var address := street + ", " + tail;
            GetParsedAddress(vatNumber, address, configFlags)
            == CommaOutcome(address, street, tail, CountryCode(vatNumber))
  {
    var address := street + ", " + tail;
    CommaTail(street, tail);
    CodeTrimmed(vatNumber, c);
    CommaTwoRun(address, street, tail, CountryCode(vatNumber), configFlags);
    CommaJoined(street, tail);
    OneLineRoutes(c, IndexOf(address, "  ") != -1);
    OneLineCall(vatNumber, address, configFlags, c, CommaSeparated);
  }

  /** Slovenia and Croatia, "street, district, postal code city": the
      district joins the street after ", ". */
  lemma {:induction false} CommaSeparatedThreeParts(vatNumber: string, street: string, district: string, tail: string,
                                                    configFlags: seq<string>, c: Country)
    requires Lookup(CountryCode(vatNumber)) == Some(c) && c in {SI, HR}
    requires IsLine(street) && ',' !in street && IsLine(district) && ',' !in district
    requires IsLine(tail) && ',' !in tail
    ensures var address := street + ", " + district + ", " + tail;
            GetParsedAddress(vatNumber, address, configFlags)
            == CommaOutcome(address, street + ", " + district, tail, CountryCode(vatNumber))
  {
    var address := street + ", " + district + ", " + tail;
    CommaThreeSplit(street, district, tail);
    CommaThreeLine(street, district, tail);
    CodeTrimmed(vatNumber, c);
    CommaThreeRun(address, street, district, tail, CountryCode(vatNumber), configFlags);
    OneLineRoutes(c, IndexOf(address, "  ") != -1);
    OneLineCall(vatNumber, address, configFlags, c, CommaSeparated);
  }

  // ---------------------------------------------------------------------
  // Greece

  /** In "street zip - city", with street and zip words and zip not led by
      a hyphen, the first " - " is the one before the city. */
  lemma {:induction false} HyphenBeforeCity(street: string, zip: string, city: string)
    requires IsWord(street) && IsWord(zip) && zip[0] != '-'
    ensures IndexOf(street + " " + zip + " - " + city, " - ") == |street| + 1 + |zip|
  {
    var w := street + " " + zip;
    var g := w + " - " + city;
    var h := |w|;
    assert g[h..h + 3] == " - ";
    forall k | 0 <= k < h ensures !OccursAt(g, " - ", k) {
      OccursAtHead(g, " - ", k);
      if k < |street| {
        assert g[k] == street[k];
      } else if k == |street| {
        assert g[k + 1] == zip[0];
      } else {
        assert g[k] == zip[k - |street| - 1];
      }
    }
    IndexOfIs(g, " - ", h);
  }

  /** The pieces the Greek branch cuts "street zip - city" into. */
  lemma {:induction false} GreekPieces(street: string, zip: string, city: string)
    requires IsWord(street) && IsWord(zip) && zip[0] != '-'
    ensures var w := street + " " + zip;
            var g := w + " - " + city;
            var h := IndexOf(g, " - ");
            && h == |w|
            && Substr(g, h + 3, |g|) == city
            && Substr(g, 0, h) == w
            && IndexOf(w, " ") == |street|
            && Substr(w, |street| + 1, |w|) == zip
            && Substr(w, 0, |street|) == street
  {
    var w := street + " " + zip;
    var g := w + " - " + city;
    HyphenBeforeCity(street, zip, city);
    assert g[|w| + 3..] == city;
    assert g[0..|w|] == w;
    FirstSpace(street, zip);
    assert w[|street| + 1..] == zip;
    assert w[0..|street|] == street;
  }

  /** A one-line Greek address runs the Greek branch on its
      transliteration. */
  lemma {:induction false} GreekCall(vatNumber: string, address: string, configFlags: seq<string>)
    requires Lookup(CountryCode(vatNumber)) == Some(EL) && IsLine(address)
    ensures GetParsedAddress(vatNumber, address, configFlags)
            == Run(GreekHyphen, Greeklish.Transliterate(address), [address], CountryCode(vatNumber), configFlags)
  {
    TrimmedIsFixed(address);
    SplitAbsent(address, '\n');
    SelectIsRoute(EL, 0, IndexOf(address, "  ") != -1);
    RunsBranch(vatNumber, address, configFlags, EL, GreekHyphen);
  }

  /** The Greek branch on a transliterated "street zip - city". */
  lemma {:induction false} GreekHyphenRun(text: string, street: string, zip: string, city: string, cc: string,
                                          lines: seq<string>, configFlags: seq<string>)
    requires text == street + " " + zip + " - " + city && |lines| == 1
    requires IsWord(street) && IsWord(zip) && zip[0] != '-' && IsTrimmed(city) && IsTrimmed(cc)
    ensures Run(GreekHyphen, text, lines, cc, configFlags) == Parsed(text, street, ZipText(zip), city, cc)
  {
    GreekPieces(street, zip, city);
    WordIsTrimmed(street);
    WordIsTrimmed(zip);
    TrimmedIsFixed(city);
    TrimmedIsFixed(cc);
  }

  /** Greece: an address that transliterates to "street zip - city" comes
      back transliterated, as street, postal code and city. The street is
      everything before the first space, so a street of several words loses
      its tail to the postal code. */
  lemma {:induction false} GreekRoundTrip(vatNumber: string, address: string, street: string, zip: string, city: string,
                                          configFlags: seq<string>)
    requires Lookup(CountryCode(vatNumber)) == Some(EL) && IsLine(address)
    requires Greeklish.Transliterate(address) == street + " " + zip + " - " + city
    requires IsWord(street) && IsWord(zip) && zip[0] != '-' && IsTrimmed(city)
    ensures GetParsedAddress(vatNumber, address, configFlags)
            == Parsed(Greeklish.Transliterate(address), street, ZipText(zip), city, CountryCode(vatNumber))
  {
    CodeTrimmed(vatNumber, EL);
    GreekHyphenRun(Greeklish.Transliterate(address), street, zip, city, CountryCode(vatNumber), [address], configFlags);
    GreekCall(vatNumber, address, configFlags);
  }

  /** Greece, Latin script: "street zip - city" comes back unchanged as
      street, postal code and city. */
  lemma {:induction false} GreekLatinRoundTrip(vatNumber: string, street: string, zip: string, city: string,
                                               configFlags: seq<string>)
    requires Lookup(CountryCode(vatNumber)) == Some(EL)
    requires IsWord(street) && IsWord(zip) && zip[0] != '-' && IsLine(city)
    requires Greeklish.BelowGreek(street + " " + zip + " - " + city)
    ensures var address := street + " " + zip + " - " + city;
            GetParsedAddress(vatNumber, address, configFlags)
            == Parsed(address, street, ZipText(zip), city, CountryCode(vatNumber))
  {
    var address := street + " " + zip + " - " + city;
    Greeklish.TransliterateKeepsLatin(address);
    LatinLine(street, zip, city);
    GreekRoundTrip(vatNumber, address, street, zip, city, configFlags);
  }

  /** "street zip - city" of words and a line is a line. */
  lemma {:induction false} LatinLine(street: string, zip: string, city: string)
    requires IsWord(street) && IsWord(zip) && IsLine(city)
    ensures IsLine(street + " " + zip + " - " + city)
  {
    var s := street + " " + zip + " - " + city;
    assert s[0] == street[0] && s[|s| - 1] == city[|city| - 1];
    assert '\n' !in street by {
      assert forall i :: 0 <= i < |street| ==> !IsWs(street[i]);
    }
    assert '\n' !in zip by {
      assert forall i :: 0 <= i < |zip| ==> !IsWs(zip[i]);
    }
    assert s == street + (" " + zip) + (" - " + city);
  }

  /** The Greek branch on transliterated text without " - ": the city is
      the text after its first two characters, and street and postal code
      are empty. */
  lemma {:induction false} GreekNoHyphenRun(g: string, cc: string, lines: seq<string>, configFlags: seq<string>)
    requires IndexOf(g, " - ") == -1 && IsTrimmed(cc) && |lines| == 1
    ensures Run(GreekHyphen, g, lines, cc, configFlags)
            == Parsed(g, "", ZipText(""), if |g| <= 2 then "" else Trim(g[2..]), cc)
  {
    TrimmedIsFixed(cc);
    assert Substr("", 0, 0) == "";
    if |g| > 2 {
      assert Substr(g, 2, |g|) == g[2..];
    } else {
      assert Substr(g, 2, |g|) == "";
    }
  }

  /** Greece without " - ": the postal code and street are empty and the
      city is the text after its first two characters. */
  lemma {:induction false} GreekNoHyphen(vatNumber: string, address: string, configFlags: seq<string>)
    requires Lookup(CountryCode(vatNumber)) == Some(EL) && IsLine(address)
    requires IndexOf(Greeklish.Transliterate(address), " - ") == -1
    ensures var g := Greeklish.Transliterate(address);
            GetParsedAddress(vatNumber, address, configFlags)
            == Parsed(g, "", ZipText(""), if |g| <= 2 then "" else Trim(g[2..]), CountryCode(vatNumber))
  {
    CodeTrimmed(vatNumber, EL);
    GreekNoHyphenRun(Greeklish.Transliterate(address), CountryCode(vatNumber), [address], configFlags);
    GreekCall(vatNumber, address, configFlags);
  }

  // ---------------------------------------------------------------------
  // Estonia

  /** The Estonian branch on text whose double spaces cut it into a street
      and a line of words. */
  lemma {:induction false} EstoniaRun(text: string, street: string, words: seq<string>, cc: string,
                                      configFlags: seq<string>)
    requires Split(text, "  ") == [street, Join(words, " ")]
    requires IsLine(street) && |words| >= 2 && AreWords(words) && IsTrimmed(cc)
    ensures Run(EstoniaDoubleSpace, text, [text], cc, configFlags)
            == Parsed(text, street, ZipText(words[0]), words[1], cc)
  {
    WordsLine(words);
    TrimmedIsFixed(street);
    TrimmedIsFixed(Join(words, " "));
    TokenResultOfWords(text, street, words, cc);
  }

  /** A street without double spaces, a double space and single-spaced
      words form a line that holds a double space and splits on double
      spaces into the street and the words. */
  lemma {:induction false} EstoniaSplit(street: string, words: seq<string>)
    requires IsLine(street) && NoDoubleSpace(street) && |words| >= 1 && AreWords(words)
    ensures var address := street + "  " + Join(words, " ");
            && IsLine(address)
            && IndexOf(address, "  ") != -1
            && Split(address, "  ") == [street, Join(words, " ")]
  {
    var line := Join(words, " ");
    var address := street + "  " + line;
    WordsLine(words);
    WordsSingleSpaced(words);
    NoDoubleSpaceNoPair(line);
    SplitWhole(line, "  ");
    SplitAfterLine(street, line);
    GapLine(street, "  ", line);
  }

  /** Estonia, "street  postal code city" with one double space: street,
      postal code and city come back. */
  lemma {:induction false} EstoniaRoundTrip(vatNumber: string, street: string, words: seq<string>,
                                            configFlags: seq<string>)
    requires Lookup(CountryCode(vatNumber)) == Some(EE)
    requires IsLine(street) && NoDoubleSpace(street) && |words| >= 2 && AreWords(words)
    ensures var address := street + "  " + Join(words, " ");
            GetParsedAddress(vatNumber, address, configFlags)
            == Parsed(address, street, ZipText(words[0]), words[1], CountryCode(vatNumber))
  {
    var address := street + "  " + Join(words, " ");
    EstoniaSplit(street, words);
    CodeTrimmed(vatNumber, EE);
    EstoniaRun(address, street, words, CountryCode(vatNumber), configFlags);
    EstoniaRoute(true);
    OneLineCall(vatNumber, address, configFlags, EE, EstoniaDoubleSpace);
  }

  /** The Estonian branch throws when the second piece is empty. */
  lemma {:induction false} EstoniaEmptyPieceRun(text: string, cc: string, configFlags: seq<string>)
    requires |Split(text, "  ")| >= 2 && Split(text, "  ")[1] == ""
    ensures Run(EstoniaDoubleSpace, text, [text], cc, configFlags) == Throws
  {
    assert Trim("") == "";
    SplitAbsent("", ' ');
  }

  /** A street, a gap of spaces and a line form a line that holds a
      double space. */
  lemma {:induction false} GapLine(street: string, gap: string, line: string)
    requires IsLine(street) && IsLine(line) && |gap| >= 2 && gap[0] == ' ' && gap[1] == ' ' && '\n' !in gap
    ensures IsLine(street + gap + line) && IndexOf(street + gap + line, "  ") != -1
  {
    var address := street + gap + line;
    assert address[|street|] == ' ' && address[|street| + 1] == ' ';
    OccursAtPair(address, ' ', ' ', |street|);
    assert address[0] == street[0] && address[|address| - 1] == line[|line| - 1];
    assert address == street + (gap + line);
  }

  /** A street, four spaces and a line: the second piece between double
      spaces is empty. */
  lemma {:induction false} WideGapSplit(street: string, line: string)
    requires IsLine(street) && NoDoubleSpace(street)
    ensures |Split(street + "    " + line, "  ")| >= 2 && Split(street + "    " + line, "  ")[1] == ""
  {
    assert street + "    " + line == street + "  " + ("  " + line);
    SplitAfterLine(street, "  " + line);
    assert "  " + line == "" + "  " + line;
    SplitAt("", "  ", line);
  }

  /** Estonia, street and the rest separated by four spaces: the piece
      between the two double spaces is empty, and the call throws. */
  lemma {:induction false} EstoniaWideGapThrows(vatNumber: string, street: string, line: string,
                                                configFlags: seq<string>)
    requires Lookup(CountryCode(vatNumber)) == Some(EE)
    requires IsLine(street) && NoDoubleSpace(street) && IsLine(line)
    ensures GetParsedAddress(vatNumber, street + "    " + line, configFlags) == Throws
  {
    var address := street + "    " + line;
    WideGapSplit(street, line);
    GapLine(street, "    ", line);
    EstoniaEmptyPieceRun(address, CountryCode(vatNumber), configFlags);
    EstoniaRoute(true);
    OneLineCall(vatNumber, address, configFlags, EE, EstoniaDoubleSpace);
  }
}
