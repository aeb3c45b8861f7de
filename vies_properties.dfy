/** Properties of the parser: how a call is dispatched, what each country
    branch extracts from well-formed input, and the behaviour of its edge
    cases. */
module ViesProperties {
  import opened Wrappers
  import opened JsString
  import opened ViesParser
  import Greeklish

  /** The lines of the trimmed address, as the branches see them. */
  function Lines(address: string): seq<string> {
    Split(Trim(address), "\n")
  }

  /** The branch table written country by country: which branch handles a
      country for a given number of line breaks. */
  function Route(c: Country, newlines: int, doubleSpace: bool): Option<Branch> {
    match c
    case NL | BE | FI | AT | PL | DK | IT => if newlines == 1 then Some(ExpectedFormat) else None
    case FR =>
      if newlines == 1 then Some(ExpectedFormat)
      else if newlines == 2 then Some(FranceThreeLines)
      else None
    case SI | HR => if newlines == 0 then Some(CommaSeparated) else None
    case EL => if newlines == 0 then Some(GreekHyphen) else None
    case RO =>
      if newlines == 1 then Some(RomaniaTwoLines)
      else if newlines == 2 then Some(RomaniaThreeLines)
      else None
    case PT => if newlines == 2 then Some(PortugalThreeLines) else None
    case SK =>
      if newlines == 1 then Some(SlovakiaTwoLines)
      else if newlines == 2 then Some(SlovakiaThreeLines)
      else None
    case EE => if newlines == 0 && doubleSpace then Some(EstoniaDoubleSpace) else None
    case CZ =>
      if newlines == 1 then Some(CzechTwoLines)
      else if newlines == 2 then Some(CzechThreeLines)
      else None
  }

  /** The ordered guard chain and the country table agree: no two guards
      overlap, so the order of the branches decides nothing. */
  lemma {:induction false} SelectIsRoute(c: Country, newlines: int, doubleSpace: bool)
    ensures Select(c, newlines, doubleSpace) == Route(c, newlines, doubleSpace)
  {
  }

  /** `includes` on the supported list is `Lookup` succeeding. */
  lemma {:induction false} SupportedIsLookup(cc: string)
    ensures cc in SupportedCountries() <==> Lookup(cc).Some?
  {
    var list := SupportedCountries();
    forall i | 0 <= i < |list| ensures Lookup(list[i]).Some? {
    }
    if Lookup(cc).Some? {
      var c := Lookup(cc).value;
      assert Code(c) in list;
    }
  }

  /** `Code` and `Lookup` are inverse. */
  lemma {:induction false} LookupCode(c: Country)
    ensures Lookup(Code(c)) == Some(c)
  {
  }

  /** A country code outside the supported list gives `false`, whatever the
      address. */
  lemma {:induction false} UnsupportedCountry(vatNumber: string, address: string, configFlags: seq<string>)
    requires CountryCode(vatNumber) !in SupportedCountries()
    ensures GetParsedAddress(vatNumber, address, configFlags) == False
  {
    SupportedIsLookup(CountryCode(vatNumber));
  }

  /** For a supported country the call is the dispatch on the trimmed
      address and its lines. */
  lemma {:induction false} Dispatches(vatNumber: string, address: string, configFlags: seq<string>, c: Country)
    requires Lookup(CountryCode(vatNumber)) == Some(c)
    ensures GetParsedAddress(vatNumber, address, configFlags)
            == Dispatch(c, Trim(address), Lines(address), CountryCode(vatNumber), configFlags)
  {
  }

  /** The call runs the branch that the chain selects, on the trimmed
      address (transliterated for the Greek branch). */
  lemma {:induction false} RunsBranch(vatNumber: string, address: string, configFlags: seq<string>, c: Country, b: Branch)
    requires Lookup(CountryCode(vatNumber)) == Some(c)
    requires Select(c, |Lines(address)| - 1, IndexOf(Trim(address), "  ") != -1) == Some(b)
    ensures |Lines(address)| == BranchNewlines(b) + 1
    ensures GetParsedAddress(vatNumber, address, configFlags)
            == Run(b, BranchText(b, Trim(address)), Lines(address), CountryCode(vatNumber), configFlags)
  {
    Dispatches(vatNumber, address, configFlags, c);
  }

  /** The dispatch gives `false` exactly when the table has no branch. */
  lemma {:induction false} DispatchFalse(c: Country, text: string, lines: seq<string>, cc: string, configFlags: seq<string>)
    requires |lines| >= 1
    ensures Dispatch(c, text, lines, cc, configFlags) == False
            <==> Route(c, |lines| - 1, IndexOf(text, "  ") != -1).None?
  {
    SelectIsRoute(c, |lines| - 1, IndexOf(text, "  ") != -1);
  }

  /** For a supported country the result is `false` exactly when the table
      has no branch for the number of line breaks. */
  lemma {:induction false} FalseForSupported(vatNumber: string, address: string, configFlags: seq<string>, c: Country)
    requires Lookup(CountryCode(vatNumber)) == Some(c)
    ensures GetParsedAddress(vatNumber, address, configFlags) == False
            <==> Route(c, CountChar(Trim(address), '\n'), IndexOf(Trim(address), "  ") != -1).None?
  {
    Dispatches(vatNumber, address, configFlags, c);
    LineCount(address);
    DispatchFalse(c, Trim(address), Lines(address), CountryCode(vatNumber), configFlags);
  }

  /** An address has one line more than it has line feeds. */
  lemma {:induction false} LineCount(address: string)
    ensures |Lines(address)| == CountChar(Trim(address), '\n') + 1
  {
    SplitCountsSeparators(Trim(address), '\n');
  }

  /** The call runs the selected branch, other than the Greek one, on the
      given lines of an address that is already trimmed. */
  lemma {:induction false} RunsOn(vatNumber: string, address: string, configFlags: seq<string>, c: Country, b: Branch, lines: seq<string>)
    requires Lookup(CountryCode(vatNumber)) == Some(c) && b != GreekHyphen
    requires Trim(address) == address && Lines(address) == lines
    requires Select(c, |lines| - 1, IndexOf(address, "  ") != -1) == Some(b)
    ensures |lines| == BranchNewlines(b) + 1
    ensures GetParsedAddress(vatNumber, address, configFlags) == Run(b, address, lines, CountryCode(vatNumber), configFlags)
  {
    RunsBranch(vatNumber, address, configFlags, c, b);
  }

  /** The result is `false` exactly when the country is unsupported or the
      table has no branch for its number of line breaks (and, for Estonia,
      the double space). */
  lemma {:induction false} FalseExactlyWhenUnhandled(vatNumber: string, address: string, configFlags: seq<string>)
    ensures var cc := CountryCode(vatNumber);
            var text := Trim(address);
            GetParsedAddress(vatNumber, address, configFlags) == False
            <==> (cc !in SupportedCountries()
                  || (Lookup(cc).Some?
                      && Route(Lookup(cc).value, CountChar(text, '\n'), IndexOf(text, "  ") != -1).None?))
  {
    var cc := CountryCode(vatNumber);
    SupportedIsLookup(cc);
    if Lookup(cc).Some? {
      FalseForSupported(vatNumber, address, configFlags, Lookup(cc).value);
    }
  }

  /** Every string field of a parsed result is trimmed, the address is the
      trimmed input (transliterated for Greece), and the postal code is the
      literal `false` exactly for Romania. */
  lemma {:induction false} OutcomeShape(vatNumber: string, address: string, configFlags: seq<string>)
    ensures var c := Lookup(CountryCode(vatNumber));
            Shaped(GetParsedAddress(vatNumber, address, configFlags),
                   if c == Some(EL) then Greeklish.Transliterate(Trim(address)) else Trim(address),
                   CountryCode(vatNumber), c == Some(RO))
  {
    var c := Lookup(CountryCode(vatNumber));
    if c.Some? {
      var text := Trim(address);
      var cc := CountryCode(vatNumber);
      Dispatches(vatNumber, address, configFlags, c.value);
      var r := Dispatch(c.value, text, Lines(address), cc, configFlags);
      assert Shaped(r, if c.value == EL then Greeklish.Transliterate(text) else text, cc, c.value == RO);
    }
  }

  /** Czech addresses of two and three lines reach their branches. */
  lemma {:induction false} CzechBranches(doubleSpace: bool)
    ensures Select(CZ, 1, doubleSpace) == Some(CzechTwoLines)
    ensures Select(CZ, 2, doubleSpace) == Some(CzechThreeLines)
  {
  }

  /** Three Czech lines always throw. */
  lemma {:induction false} CzechThreeLinesThrow(vatNumber: string, address: string, configFlags: seq<string>)
    requires Lookup(CountryCode(vatNumber)) == Some(CZ) && |Lines(address)| == 3
    ensures GetParsedAddress(vatNumber, address, configFlags) == Throws
  {
    CzechBranches(IndexOf(Trim(address), "  ") != -1);
    RunsBranch(vatNumber, address, configFlags, CZ, CzechThreeLines);
  }

  /** Both patterns of the `sk_delete_mc` flag hold a space, so the flag
      leaves a city without a space as it is. */
  lemma {:induction false} DeleteMcWithoutSpace(city: string, configFlags: seq<string>)
    requires ' ' !in city
    ensures DeleteMc(city, configFlags) == city
  {
    assert ' ' in "mestská časť " && ' ' in "m. č. ";
  }

  /** The Slovak city is a piece of a split on spaces, so the flag never
      changes the Slovak result. */
  lemma {:induction false} SlovakFlagFree(address: string, street: string, line: string, cc: string,
                                          configFlags: seq<string>)
    ensures SlovakResult(address, street, line, cc, configFlags) == SlovakResult(address, street, line, cc, [])
  {
    var tokens := Split(line, " ");
    if |tokens| >= 2 {
      SplitPiecesLackSeparator(line, ' ', 1);
      DeleteMcWithoutSpace(tokens[1], configFlags);
      DeleteMcWithoutSpace(tokens[1], []);
    }
  }

  /** No branch depends on the configuration flags. */
  lemma {:induction false} RunIgnoresFlags(b: Branch, text: string, lines: seq<string>, cc: string,
                                           flags1: seq<string>, flags2: seq<string>)
    requires |lines| == BranchNewlines(b) + 1
    ensures Run(b, text, lines, cc, flags1) == Run(b, text, lines, cc, flags2)
  {
    if b == SlovakiaThreeLines {
      SlovakFlagFree(text, lines[0], lines[1], cc, flags1);
      SlovakFlagFree(text, lines[0], lines[1], cc, flags2);
    } else if b == SlovakiaTwoLines {
      SlovakFlagFree(text, "", lines[0], cc, flags1);
      SlovakFlagFree(text, "", lines[0], cc, flags2);
      SlovakFlagFree(text, lines[0], lines[1], cc, flags1);
      SlovakFlagFree(text, lines[0], lines[1], cc, flags2);
    }
  }

  /** The dispatch does not depend on the configuration flags. */
  lemma {:induction false} DispatchIgnoresFlags(c: Country, text: string, lines: seq<string>, cc: string,
                                                flags1: seq<string>, flags2: seq<string>)
    requires |lines| >= 1
    ensures Dispatch(c, text, lines, cc, flags1) == Dispatch(c, text, lines, cc, flags2)
  {
    var b := Select(c, |lines| - 1, IndexOf(text, "  ") != -1);
    if b.Some? {
      RunIgnoresFlags(b.value, BranchText(b.value, text), lines, cc, flags1, flags2);
    }
  }

  /** `sk_delete_mc`, the only flag, never changes the result: the call
      gives the same outcome whatever flags it is given. */
  lemma {:induction false} FlagsNeverMatter(vatNumber: string, address: string, flags1: seq<string>, flags2: seq<string>)
    ensures GetParsedAddress(vatNumber, address, flags1) == GetParsedAddress(vatNumber, address, flags2)
  {
    var c := Lookup(CountryCode(vatNumber));
    if c.Some? {
      Dispatches(vatNumber, address, flags1, c.value);
      Dispatches(vatNumber, address, flags2, c.value);
      DispatchIgnoresFlags(c.value, Trim(address), Lines(address), CountryCode(vatNumber), flags1, flags2);
    }
  }

  /** The two-line Czech branch reads no token that may be missing. */
  lemma {:induction false} CzechTwoLinesRun(text: string, lines: seq<string>, cc: string, configFlags: seq<string>)
    requires |lines| == 2
    ensures Run(CzechTwoLines, text, lines, cc, configFlags).Parsed?
  {
  }

  /** Two Czech lines never throw. */
  lemma {:induction false} CzechTwoLinesParsed(vatNumber: string, address: string, configFlags: seq<string>)
    requires Lookup(CountryCode(vatNumber)) == Some(CZ) && |Lines(address)| == 2
    ensures GetParsedAddress(vatNumber, address, configFlags).Parsed?
  {
    CzechBranches(IndexOf(Trim(address), "  ") != -1);
    RunsBranch(vatNumber, address, configFlags, CZ, CzechTwoLines);
    CzechTwoLinesRun(Trim(address), Lines(address), CountryCode(vatNumber), configFlags);
  }

  /** No branch takes more than two line breaks: such an address is always
      `false`. */
  lemma {:induction false} TooManyLines(vatNumber: string, address: string, configFlags: seq<string>)
    requires CountChar(Trim(address), '\n') >= 3
    ensures GetParsedAddress(vatNumber, address, configFlags) == False
  {
    var c := Lookup(CountryCode(vatNumber));
    SupportedIsLookup(CountryCode(vatNumber));
    if c.Some? {
      FalseForSupported(vatNumber, address, configFlags, c.value);
      RouteAtMostTwo(c.value, CountChar(Trim(address), '\n'), IndexOf(Trim(address), "  ") != -1);
    } else {
      UnsupportedCountry(vatNumber, address, configFlags);
    }
  }

  /** No country has a branch for more than two line breaks. */
  lemma {:induction false} RouteAtMostTwo(c: Country, newlines: int, doubleSpace: bool)
    requires newlines >= 3
    ensures Route(c, newlines, doubleSpace).None?
  {
  }

  /** An Estonian line goes to its branch exactly when it holds a double
      space. */
  lemma {:induction false} EstoniaRoute(doubleSpace: bool)
    ensures Route(EE, 0, doubleSpace) == if doubleSpace then Some(EstoniaDoubleSpace) else None
    ensures BranchNewlines(EstoniaDoubleSpace) == 0
  {
  }

  /** NL, BE, FI, AT, PL, DK and IT have no branch for two line breaks. */
  lemma {:induction false} NoThreeLineRoute(c: Country, doubleSpace: bool)
    requires c in {NL, BE, FI, AT, PL, DK, IT}
    ensures Route(c, 2, doubleSpace).None?
  {
  }

  /** An Estonian address of one line without a double space is `false`. */
  lemma {:induction false} EstoniaNeedsDoubleSpace(vatNumber: string, address: string, configFlags: seq<string>)
    requires Lookup(CountryCode(vatNumber)) == Some(EE)
    requires CountChar(Trim(address), '\n') == 0 && IndexOf(Trim(address), "  ") == -1
    ensures GetParsedAddress(vatNumber, address, configFlags) == False
  {
    FalseForSupported(vatNumber, address, configFlags, EE);
    EstoniaRoute(IndexOf(Trim(address), "  ") != -1);
  }

  /** NL, BE, FI, AT, PL, DK and IT have no three-line branch. */
  lemma {:induction false} NoThreeLineBranch(vatNumber: string, address: string, configFlags: seq<string>, c: Country)
    requires Lookup(CountryCode(vatNumber)) == Some(c) && c in {NL, BE, FI, AT, PL, DK, IT}
    requires CountChar(Trim(address), '\n') == 2
    ensures GetParsedAddress(vatNumber, address, configFlags) == False
  {
    FalseForSupported(vatNumber, address, configFlags, c);
    NoThreeLineRoute(c, IndexOf(Trim(address), "  ") != -1);
  }
}
