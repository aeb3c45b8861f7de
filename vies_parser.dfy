/** `ViesParser.get_supported_countries` and `ViesParser.get_parsed_address`:
    the country dispatcher and its per-country extraction rules, turning a
    VAT number and the free-text address of a VIES reply into street,
    postal code and city. */
module ViesParser {
  import opened Wrappers
  import opened JsString
  import Greeklish

  /** The `zip` field: a string, or the literal `false` that Romania gets. */
  datatype Zip = ZipText(text: string) | ZipFalse

  /** What `get_parsed_address` does: return the address object, return
      `false`, or throw a `TypeError` (calling `.trim()` on `undefined`, or
      the broken property access of the three-line Czech branch). */
  datatype Outcome =
    | Parsed(address: string, street: string, zip: Zip, city: string, countryCode: string)
    | False
    | Throws

  /** The countries the parser handles, in their listed order. */
  function SupportedCountries(): (r: seq<string>)
    ensures |r| == 16
  {
    ["SK", "NL", "BE", "FR", "PT", "IT", "FI", "RO", "SI", "AT", "PL", "HR", "EL", "DK", "EE", "CZ"]
  }

  /** One constructor per supported country. */
  datatype Country = SK | NL | BE | FR | PT | IT | FI | RO | SI | AT | PL | HR | EL | DK | EE | CZ

  /** The two-letter code of a supported country. */
  function Code(c: Country): (cc: string)
    ensures IsWord(cc) && |cc| == 2
  {
    match c
    case SK => "SK" case NL => "NL" case BE => "BE" case FR => "FR"
    case PT => "PT" case IT => "IT" case FI => "FI" case RO => "RO"
    case SI => "SI" case AT => "AT" case PL => "PL" case HR => "HR"
    case EL => "EL" case DK => "DK" case EE => "EE" case CZ => "CZ"
  }

  /** The country whose code `cc` is: `includes` on the supported list,
      which also tells the country-specific branches apart. */
  function Lookup(cc: string): (c: Option<Country>)
    ensures c.Some? ==> Code(c.value) == cc
  {
    if |cc| != 2 then None
    else
      var r := LookupPair(cc[0], cc[1]);
      assert cc == [cc[0], cc[1]];
      r
  }

  function LookupPair(a: char, b: char): (c: Option<Country>)
    ensures c.Some? ==> Code(c.value) == [a, b]
  {
    match (a, b)
    case ('S', 'K') => Some(SK) case ('N', 'L') => Some(NL) case ('B', 'E') => Some(BE)
    case ('F', 'R') => Some(FR) case ('P', 'T') => Some(PT) case ('I', 'T') => Some(IT)
    case ('F', 'I') => Some(FI) case ('R', 'O') => Some(RO) case ('S', 'I') => Some(SI)
    case ('A', 'T') => Some(AT) case ('P', 'L') => Some(PL) case ('H', 'R') => Some(HR)
    case ('E', 'L') => Some(EL) case ('D', 'K') => Some(DK) case ('E', 'E') => Some(EE)
    case ('C', 'Z') => Some(CZ)
    case _ => None
  }

  /** The countries whose two-line addresses are street, then postal code
      and city. */
  function ExpectedFormatCountries(): set<Country> {
    {NL, BE, FR, FI, AT, PL, DK}
  }

  /** `vat_number.trim().substr(0, 2)`. */
  function CountryCode(vatNumber: string): (cc: string)
    ensures |cc| <= 2
    ensures |Trim(vatNumber)| >= 2 ==> cc == Trim(vatNumber)[..2]
  {
    Substr(Trim(vatNumber), 0, 2)
  }

  /** A parsed outcome carries `address` as given, the trimmed country
      code, trimmed street, city and postal code, and the literal `false`
      as postal code exactly when `noZip` holds. */
  predicate Shaped(r: Outcome, address: string, cc: string, noZip: bool) {
    r.Parsed? ==> && r.address == address && r.countryCode == Trim(cc)
                  && IsTrimmed(r.street) && IsTrimmed(r.city)
                  && (r.zip.ZipFalse? <==> noZip)
                  && (r.zip.ZipText? ==> IsTrimmed(r.zip.text))
  }

  /** The returned object literal, every field but `address` trimmed. */
  function Result(address: string, street: string, zip: string, city: string, cc: string): (r: Outcome)
    ensures Shaped(r, address, cc, false)
  {
    Parsed(address, Trim(street), ZipText(Trim(zip)), Trim(city), Trim(cc))
  }

  /** `const [zip, city] = line.split(" ")` followed by the returned object:
      with a single token `city` is `undefined` and `city.trim()` throws. */
  function TokenResult(address: string, street: string, line: string, cc: string): (r: Outcome)
    ensures Shaped(r, address, cc, false)
  {
    var tokens := Split(line, " ");
    if |tokens| < 2 then Throws else Result(address, street, tokens[0], tokens[1], cc)
  }

  /** Two lines, street then "zip city" (NL, BE, FR, FI, AT, PL, DK and IT). */
  function ParseExpectedFormat(address: string, lines: seq<string>, cc: string): (r: Outcome)
    requires |lines| == 2
    ensures Shaped(r, address, cc, false)
  {
    TokenResult(address, lines[0], lines[1], cc)
  }

  /** One line split on commas (SI, HR). `const [zip, city] = part` on a
      string takes its first two characters; a last part shorter than two
      characters leaves `zip` or `city` undefined and `.trim()` throws. */
  function ParseCommaSeparated(address: string, cc: string): (r: Outcome)
    ensures Shaped(r, address, cc, false)
  {
    var parts := Split(address, ",");
    var street := if |parts| == 3 then parts[0] + ", " + Trim(parts[1]) else parts[0];
    var last := Trim(parts[|parts| - 1]);
    if |last| < 2 then Throws else Result(address, street, [last[0]], [last[1]], cc)
  }

  /** One Greek line, already transliterated (see `BranchText`): the city
      follows the first " - ", and the text before it is split at its first
      space into street and postal code. The transliterated text is the
      returned `address`. */
  function ParseGreekHyphen(text: string, cc: string): (r: Outcome)
    ensures Shaped(r, text, cc, false)
  {
    var hyphenPos := IndexOf(text, " - ");
    var city := Substr(text, hyphenPos + 3, |text|);
    var withoutCity := Substr(text, 0, hyphenPos);
    var zipPos := IndexOf(withoutCity, " ");
    var zip := Substr(withoutCity, zipPos + 1, |withoutCity|);
    var street := Trim(Substr(withoutCity, 0, zipPos));
    Result(text, street, zip, city, cc)
  }

  /** Two Romanian lines: city, then street; VIES has no postal code. */
  function ParseRomaniaTwoLines(address: string, lines: seq<string>, cc: string): (r: Outcome)
    requires |lines| == 2
    ensures Shaped(r, address, cc, true)
  {
    Parsed(address, Trim(Trim(lines[1])), ZipFalse, Trim(Trim(lines[0])), Trim(cc))
  }

  /** Three Romanian lines: city, street, apartment; the apartment goes in
      front of the street. */
  function ParseRomaniaThreeLines(address: string, lines: seq<string>, cc: string): (r: Outcome)
    requires |lines| == 3
    ensures Shaped(r, address, cc, true)
  {
    var street := Trim(lines[2]) + ", " + Trim(lines[1]);
    Parsed(address, Trim(street), ZipFalse, Trim(Trim(lines[0])), Trim(cc))
  }

  /** Three Portuguese lines: street, city, and the postal code as the first
      token of the last line. */
  function ParsePortugalThreeLines(address: string, lines: seq<string>, cc: string): (r: Outcome)
    requires |lines| == 3
    ensures r.Parsed?
    ensures Shaped(r, address, cc, false)
  {
    Result(address, lines[0], Split(lines[2], " ")[0], lines[1], cc)
  }

  /** Three French lines: place name and street joined by ", ", then
      "zip city". */
  function ParseFranceThreeLines(address: string, lines: seq<string>, cc: string): (r: Outcome)
    requires |lines| == 3
    ensures Shaped(r, address, cc, false)
  {
    TokenResult(address, lines[0] + ", " + lines[1], lines[2], cc)
  }

  /** The `sk_delete_mc` flag: drop the first "mestská časť " and then the
      first "m. č. " from the city. */
  function DeleteMc(city: string, configFlags: seq<string>): string {
    if "sk_delete_mc" in configFlags then ReplaceFirst(ReplaceFirst(city, "mestská časť ", ""), "m. č. ", "")
    else city
  }

  /** `[zip, city] = line.split(" ")` for Slovakia, then the flag on the
      city; an undefined city throws in `replace` or in `trim`. */
  function SlovakResult(address: string, street: string, line: string, cc: string, configFlags: seq<string>): (r: Outcome)
    ensures Shaped(r, address, cc, false)
  {
    var tokens := Split(line, " ");
    if |tokens| < 2 then Throws
    else Result(address, street, tokens[0], DeleteMc(tokens[1], configFlags), cc)
  }

  /** Three Slovak lines: street, "zip city", country. */
  function ParseSlovakiaThreeLines(address: string, lines: seq<string>, cc: string, configFlags: seq<string>): (r: Outcome)
    requires |lines| == 3
    ensures Shaped(r, address, cc, false)
  {
    SlovakResult(address, lines[0], lines[1], cc, configFlags)
  }

  /** Two Slovak lines: "zip city" then exactly "Slovensko" (no street), or
      street then "zip city". */
  function ParseSlovakiaTwoLines(address: string, lines: seq<string>, cc: string, configFlags: seq<string>): (r: Outcome)
    requires |lines| == 2
    ensures Shaped(r, address, cc, false)
  {
    if lines[1] == "Slovensko" then SlovakResult(address, "", lines[0], cc, configFlags)
    else SlovakResult(address, lines[0], lines[1], cc, configFlags)
  }

  /** `s.trim()` for every piece, as `map(value => value.trim())`. */
  function TrimAll(pieces: seq<string>): (r: seq<string>)
    ensures |r| == |pieces|
    ensures forall i :: 0 <= i < |r| ==> r[i] == Trim(pieces[i])
  {
    seq(|pieces|, i requires 0 <= i < |pieces| => Trim(pieces[i]))
  }

  /** One Estonian line with a double space: the pieces between double
      spaces, trimmed; street, then "zip city". */
  function ParseEstoniaDoubleSpace(address: string, cc: string): (r: Outcome)
    ensures Shaped(r, address, cc, false)
  {
    var pieces := TrimAll(Split(address, "  "));
    if |pieces| < 2 then Throws   // not reached from the dispatcher: the separator occurs
    else TokenResult(address, pieces[0], pieces[1], cc)
  }

  /** Two Czech lines: street, then postal code and city, split at the
      second space of the line (`indexOf(" ", indexOf(" ") + 1)`). The
      `pos === false` guard never holds, because `indexOf` returns a number;
      with no second space `pos` is -1, so `zip` is `substr(0, -1)`, empty,
      and `city` is `substr(-1)`, the last character. */
  function ParseCzechTwoLines(address: string, lines: seq<string>, cc: string): (r: Outcome)
    requires |lines| == 2
    ensures Shaped(r, address, cc, false)
  {
    var line := lines[1];
    var pos := IndexOfFrom(line, " ", IndexOf(line, " ") + 1);
    Result(address, lines[0], Substr(line, 0, pos), Substr(line, pos, |line|), cc)
  }

  /** Three Czech lines: `", ".address_split[1]` reads a property of a
      string literal, which is `undefined`, and indexing it throws before
      anything else is computed. */
  function ParseCzechThreeLines(address: string, lines: seq<string>, cc: string): (r: Outcome)
    requires |lines| == 3
    ensures Shaped(r, address, cc, false)
  {
    Throws
  }

  /** The extraction branches of `get_parsed_address`. */
  datatype Branch =
    | ExpectedFormat | CommaSeparated | GreekHyphen | RomaniaTwoLines | RomaniaThreeLines
    | PortugalThreeLines | FranceThreeLines | SlovakiaThreeLines | SlovakiaTwoLines
    | EstoniaDoubleSpace | CzechTwoLines | CzechThreeLines

  /** The number of line breaks a branch is taken for. */
  function BranchNewlines(b: Branch): nat {
    match b
    case CommaSeparated | GreekHyphen | EstoniaDoubleSpace => 0
    case ExpectedFormat | RomaniaTwoLines | SlovakiaTwoLines | CzechTwoLines => 1
    case RomaniaThreeLines | PortugalThreeLines | FranceThreeLines | SlovakiaThreeLines | CzechThreeLines => 2
  }

  /** The guards of the branches, tried in their source order; `None` is the
      final `return false`. */
  function Select(c: Country, newlines: int, doubleSpace: bool): (b: Option<Branch>)
    ensures b.Some? ==> BranchNewlines(b.value) == newlines
    ensures b.Some? ==> (b.value == GreekHyphen <==> c == EL)
    ensures b.Some? ==> (b.value in {RomaniaTwoLines, RomaniaThreeLines} <==> c == RO)
  {
    if newlines == 1 && c in ExpectedFormatCountries() then Some(ExpectedFormat)
    else if newlines == 0 && c in {SI, HR} then Some(CommaSeparated)
    else if newlines == 0 && c == EL then Some(GreekHyphen)
    else if newlines == 1 && c == RO then Some(RomaniaTwoLines)
    else if newlines == 2 && c == RO then Some(RomaniaThreeLines)
    else if newlines == 1 && c == IT then Some(ExpectedFormat)
    else if newlines == 2 && c == PT then Some(PortugalThreeLines)
    else if newlines == 2 && c == FR then Some(FranceThreeLines)
    else if newlines == 2 && c == SK then Some(SlovakiaThreeLines)
    else if newlines == 1 && c == SK then Some(SlovakiaTwoLines)
    else if newlines == 0 && c == EE && doubleSpace then Some(EstoniaDoubleSpace)
    else if newlines == 1 && c == CZ then Some(CzechTwoLines)
    else if newlines == 2 && c == CZ then Some(CzechThreeLines)
    else None
  }

  /** The text a branch parses: the Greek branch first replaces the
      address by its transliteration (`make_greeklish`); every other branch
      reads the trimmed address as it is. */
  function BranchText(b: Branch, text: string): string {
    if b == GreekHyphen then Greeklish.Transliterate(text) else text
  }

  /** The body of a branch, on the text it parses, the lines of the trimmed
      address and the country code. */
  function Run(b: Branch, text: string, lines: seq<string>, cc: string, configFlags: seq<string>): (r: Outcome)
    requires |lines| == BranchNewlines(b) + 1
    ensures r != False
    ensures Shaped(r, text, cc, b == RomaniaTwoLines || b == RomaniaThreeLines)
  {
    match b
    case ExpectedFormat => ParseExpectedFormat(text, lines, cc)
    case CommaSeparated => ParseCommaSeparated(text, cc)
    case GreekHyphen => ParseGreekHyphen(text, cc)
    case RomaniaTwoLines => ParseRomaniaTwoLines(text, lines, cc)
    case RomaniaThreeLines => ParseRomaniaThreeLines(text, lines, cc)
    case PortugalThreeLines => ParsePortugalThreeLines(text, lines, cc)
    case FranceThreeLines => ParseFranceThreeLines(text, lines, cc)
    case SlovakiaThreeLines => ParseSlovakiaThreeLines(text, lines, cc, configFlags)
    case SlovakiaTwoLines => ParseSlovakiaTwoLines(text, lines, cc, configFlags)
    case EstoniaDoubleSpace => ParseEstoniaDoubleSpace(text, cc)
    case CzechTwoLines => ParseCzechTwoLines(text, lines, cc)
    case CzechThreeLines => ParseCzechThreeLines(text, lines, cc)
  }

  /** The dispatch for a supported country: the first branch whose guard
      holds runs on the trimmed address and its lines, and `false` when no
      guard holds. No branch itself returns `false`. */
  function Dispatch(country: Country, text: string, lines: seq<string>, cc: string, configFlags: seq<string>): (r: Outcome)
    requires |lines| >= 1
    ensures r == False <==> Select(country, |lines| - 1, IndexOf(text, "  ") != -1).None?
    ensures Shaped(r, if country == EL then Greeklish.Transliterate(text) else text, cc, country == RO)
  {
    match Select(country, |lines| - 1, IndexOf(text, "  ") != -1)
    case None => False
    case Some(b) => Run(b, BranchText(b, text), lines, cc, configFlags)
  }

  /** `get_parsed_address(vat_number, address, config_flags)`: trim both
      inputs, take the country code and split the address into lines; an
      unsupported country gives `false`, otherwise the dispatch runs. */
  function GetParsedAddress(vatNumber: string, address: string, configFlags: seq<string>): (r: Outcome)
    ensures Lookup(CountryCode(vatNumber)).None? ==> r == False
    ensures r.Parsed? ==> r.countryCode == CountryCode(vatNumber) && Lookup(r.countryCode).Some?
  {
    var text := Trim(address);
    var cc := CountryCode(vatNumber);
    var country := Lookup(cc);
    if country.None? then False
    else
      assert Trim(cc) == cc by {
        WordIsTrimmed(Code(country.value));
      }
      Dispatch(country.value, text, Split(text, "\n"), cc, configFlags)
  }
}
