# vies-parser address extraction, in Dafny

This project models the `ViesParser` class of vies-parser (`index.js`). The
class turns the free-text address returned by the EU VIES VAT-number service
into an object with street, postal code, city and country code. The model
covers its three methods:

- `get_supported_countries`: the list of sixteen country codes the parser handles.
- `get_parsed_address(vat_number, address, config_flags)`: it trims the address
  and the VAT number, and takes the country code from the first two characters.
  It counts the line breaks, then picks a country branch by code and line count.
  Each branch extracts the fields. The result is an object, `false`, or (for
  some inputs) a thrown `TypeError`.
- `make_greeklish(text)`: it transliterates Greek text to Latin letters by
  applying 42 regular-expression replacements in order. Each replacement
  rewrites only the leftmost match.

Modules:

- `Wrappers` (`wrappers.dfy`): the `Option` type shared by the other modules.
- `JsString` (`js_string.dfy`): the JavaScript string primitives the parser
  relies on, with their exact edge cases. These are `trim` (ECMAScript white
  space and line terminators), `split` on a literal separator, `indexOf` with
  a clamped start, Annex B `substr`, and first-occurrence `replace`.
- `Greeklish` (`greeklish.dfy`): the rule table, leftmost regular-expression
  matching, and the `forEach` loop as a method proved against the rule-fold
  function.
- `ViesParser` (`vies_parser.dfy`): the result type
  (`Parsed | False | Throws`), one function per country branch, the ordered
  guard chain, and `GetParsedAddress`.
- `ViesProperties` (`vies_properties.dfy`): dispatch facts. These cover which
  inputs give `false`, that the guard order is irrelevant, the shape of every
  result, that flags never matter, and the Czech outcomes.
- `ViesRoundTrips` (`vies_roundtrips.dfy`), `ViesOneLine` (`vies_one_line.dfy`)
  and `ViesSlovakiaCzechia` (`vies_slovakia_czechia.dfy`): for each branch,
  what the parser returns on an address built from known street, postal code
  and city fields.

Destructuring or trimming an `undefined` value raises a `TypeError` in
JavaScript; the model returns `Throws` for it. `Zip` is either a string or the
literal `false` that the Romanian branches return.

## Model

| member | source | states |
|---|---|---|
| JsString.Trim | index.js:10-11 | the trimmed text has no white space or line terminator at either end |
| JsString.TrimIsSlice | index.js:10-11 | trim only removes characters: the result is a contiguous slice of the input with only white space before and after it |
| JsString.TrimBetween | index.js:35-37 | trimming a text whose first and last non-space characters are at `a` and `b-1` gives exactly `x[a..b]` |
| JsString.TrimOfPadded | index.js:47-49 | a non-empty trimmed text padded with white space on both sides trims back to itself |
| JsString.TrimmedIsFixed | index.js:35-38 | trim leaves an already trimmed text unchanged |
| JsString.TrimIdempotent | index.js:10-11 | trimming twice is the same as trimming once |
| JsString.WordIsTrimmed | index.js:36-37 | a word without white space is trimmed and is its own trim |
| JsString.IndexOf | index.js:61 | the result is -1 or the position of an occurrence, and no occurrence lies before it (-1 means there is none) |
| JsString.IndexOfFrom | index.js:212 | the same, for the search that starts at the clamped `fromIndex` |
| JsString.IndexOfChar | index.js:64 | searching for a single character gives -1 exactly when it is absent; otherwise the result is its first position |
| JsString.IndexOfIs | index.js:61 | an occurrence with none before it is what `indexOf` returns |
| JsString.IndexOfFromIs | index.js:212 | an occurrence at or after the start, with none between, is what `indexOf` from that start returns |
| JsString.IndexOfFromAbsent | index.js:212 | with no occurrence at or after the start, `indexOf` from it returns -1 |
| JsString.Split | index.js:13 | split returns at least one piece, and no piece contains the separator |
| JsString.JoinSplit | index.js:30-32 | joining the pieces of a split with the separator gives back the original text |
| JsString.SplitJoin | index.js:30-32 | splitting separator-free parts joined by a one-character separator gives back the parts |
| JsString.SplitAt | index.js:194 | a text whose first separator follows the prefix `a` splits into `a` followed by the split of the rest |
| JsString.SplitWhole | index.js:44 | a text without the separator splits into itself alone |
| JsString.SplitPiecesLackSeparator | index.js:13 | no piece of a split on a character contains that character |
| JsString.SplitCountsSeparators | index.js:13 | the number of pieces is one more than the number of separator characters, so `newlines` counts the line feeds |
| JsString.CountAfterFirst | index.js:13 | the line feeds after the first one number one fewer than all of them |
| JsString.Substr | index.js:12 | Annex B `substr`: a non-positive length gives ""; an in-range request gives that slice; an over-long one stops at the end; a negative start counts from the end, also when the length stops short of the end; a start at or past the end gives "" |
| JsString.ReplaceFirst | index.js:155-156 | replace leaves the text unchanged when the pattern has a character the text lacks; any change happens at the first occurrence of the pattern; ReplaceFirstAt and ReplaceFirstAbsent give the other direction |
| JsString.ReplaceFirstAt | index.js:155-156 | a pattern that occurs is replaced at its first occurrence, the rest of the text kept on both sides |
| JsString.ReplaceFirstAbsent | index.js:155-156 | a pattern that occurs nowhere leaves the text as it is |
| Greeklish.MatchAt | index.js:251-292 | a match found at `k` starts at `k`, ends inside the text, and covers a character of the rule's leading class |
| Greeklish.Leftmost | index.js:295 | the match found is the one with the smallest start: no attempt between the search start and it succeeds |
| Greeklish.ApplyRuleIsReplace | index.js:295 | replace without the global flag: a text the rule does not match is unchanged; a text it matches anywhere is the input with only the leftmost match spliced out for its replacement |
| Greeklish.Rules | index.js:250-293 | the table has 42 rules, in source order |
| Greeklish.MakeGreeklish | index.js:249-297 | the loop over the rule table computes `Transliterate`: every rule applied once, in order, each to the previous result |
| Greeklish.NoLeadNoChange | index.js:295 | a rule whose leading class meets no character of the text leaves the text unchanged |
| Greeklish.ApplyRulesNoLead | index.js:295 | a rule list whose leading classes all miss the text leaves it unchanged |
| Greeklish.ApplyRulesAppend | index.js:295 | applying a concatenated rule list is applying the first list and then the second |
| Greeklish.LeadsAreGreek | index.js:251-292 | every character of every rule's leading class is at or above U+0370 (the Latin `s` context of rule 8 is not part of a class) |
| Greeklish.TransliterateKeepsLatin | index.js:249-297 | text entirely below the Greek block comes back unchanged |
| Greeklish.LeftmostOnly | index.js:271-295 | each rule rewrites only its leftmost match: rule 21 turns "αα" into "aα" |
| Greeklish.PairBeforeLetters | index.js:251-271 | a digraph rule runs before the single-letter rules: "αι" becomes "e", not "ai" |
| ViesParser.SupportedCountries | index.js:5-7 | there are sixteen supported codes |
| ViesParser.Code | index.js:6 | every supported code is two non-space characters |
| ViesParser.Lookup | index.js:24 | a found country has exactly the code looked up |
| ViesParser.CountryCode | index.js:11-12 | the country code has at most two characters, and is the first two characters of the trimmed VAT number when there are two |
| ViesParser.Result | index.js:33-39 | the returned object keeps the address and trims every other field |
| ViesParser.TokenResult | index.js:32-39 | splitting a line into postal code and city gives an object whose fields are trimmed (or throws) |
| ViesParser.ParseExpectedFormat | index.js:28-40 | the two-line branch returns the address with trimmed street, postal code and city, or throws |
| ViesParser.ParseCommaSeparated | index.js:43-57 | the comma branch's result is shaped like every other: address kept, other fields trimmed |
| ViesParser.ParseGreekHyphen | index.js:60-76 | the Greek branch, on the transliterated text, returns that text as the address, with trimmed fields |
| ViesParser.ParseRomaniaTwoLines | index.js:79-90 | the Romanian two-line branch always gives `zip: false`, with trimmed street and city |
| ViesParser.ParseRomaniaThreeLines | index.js:94-105 | the Romanian three-line branch always gives `zip: false`, with trimmed street and city |
| ViesParser.ParsePortugalThreeLines | index.js:120-132 | the Portuguese branch always returns an object (the first token of the last line always exists), with trimmed fields |
| ViesParser.ParseFranceThreeLines | index.js:135-146 | the French three-line branch returns trimmed fields, or throws |
| ViesParser.SlovakResult | index.js:153-164 | the Slovak postal code and city split gives trimmed fields, or throws |
| ViesParser.ParseSlovakiaThreeLines | index.js:148-165 | the Slovak three-line branch returns trimmed fields, or throws |
| ViesParser.ParseSlovakiaTwoLines | index.js:167-191 | the Slovak two-line branch returns trimmed fields, or throws |
| ViesParser.TrimAll | index.js:196 | the `map` keeps the number of pieces and trims each one |
| ViesParser.ParseEstoniaDoubleSpace | index.js:193-206 | the Estonian branch returns trimmed fields, or throws |
| ViesParser.ParseCzechTwoLines | index.js:208-224 | the Czech two-line branch returns trimmed fields |
| ViesParser.ParseCzechThreeLines | index.js:226-242 | the Czech three-line branch's result has the common shape; it is in fact always a throw (CzechThreeLinesThrow) |
| ViesParser.Select | index.js:28-244 | a chosen branch handles exactly the given number of line breaks; the Greek branch is chosen only for EL and the Romanian ones only for RO |
| ViesParser.Run | index.js:28-243 | a chosen branch never returns `false`; its result keeps the text the branch parsed as the address, trims the other fields, and has `zip: false` exactly for Romania |
| ViesParser.Dispatch | index.js:28-244 | for a supported country, the result is `false` exactly when no guard matches; otherwise it is a shaped result |
| ViesParser.GetParsedAddress | index.js:9-245 | an unsupported country code gives `false`; a returned object carries the VAT number's own, supported, country code |
| ViesProperties.SelectIsRoute | index.js:28-244 | the ordered guard chain equals the country-by-country table, so no two guards overlap and their order decides nothing |
| ViesProperties.SupportedIsLookup | index.js:24 | a code is in the supported list exactly when it names a country |
| ViesProperties.LookupCode | index.js:5-7 | every country's code looks up to that country |
| ViesProperties.UnsupportedCountry | index.js:24-26 | a VAT number whose first two characters are not a supported code gives `false`, whatever the address |
| ViesProperties.Dispatches | index.js:9-13 | a supported country is handled on the trimmed address, split into lines |
| ViesProperties.RunsBranch | index.js:28-243 | the branch whose guard holds is the one that runs, on the trimmed address (transliterated first for the Greek branch, line 60) and its lines |
| ViesProperties.DispatchFalse | index.js:244 | dispatch returns `false` exactly when the country table has no branch for the line count |
| ViesProperties.FalseForSupported | index.js:244 | for a supported country, the result is `false` exactly when the table has no branch for the number of line feeds |
| ViesProperties.RunsOn | index.js:28-243 | on an already trimmed address, a selected branch other than the Greek one runs on that address itself |
| ViesProperties.FalseExactlyWhenUnhandled | index.js:24-244 | `false` is returned if and only if the code is unsupported or the country has no branch for the line count (and, for EE, the double space) |
| ViesProperties.OutcomeShape | index.js:33-39 | every returned object keeps the (trimmed, for Greece transliterated) address and has trimmed fields; `zip` is `false` exactly for Romania |
| ViesProperties.CzechBranches | index.js:208-226 | Czech addresses with one or two line breaks reach their own branches |
| ViesProperties.CzechThreeLinesThrow | index.js:226-229 | every three-line Czech address throws |
| ViesProperties.DeleteMcWithoutSpace | index.js:154-157 | removing the district prefixes changes nothing in a city without a space |
| ViesProperties.SlovakFlagFree | index.js:153-157 | the Slovak result is the same with or without `sk_delete_mc` |
| ViesProperties.RunIgnoresFlags | index.js:154-182 | no branch's result depends on the configuration flags |
| ViesProperties.DispatchIgnoresFlags | index.js:154-182 | dispatch's result does not depend on the configuration flags |
| ViesProperties.FlagsNeverMatter | index.js:9-245 | `get_parsed_address` gives the same outcome for any two flag lists |
| ViesProperties.CzechTwoLinesRun | index.js:208-224 | the Czech two-line branch always returns an object |
| ViesProperties.CzechTwoLinesParsed | index.js:208-224 | a two-line Czech address always yields an object: the `pos === false` guard never fires |
| ViesProperties.TooManyLines | index.js:244 | an address with three or more line feeds gives `false` for every country |
| ViesProperties.EstoniaNeedsDoubleSpace | index.js:193 | an Estonian one-line address without a double space gives `false` |
| ViesProperties.NoThreeLineBranch | index.js:28-244 | three-line addresses of NL, BE, FI, AT, PL, DK and IT give `false` |
| ViesRoundTrips.ExpectedFormatRoundTrip | index.js:28-40 | for NL, BE, FR, FI, AT, PL, DK and IT (whose branch at lines 107-118 has the same body), "street\nzip city …" parses to that street, postal code and city |
| ViesRoundTrips.ExpectedFormatWords | index.js:28-40 | the second line's first two words become the postal code and the city |
| ViesRoundTrips.ExpectedFormatOneWordThrows | index.js:32-37 | a second line of a single word leaves `city` undefined, so the call throws |
| ViesRoundTrips.FranceThreeLinesRoundTrip | index.js:135-146 | "place\nstreet\nzip city …" gives street "place, street", with the postal code and city |
| ViesRoundTrips.PortugalRoundTrip | index.js:120-132 | "street\ncity\nzip …" gives that street, city and postal code |
| ViesRoundTrips.RomaniaTwoLinesRoundTrip | index.js:79-90 | "city\nstreet" gives that city and street, with `zip: false` |
| ViesRoundTrips.RomaniaThreeLinesRoundTrip | index.js:94-105 | "city\nstreet\napartment" gives street "apartment, street", that city, and `zip: false` |
| ViesOneLine.CommaSeparatedTwoParts | index.js:43-57 | "street, tail" in SI or HR gives that street; the postal code and city are the first two single characters of the tail (it throws if the tail is shorter) |
| ViesOneLine.CommaSeparatedThreeParts | index.js:43-57 | "street, district, tail" gives street "street, district", with the same single-character postal code and city |
| ViesOneLine.GreekRoundTrip | index.js:59-76 | when the transliteration reads "street zip - city", the object holds the transliterated address, that street, postal code and city |
| ViesOneLine.GreekLatinRoundTrip | index.js:59-76 | a Latin-only "street zip - city" comes back field for field |
| ViesOneLine.GreekNoHyphen | index.js:61-67 | without " - ", street and postal code are empty and the city is the text from its third character on |
| ViesOneLine.EstoniaRoundTrip | index.js:193-206 | "street  zip city …" (two spaces) gives that street, postal code and city |
| ViesOneLine.EstoniaWideGapThrows | index.js:194-198 | a gap of four spaces leaves an empty second piece, so the call throws |
| ViesSlovakiaCzechia.SlovakiaThreeLinesRoundTrip | index.js:148-165 | "street\nzip city …\ncountry" gives that street, postal code and city, with any flags |
| ViesSlovakiaCzechia.SlovakiaTwoLinesRoundTrip | index.js:167-191 | "street\nzip city …" gives that street, postal code and city, with any flags |
| ViesSlovakiaCzechia.SlovakiaWithoutStreet | index.js:172-174 | "zip city …\nSlovensko" gives an empty street and takes the postal code and city from the first line |
| ViesSlovakiaCzechia.CzechRoundTrip | index.js:208-224 | "street\nz1 z2 city" gives the postal code "z1 z2", up to the second space, and that city |
| ViesSlovakiaCzechia.CzechSingleSpace | index.js:212-216 | with one space in the second line, the postal code is "" and the city is its last character |

## Left out

- The VIES web service, VAT-number validation and the network are outside the class and not modelled.
- Arguments that are not strings are not modelled: `trim` on `undefined` or on a number.
- The omitted `config_flags` default is not modelled; every call passes a flag list.
- Characters are Unicode scalar values, not UTF-16 code units. A character outside the Basic Multilingual Plane counts as one position, not two, in `length`, `indexOf` and `substr`.
- Only the four regular-expression shapes the rule table uses are modelled, not general regular expressions.
- The three case-insensitive rules use explicit character sets. These sets hold the simple case-folding equivalents, including U+03D5 and U+2126.
- The class wrapper and the object literal's JavaScript property order are not modelled.
- `Throws` stands for any `TypeError`; which property access failed is not recorded.
- The round-trip lemmas cover addresses built from lines without line feeds and from words without white space. Other addresses are covered only by the shape and dispatch lemmas.
- ViesOneLine.GreekRoundTrip: the transliterated text must already have the "street zip - city" form. Round trips through the Greek rules themselves are proved only for Latin text (GreekLatinRoundTrip).
- Behaviour the model keeps as written:
  - SI and HR destructure a string, so postal code and city are single characters.
  - A three-line Czech address always throws: `", ".address_split` is `undefined`.
  - The Czech `pos === false` guard never fires.
  - `sk_delete_mc` can never change a city, because the city is a space-free token.
  - An Estonian gap of four spaces throws, because the second piece of the split is empty.
