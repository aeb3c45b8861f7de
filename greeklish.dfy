/** `ViesParser.make_greeklish`: Greek text to Latin letters by 42 ordered
    regular-expression rules, each applied once with
    `String.prototype.replace`, so that each rule rewrites only its leftmost
    match in the text the earlier rules left behind. */
module Greeklish {
  import opened Wrappers

  /** The four shapes the rule expressions take. A set of characters stands
      for a bracketed character class.
      - `Single(lead, rep)`:           /[lead]/ → rep
      - `Pair(lead, next, rep)`:       /[lead][next]/ → rep
      - `PairBefore(lead, next, context, rep)`:
                                       /[lead][next]([context]|s|$)/ → rep + "$1"
      - `PairAfter(lead, next, rep)`:  /(^|s)[lead][next]/ → "$1" + rep
      The `s` in the two context alternatives is the Latin letter s. */
  datatype Rule =
    | Single(lead: set<char>, rep: string)
    | Pair(lead: set<char>, next: set<char>, rep: string)
    | PairBefore(lead: set<char>, next: set<char>, context: set<char>, rep: string)
    | PairAfter(lead: set<char>, next: set<char>, rep: string)

  /** A match of a rule: the text `start..end` it covers and what its
      capture group `$1` took ("" when the group matched `^` or `$`). */
  datatype Match = Match(start: nat, end: nat, group: string)

  /** The match of `r` whose attempt starts at index `k`, trying the
      alternatives of the capture group in their written order. */
  function MatchAt(r: Rule, s: string, k: nat): (m: Option<Match>)
    ensures m.Some? ==> m.value.start == k < m.value.end <= |s|
    ensures m.Some? ==> exists j :: k <= j < m.value.end && s[j] in r.lead
  {
    match r
    case Single(lead, _) =>
      if k < |s| && s[k] in lead then Some(Match(k, k + 1, "")) else None
    case Pair(lead, next, _) =>
      if k + 1 < |s| && s[k] in lead && s[k + 1] in next then Some(Match(k, k + 2, "")) else None
    case PairBefore(lead, next, context, _) =>
      if k + 1 < |s| && s[k] in lead && s[k + 1] in next then
        if k + 2 < |s| && (s[k + 2] in context || s[k + 2] == 's') then Some(Match(k, k + 3, [s[k + 2]]))
        else if k + 2 == |s| then Some(Match(k, k + 2, ""))
        else None
      else None
    case PairAfter(lead, next, _) =>
      if k == 0 && k + 1 < |s| && s[k] in lead && s[k + 1] in next then Some(Match(k, k + 2, ""))
      else if k + 2 < |s| && s[k] == 's' && s[k + 1] in lead && s[k + 2] in next then Some(Match(k, k + 3, "s"))
      else None
  }

  /** The text a match is replaced by: the rule's replacement with `$1`
      expanded to the captured group. */
  function Replacement(r: Rule, m: Match): string {
    match r
    case Single(_, rep) => rep
    case Pair(_, _, rep) => rep
    case PairBefore(_, _, _, rep) => rep + m.group
    case PairAfter(_, _, rep) => m.group + rep
  }

  /** The regular-expression search from index `k`: the match with the
      smallest start at or after `k`, if any. */
  function Leftmost(r: Rule, s: string, k: nat): (m: Option<Match>)
    ensures m.Some? ==> k <= m.value.start && MatchAt(r, s, m.value.start) == m
    ensures forall j :: k <= j && (m.None? || j < m.value.start) ==> MatchAt(r, s, j).None?
    decreases |s| - k
  {
    if k >= |s| then None
    else
      match MatchAt(r, s, k)
      case Some(m) => Some(m)
      case None => Leftmost(r, s, k + 1)
  }

  /** `s.replace(regex, replacement)` for a non-global rule: the leftmost
      match, and only it, is spliced out and its replacement put in; text
      with no match comes back unchanged (see `ApplyRuleIsReplace`). */
  function ApplyRule(r: Rule, s: string): string {
    match Leftmost(r, s, 0)
    case None => s
    case Some(m) => s[..m.start] + Replacement(r, m) + s[m.end..]
  }

  /** What a non-global `replace` does: a text the rule does not match
      comes back unchanged, and a text it matches anywhere is the input
      with the match that has no match before it spliced out and replaced. */
  lemma {:induction false} ApplyRuleIsReplace(r: Rule, s: string)
    ensures (forall k :: 0 <= k ==> MatchAt(r, s, k).None?) ==> ApplyRule(r, s) == s
    ensures (exists k :: 0 <= k && MatchAt(r, s, k).Some?) ==>
              exists m: Match :: && MatchAt(r, s, m.start) == Some(m)
                                 && (forall j :: 0 <= j < m.start ==> MatchAt(r, s, j).None?)
                                 && ApplyRule(r, s) == s[..m.start] + Replacement(r, m) + s[m.end..]
  {
    var found := Leftmost(r, s, 0);
    if found.Some? {
      var m := found.value;
      assert MatchAt(r, s, m.start) == Some(m);
    }
  }

  /** The rules applied one after the other, in list order, each to the text
      the previous ones produced. */
  function ApplyRules(rules: seq<Rule>, s: string): string
    decreases |rules|
  {
    if |rules| == 0 then s
    else ApplyRule(rules[|rules| - 1], ApplyRules(rules[..|rules| - 1], s))
  }

  /** Unvoiced consonants, the context class of the `αυ`, `ευ` and `ηυ`
      rules; it holds the Latin letter T and the capital rho Ρ, and not the
      capital phi Φ. */
  function Unvoiced(): set<char> {
    {'θ', 'Θ', 'κ', 'Κ', 'ξ', 'Ξ', 'π', 'Π', 'σ', 'ς', 'Σ', 'τ', 'T', 'φ', 'Ρ', 'χ', 'Χ', 'ψ', 'Ψ'}
  }

  /** The rule table, in its source order. The last three rules are
      case-insensitive, so their classes hold every character whose simple
      case folding equals that of a listed letter (the phi symbol U+03D5 and
      the ohm sign U+2126 included). */
  function Rules(): (rules: seq<Rule>)
    ensures |rules| == 42
  {
    DigraphRules() + LetterRules()
  }

  /** The first seventeen rules: the letter pairs, each tried before the
      rules for its single letters. */
  function DigraphRules(): (rules: seq<Rule>)
    ensures |rules| == 17
  {
    [ Pair({'α', 'Α'}, {'ι', 'ί', 'Ι', 'Ί'}, "e"),
      Pair({'ο', 'Ο', 'Ε', 'ε'}, {'ι', 'ί', 'Ι', 'Ί'}, "i"),
      PairBefore({'α', 'Α'}, {'υ', 'ύ', 'Υ', 'Ύ'}, Unvoiced(), "af"),
      Pair({'α', 'Α'}, {'υ', 'ύ', 'Υ', 'Ύ'}, "av"),
      PairBefore({'ε', 'Ε'}, {'υ', 'ύ', 'Υ', 'Ύ'}, Unvoiced(), "ef"),
      Pair({'ε', 'Ε'}, {'υ', 'ύ', 'Υ', 'Ύ'}, "ev"),
      Pair({'ο', 'Ο'}, {'υ', 'ύ', 'Υ', 'Ύ'}, "ou"),
      PairAfter({'μ', 'Μ'}, {'π', 'Π'}, "b"),
      PairBefore({'μ', 'Μ'}, {'π', 'Π'}, {}, "b"),
      Pair({'μ', 'Μ'}, {'π', 'Π'}, "mp"),
      Pair({'ν', 'Ν'}, {'τ', 'Τ'}, "nt"),
      Pair({'τ', 'Τ'}, {'σ', 'Σ'}, "ts"),
      Pair({'τ', 'Τ'}, {'ζ', 'Ζ'}, "tz"),
      Pair({'γ', 'Γ'}, {'γ', 'Γ'}, "ng"),
      Pair({'γ', 'Γ'}, {'κ', 'Κ'}, "gk"),
      PairBefore({'η', 'Η'}, {'υ', 'Υ'}, Unvoiced(), "if"),
      Pair({'η', 'Η'}, {'υ', 'Υ'}, "iu")
    ]
  }

  /** The last twenty-five rules: one letter at a time, in five groups of
      five. */
  function LetterRules(): (rules: seq<Rule>)
    ensures |rules| == 25
  {
    LetterRules1() + LetterRules2() + LetterRules3() + LetterRules4() + LetterRules5()
  }

  function LetterRules1(): (rules: seq<Rule>)
    ensures |rules| == 5
  {
    [ Single({'θ', 'Θ'}, "th"),
      Single({'χ', 'Χ'}, "ch"),
      Single({'ψ', 'Ψ'}, "ps"),
      Single({'α', 'ά'}, "a"),
      Single({'β', 'Β'}, "v") ]
  }

  function LetterRules2(): (rules: seq<Rule>)
    ensures |rules| == 5
  {
    [ Single({'γ', 'Γ'}, "g"),
      Single({'δ', 'Δ'}, "d"),
      Single({'ε', 'έ', 'Ε', 'Έ'}, "e"),
      Single({'ζ', 'Ζ'}, "z"),
      Single({'η', 'ή', 'Η', 'Ή'}, "i") ]
  }

  function LetterRules3(): (rules: seq<Rule>)
    ensures |rules| == 5
  {
    [ Single({'ι', 'ί', 'ϊ', 'Ι', 'Ί', 'Ϊ'}, "i"),
      Single({'κ', 'Κ'}, "k"),
      Single({'λ', 'Λ'}, "l"),
      Single({'μ', 'Μ'}, "m"),
      Single({'ν', 'Ν'}, "n") ]
  }

  function LetterRules4(): (rules: seq<Rule>)
    ensures |rules| == 5
  {
    [ Single({'ξ', 'Ξ'}, "x"),
      Single({'ο', 'ό', 'Ο', 'Ό'}, "o"),
      Single({'π', 'Π'}, "p"),
      Single({'ρ', 'Ρ'}, "r"),
      Single({'σ', 'ς', 'Σ'}, "s") ]
  }

  function LetterRules5(): (rules: seq<Rule>)
    ensures |rules| == 5
  {
    [ Single({'τ', 'Τ'}, "t"),
      Single({'υ', 'ύ', 'ϋ', 'Υ', 'Ύ', 'Ϋ'}, "i"),
      Single({'φ', 'Φ', '\U{03D5}'}, "f"),
      Single({'ω', 'ώ', 'Ω', 'Ώ', '\U{2126}'}, "o"),
      Single({'Α', 'α'}, "a") ]
  }

  /** What `make_greeklish` returns for `text`. */
  function Transliterate(text: string): string {
    ApplyRules(Rules(), text)
  }

  /** `make_greeklish(text)`: the `forEach` over the rule table, each step
      replacing the accumulator by the rule's `replace` of it. */
  method MakeGreeklish(text: string) returns (out: string)
    ensures out == Transliterate(text)
  {
    var rules := Rules();
    out := text;
    var i := 0;
    while i < |rules|
      invariant 0 <= i <= |rules|
      invariant out == ApplyRules(rules[..i], text)
    {
      assert rules[..i + 1][..i] == rules[..i];
      out := ApplyRule(rules[i], out);
      i := i + 1;
    }
    assert rules[..|rules|] == rules;
  }

  /** A rule whose leading class meets no character of `s` leaves `s`
      unchanged. */
  lemma {:induction false} NoLeadNoChange(r: Rule, s: string)
    requires forall i :: 0 <= i < |s| ==> s[i] !in r.lead
    ensures ApplyRule(r, s) == s
  {
    forall k | 0 <= k ensures MatchAt(r, s, k).None? {
    }
    ApplyRuleIsReplace(r, s);
  }

  /** Text that holds no character of any rule's leading class comes through
      the whole rule list unchanged. */
  lemma {:induction false} ApplyRulesNoLead(rules: seq<Rule>, s: string)
    requires forall j, i :: 0 <= j < |rules| && 0 <= i < |s| ==> s[i] !in rules[j].lead
    ensures ApplyRules(rules, s) == s
    decreases |rules|
  {
    if |rules| > 0 {
      ApplyRulesNoLead(rules[..|rules| - 1], s);
      NoLeadNoChange(rules[|rules| - 1], s);
    }
  }

  /** No character of `s` lies in or above the Greek block (Latin
      letters, digits, punctuation and white space all lie below it). */
  predicate BelowGreek(s: string) {
    forall i :: 0 <= i < |s| ==> s[i] < '\U{0370}'
  }

  /** Every character of the leading class of each rule of `rules` lies in
      or above the Greek block. (A `PairAfter` rule may start its match on
      the Latin `s` of its context; that `s` is not part of the class.) */
  predicate LeadsGreek(rules: seq<Rule>) {
    forall j, c :: 0 <= j < |rules| && c in rules[j].lead ==> c >= '\U{0370}'
  }

  /** The property holds for a concatenation when it holds for both parts. */
  lemma {:induction false} LeadsGreekAppend(a: seq<Rule>, b: seq<Rule>)
    requires LeadsGreek(a) && LeadsGreek(b)
    ensures LeadsGreek(a + b)
  {
    forall j, c | 0 <= j < |a + b| && c in (a + b)[j].lead ensures c >= '\U{0370}' {
      if j < |a| {
        assert (a + b)[j] == a[j];
      } else {
        assert (a + b)[j] == b[j - |a|];
      }
    }
  }

  lemma {:induction false} DigraphLeadsAreGreek()
    ensures LeadsGreek(DigraphRules())
  {
  }

  lemma {:induction false} LetterLeadsAreGreek1()
    ensures LeadsGreek(LetterRules1())
  {
  }

  lemma {:induction false} LetterLeadsAreGreek2()
    ensures LeadsGreek(LetterRules2())
  {
  }

  lemma {:induction false} LetterLeadsAreGreek3()
    ensures LeadsGreek(LetterRules3())
  {
  }

  lemma {:induction false} LetterLeadsAreGreek4()
    ensures LeadsGreek(LetterRules4())
  {
  }

  lemma {:induction false} LetterLeadsAreGreek5()
    ensures LeadsGreek(LetterRules5())
  {
  }

  /** Every character of every rule's leading class lies in or above the
      Greek block. */
  lemma {:induction false} LeadsAreGreek()
    ensures LeadsGreek(Rules())
  {
    DigraphLeadsAreGreek();
    LetterLeadsAreGreek1();
    LetterLeadsAreGreek2();
    LetterLeadsAreGreek3();
    LetterLeadsAreGreek4();
    LetterLeadsAreGreek5();
    LeadsGreekAppend(LetterRules1(), LetterRules2());
    LeadsGreekAppend(LetterRules1() + LetterRules2(), LetterRules3());
    LeadsGreekAppend(LetterRules1() + LetterRules2() + LetterRules3(), LetterRules4());
    LeadsGreekAppend(LetterRules1() + LetterRules2() + LetterRules3() + LetterRules4(), LetterRules5());
    LeadsGreekAppend(DigraphRules(), LetterRules());
  }

  /** `make_greeklish` returns text without Greek letters unchanged. */
  lemma {:induction false} TransliterateKeepsLatin(s: string)
    requires BelowGreek(s)
    ensures Transliterate(s) == s
  {
    LeadsAreGreek();
    ApplyRulesNoLead(Rules(), s);
  }

  /** Applying a list of rules is applying its first part, then the rest. */
  lemma {:induction false} ApplyRulesAppend(first: seq<Rule>, rest: seq<Rule>, s: string)
    ensures ApplyRules(first + rest, s) == ApplyRules(rest, ApplyRules(first, s))
    decreases |rest|
  {
    var all := first + rest;
    if |rest| == 0 {
      assert all == first;
    } else {
      var init, last := rest[..|rest| - 1], rest[|rest| - 1];
      assert all[..|all| - 1] == first + init;
      assert all[|all| - 1] == last;
      ApplyRulesAppend(first, init, s);
      calc {
        ApplyRules(all, s);
        ApplyRule(last, ApplyRules(first + init, s));
        ApplyRule(last, ApplyRules(init, ApplyRules(first, s)));
        ApplyRules(rest, ApplyRules(first, s));
      }
    }
  }

  /** A rule rewrites only its leftmost match: the single-letter rule for
      alpha turns "αα" into "aα". */
  lemma {:induction false} LeftmostOnly()
    ensures ApplyRule(Rules()[20], "αα") == "aα"
  {
    var r := Rules()[20];
    assert r == LetterRules()[3] == LetterRules1()[3];
    assert MatchAt(r, "αα", 0) == Some(Match(0, 1, ""));
  }

  /** The rules run in their written order: the pair "αι" is rewritten to
      "e" by the first rule, before the single-letter rules can turn its
      alpha into "a", and nothing later changes the result. */
  lemma {:induction false} PairBeforeLetters()
    ensures Transliterate("αι") == "e"
  {
    var rules := Rules();
    assert rules == rules[..1] + rules[1..];
    ApplyRulesAppend(rules[..1], rules[1..], "αι");
    assert rules[..1][..0] == [];
    assert rules[0] == DigraphRules()[0];
    assert MatchAt(rules[0], "αι", 0) == Some(Match(0, 2, ""));
    assert ApplyRules(rules[..1], "αι") == "e";
    LeadsAreGreek();
    forall j, i | 0 <= j < |rules[1..]| && 0 <= i < |"e"| ensures "e"[i] !in rules[1..][j].lead {
      assert rules[1..][j] == rules[j + 1];
    }
    ApplyRulesNoLead(rules[1..], "e");
  }
}
