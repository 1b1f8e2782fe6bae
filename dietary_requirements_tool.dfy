/** agents/tools/dietary_requirements_tool.py: reading an age and a gender out
    of a query, and the text the tool answers with: the full requirements of
    the exact (age group, gender) pair when it has them, otherwise a summary
    of the search hits. */
module DietaryRequirementsTool {
  import opened Wrappers
  import opened Text
  import opened AgePatterns
  import opened ProcessDietaryData
  import opened DietaryVectorStore

  // ----------------------------------------------------------------- age

  /** `int(match.group(1))` for the first match of `p`, if there is one. */
  function PatternAge(p: AgePattern, s: string): (r: Option<int>)
    ensures r.Some? ==> r.value >= 0
  {
    match Search(p, s)
    case Some(g) => Some(DigitsValue(g))
    case None => None
  }

  /** The age each pattern's first match gives, pattern by pattern. */
  function PatternAges(patterns: seq<AgePattern>, s: string): (r: seq<Option<int>>)
    ensures |r| == |patterns|
    ensures forall k :: 0 <= k < |patterns| ==> r[k] == PatternAge(patterns[k], s)
  {
    if patterns == [] then [] else [PatternAge(patterns[0], s)] + PatternAges(patterns[1..], s)
  }

  /** An age in the accepted range, 1 to 120. */
  predicate Accepted(age: Option<int>) {
    age.Some? && 1 <= age.value <= 120
  }

  /** The loop over the patterns: the first age in range, moving on past
      a pattern that does not match or gives an age out of range. */
  function FirstAccepted(ages: seq<Option<int>>): (r: Option<int>)
    ensures r.Some? ==> 1 <= r.value <= 120
  {
    if ages == [] then None
    else if Accepted(ages[0]) then ages[0]
    else FirstAccepted(ages[1..])
  }

  /** The scan gives the first accepted age, and nothing only when no age
      is accepted. */
  lemma {:induction false} FirstAcceptedIsFirst(ages: seq<Option<int>>)
    ensures FirstAccepted(ages).None? <==> forall k :: 0 <= k < |ages| ==> !Accepted(ages[k])
    ensures FirstAccepted(ages).Some? ==> exists k :: (0 <= k < |ages| && Accepted(ages[k])
      && FirstAccepted(ages) == ages[k] && forall j :: 0 <= j < k ==> !Accepted(ages[j]))
  {
    if ages != [] && !Accepted(ages[0]) {
      var rest := ages[1..];
      FirstAcceptedIsFirst(rest);
      assert forall k :: 1 <= k < |ages| ==> ages[k] == rest[k - 1];
      if FirstAccepted(rest).Some? {
        var k :| 0 <= k < |rest| && Accepted(rest[k]) && FirstAccepted(rest) == rest[k]
          && forall j :: 0 <= j < k ==> !Accepted(rest[j]);
        assert ages[k + 1] == rest[k];
        assert forall j :: 0 <= j < k + 1 ==> !Accepted(ages[j]) by {
          forall j | 0 <= j < k + 1
            ensures !Accepted(ages[j])
          {
            if j > 0 {
              assert ages[j] == rest[j - 1];
            }
          }
        }
      }
    }
  }

  /** `_extract_age_from_query`: the five patterns on the lower-cased query. */
  function ExtractAge(query: string): (r: Option<int>)
    ensures r.Some? ==> 1 <= r.value <= 120
  {
    FirstAccepted(PatternAges(AgePatternList, Lower(query)))
  }

  // -------------------------------------------------------------- gender

  /** `_extract_gender_from_query`: the male words are tested first. */
  function ExtractGender(query: string): (r: Option<string>)
    ensures var q := Lower(query);
      r == Some("male") <==> Contains(q, "male") || Contains(q, "man") || Contains(q, "boy")
  {
    var q := Lower(query);
    if Contains(q, "male") || Contains(q, "man") || Contains(q, "boy") then Some("male")
    else if Contains(q, "female") || Contains(q, "woman") || Contains(q, "girl") then Some("female")
    else None
  }

  /** "female" holds "male" and "woman" holds "man". */
  lemma MaleWordsInside(s: string)
    ensures Contains(s, "female") ==> Contains(s, "male")
    ensures Contains(s, "woman") ==> Contains(s, "man")
  {
    if Contains(s, "female") {
      var i :| 0 <= i <= |s| - 6 && OccursAt(s, "female", i);
      assert s[i + 2..i + 6] == s[i..i + 6][2..];
      assert OccursAt(s, "male", i + 2);
    }
    if Contains(s, "woman") {
      var i :| 0 <= i <= |s| - 5 && OccursAt(s, "woman", i);
      assert s[i + 2..i + 5] == s[i..i + 5][2..];
      assert OccursAt(s, "man", i + 2);
    }
  }

  /** As written, a query naming a woman or a female gets "male"; "female"
      comes back only for a query that says "girl" and none of the male
      words. */
  lemma ExtractGenderFemale(query: string)
    ensures var q := Lower(query);
      Contains(q, "female") || Contains(q, "woman") ==> ExtractGender(query) == Some("male")
    ensures var q := Lower(query);
      (ExtractGender(query) == Some("female") <==>
        Contains(q, "girl") && !Contains(q, "male") && !Contains(q, "man") && !Contains(q, "boy"))
    ensures var q := Lower(query);
      (ExtractGender(query) == None <==>
        !Contains(q, "male") && !Contains(q, "man") && !Contains(q, "boy") && !Contains(q, "girl"))
  {
    MaleWordsInside(Lower(query));
  }

  /** A string with no upper-case ASCII letter is its own `lower()`. */
  lemma LowerKeeps(s: string)
    requires forall i :: 0 <= i < |s| ==> !('A' <= s[i] <= 'Z')
    ensures Lower(s) == s
  {
  }

  /** A word whose first letter does not occur in `s` does not occur in `s`. */
  lemma AbsentFirstChar(s: string, w: string)
    requires w != [] && w[0] !in s
    ensures !Contains(s, w)
  {
  }

  /** Where no digit stands, a pattern that opens with `\d+` cannot match, so
      the scan for it moves on. */
  lemma {:induction false} LeftmostSkips(p: AgePattern, s: string, i: nat, k: nat)
    requires p != AgeWord && p != AgedWord
    requires i <= k <= |s|
    requires forall j :: i <= j < k ==> !IsDigit(s[j])
    ensures LeftmostFrom(p, s, i) == LeftmostFrom(p, s, k)
    decreases k - i
  {
    if i < k {
      assert DigitRunEnd(s, i) == i;
      assert MatchAt(p, s, i).None?;
      LeftmostSkips(p, s, i + 1, k);
    }
  }

  /** The worked example: "30-year-old" is read as 30. */
  lemma ExtractAgeExample()
    ensures ExtractAge("requirements for 30-year-old male") == Some(30)
  {
    var q := "requirements for 30-year-old male";
    AgeQueryLower(q);
    YearOldExample(q);
    assert PatternAges(AgePatternList, q)[0] == Some(30);
  }

  lemma AgeQueryLower(q: string)
    requires q == "requirements for 30-year-old male"
    ensures Lower(q) == q
  {
    LowerKeeps(q);
  }

  lemma YearOldExample(q: string)
    requires q == "requirements for 30-year-old male"
    ensures PatternAge(YearOld, q) == Some(30)
  {
    AgeQueryNoEarlyDigit(q);
    LeftmostSkips(YearOld, q, 0, 17);
    AgeQueryMatch(q);
    assert DigitsValue("30") == 30;
  }

  lemma AgeQueryNoEarlyDigit(q: string)
    requires q == "requirements for 30-year-old male"
    ensures |q| == 33
    ensures forall j :: 0 <= j < 17 ==> !IsDigit(q[j])
  {
  }

  lemma AgeQueryMatch(q: string)
    requires q == "requirements for 30-year-old male"
    ensures MatchAt(YearOld, q, 17) == Some("30")
  {
    AgeQueryRun(q);
    assert q[17..19] == "30";
    AgeQueryWords(q);
  }

  lemma AgeQueryRun(q: string)
    requires q == "requirements for 30-year-old male"
    ensures DigitRunEnd(q, 17) == 19
  {
    assert !IsDigit(q[19]);
    assert DigitRunEnd(q, 19) == 19;
  }

  lemma AgeQueryWords(q: string)
    requires q == "requirements for 30-year-old male"
    ensures IsSeparator(q[19]) && OccursAt(q, "year", 20)
    ensures IsSeparator(q[24]) && OccursAt(q, "old", 25)
  {
    assert q[20..24] == "year";
    assert q[25..28] == "old";
  }

  /** As written, a query naming a woman is read as "male". */
  lemma ExtractGenderWomanExample()
    ensures ExtractGender("a 30 year old woman") == Some("male")
  {
    var w := "a 30 year old woman";
    NoUpperWoman(w);
    WomanHasMan(w);
  }

  lemma NoUpperWoman(w: string)
    requires w == "a 30 year old woman"
    ensures Lower(w) == w
  {
    LowerKeeps(w);
  }

  lemma WomanHasMan(w: string)
    requires w == "a 30 year old woman"
    ensures Contains(w, "man")
  {
    assert w[16..19] == "man";
    assert OccursAt(w, "man", 16);
  }

  /** A query naming a girl, and none of the male words, is read as
      "female". */
  lemma ExtractGenderGirlExample()
    ensures ExtractGender("a 12 year old girl") == Some("female")
  {
    var g := "a 12 year old girl";
    GirlLower(g);
    GirlWords(g);
  }

  lemma GirlLower(g: string)
    requires g == "a 12 year old girl"
    ensures Lower(g) == g
  {
    LowerKeeps(g);
  }

  lemma GirlWords(g: string)
    requires g == "a 12 year old girl"
    ensures !Contains(g, "male") && !Contains(g, "man") && !Contains(g, "boy")
    ensures Contains(g, "girl")
  {
    AbsentFirstChar(g, "male");
    AbsentFirstChar(g, "man");
    AbsentFirstChar(g, "boy");
    assert g[14..18] == "girl";
    assert OccursAt(g, "girl", 14);
  }

  // ---------------------------------------------------------------- values

  /** `_format_nutrient_value(value, key)`: like the document builder's,
      but a number is followed by a space and the key's unit whenever the
      key has a `_`, with no stripping. */
  function FormatValue(v: NutrientValue, key: string): string {
    match v
    case Null => "not specified"
    case Conditional(cases) => Join(CaseTexts(cases), ", ")
    case Str(s) => s
    case Amount(n) => if '_' in key then n.shown + " " + UnitOf(key) else n.shown
    case Flag(b) => if '_' in key then BoolText(b) + " " + UnitOf(key) else BoolText(b)
  }

  /** The tool shows a value exactly as the indexed document does, except
      for a number under a key that ends in `_`, where the tool leaves a
      trailing space that the document strips. */
  lemma FormatValueAgreesWithDocument(v: NutrientValue, key: string)
    requires (v.Amount? || v.Flag?) ==> Trimmed(Shown(v))
    requires UnitOf(key) == [] || Trimmed(UnitOf(key))
    ensures ('_' !in key || UnitOf(key) != []) ==> FormatValue(v, key) == FormatNutrientValue(v, UnitOf(key))
    ensures ('_' in key && UnitOf(key) == [] && (v.Amount? || v.Flag?)) ==>
      FormatValue(v, key) == FormatNutrientValue(v, UnitOf(key)) + " "
  {
    if v.Amount? || v.Flag? {
      FormatWithUnit(v, UnitOf(key));
    }
  }

  // -------------------------------------------------------------- response

  /** A key as the tool shows it: `key.replace('_', ' ').title()`. */
  function TitledKey(key: string): string {
    Title(DisplayKey(key))
  }

  /** The line of one entry: "  - ", the titled key, ": " and the value as
      the tool formats it. */
  function EntryLine(key: string, v: NutrientValue): string {
    "  - " + TitledKey(key) + ": " + FormatValue(v, key)
  }

  /** The lines of one group in the exact-match answer. */
  function EntryLines(d: NutrientDict): (r: seq<string>)
    ensures |r| == |d|
    ensures forall k :: 0 <= k < |d| ==> r[k] == EntryLine(d[k].0, d[k].1)
  {
    if d == [] then []
    else EntryLines(d[..|d| - 1]) + [EntryLine(d[|d| - 1].0, d[|d| - 1].1)]
  }

  /** One group of the exact-match answer: nothing for an empty group,
      else its heading and one line per entry. */
  function Section(heading: string, d: NutrientDict): (r: seq<string>)
    ensures d == [] <==> r == []
    ensures d != [] ==> |r| == |d| + 1 && r[0] == heading
    ensures forall k :: 0 <= k < |d| ==> r[k + 1] == EntryLine(d[k].0, d[k].1)
  {
    if d == [] then [] else [heading] + EntryLines(d)
  }

  /** How many parts a group adds to the exact-match answer. */
  function SectionSize(d: NutrientDict): nat {
    if d == [] then 0 else |d| + 1
  }

  /** The first line of the exact-match answer: its title, then the age
      group in parentheses. */
  function ExactHeader(gender: string, age: int, ageGroup: string): string {
    ExactTitle(gender, age) + AgeGroupTag(ageGroup) + "\n"
  }

  function ExactTitle(gender: string, age: int): string {
    "Dietary Requirements for " + (Capitalize(gender) + ", Age " + IntToString(age) + " ")
  }

  function AgeGroupTag(ageGroup: string): string {
    "(Age Group: " + ageGroup + ")"
  }

  /** The parts of the exact-match answer, joined by newlines. */
  function ExactParts(gender: string, age: int, req: Requirements): (r: seq<string>)
    ensures |r| == 1 + SectionSize(req.minerals) + SectionSize(req.vitamins) + SectionSize(req.nutrition)
    ensures r[0] == ExactHeader(gender, age, req.ageGroup)
  {
    [ExactHeader(gender, age, req.ageGroup)]
      + Section("\nMINERALS:", req.minerals)
      + Section("\nVITAMINS:", req.vitamins)
      + Section("\nNUTRITION (Macronutrients):", req.nutrition)
  }

  /** After the header come the minerals, the vitamins and the nutrition
      sections, in that order, each one empty when its group is. */
  lemma ExactPartsLayout(gender: string, age: int, req: Requirements)
    ensures ExactParts(gender, age, req)[1..1 + SectionSize(req.minerals)]
      == Section("\nMINERALS:", req.minerals)
    ensures ExactParts(gender, age, req)[1 + SectionSize(req.minerals)
      ..1 + SectionSize(req.minerals) + SectionSize(req.vitamins)]
      == Section("\nVITAMINS:", req.vitamins)
    ensures ExactParts(gender, age, req)[1 + SectionSize(req.minerals) + SectionSize(req.vitamins)..]
      == Section("\nNUTRITION (Macronutrients):", req.nutrition)
  {
    Concat4Slices([ExactHeader(gender, age, req.ageGroup)],
      Section("\nMINERALS:", req.minerals),
      Section("\nVITAMINS:", req.vitamins),
      Section("\nNUTRITION (Macronutrients):", req.nutrition));
  }

  /** Where `b`, `c` and `d` sit in `a + b + c + d`. */
  lemma Concat4Slices<T>(a: seq<T>, b: seq<T>, c: seq<T>, d: seq<T>)
    ensures (a + b + c + d)[|a|..|a| + |b|] == b
    ensures (a + b + c + d)[|a| + |b|..|a| + |b| + |c|] == c
    ensures (a + b + c + d)[|a| + |b| + |c|..] == d
  {
    var r := a + b + c + d;
    assert r == a + b + (c + d);
    assert r[|a| + |b|..] == c + d;
  }

  function NoRequirementsMessage(query: string): string {
    "No dietary requirements found for '" + query
      + "'. Try specifying age and gender (e.g., 'requirements for 30-year-old male')."
  }

  function ErrorMessage(message: string): string {
    "Error looking up dietary requirements: " + message
  }

  /** Every key of `d`, titled, in order. */
  function TitledKeys(d: NutrientDict): (r: seq<string>)
    ensures |r| == |d|
    ensures forall i :: 0 <= i < |d| ==> r[i] == TitledKey(d[i].0)
  {
    if d == [] then [] else [TitledKey(d[0].0)] + TitledKeys(d[1..])
  }

  /** The first line of hit number `i`. */
  function HitHead(i: nat, gender: string, ageGroup: string): string {
    HitNumber(i) + (Capitalize(gender) + ", Age Group: " + ageGroup)
  }

  function HitNumber(i: nat): string {
    "\n" + NatToString(i) + ". "
  }

  /** A heading and the first three keys of a group, titled. */
  function KeyLine(heading: string, d: NutrientDict): (r: string)
    ensures r == heading + Join(TitledKeys(d[..if |d| < 3 then |d| else 3]), ", ")
  {
    var n := if |d| < 3 then |d| else 3;
    assert Take(TitledKeys(d), 3) == TitledKeys(d[..n]);
    heading + Join(Take(TitledKeys(d), 3), ", ")
  }

  /** The key lines of a hit whose pair the store has: a minerals line iff
      there are minerals, then a vitamins line iff there are vitamins. */
  function KeyLines(full: Requirements): (r: seq<string>)
    ensures |r| == (if full.minerals != [] then 1 else 0) + (if full.vitamins != [] then 1 else 0)
    ensures full.minerals != [] ==> r[0] == KeyLine("   Key Minerals: ", full.minerals)
    ensures full.vitamins != [] ==> r[|r| - 1] == KeyLine("   Key Vitamins: ", full.vitamins)
  {
    (if full.minerals != [] then [KeyLine("   Key Minerals: ", full.minerals)] else [])
    + (if full.vitamins != [] then [KeyLine("   Key Vitamins: ", full.vitamins)] else [])
  }

  /** The summary lines of one search hit, numbered `i`: its gender and age
      group and, when the store has the pair, the first three mineral keys
      and the first three vitamin keys. */
  function HitParts(i: nat, hit: Hit, c: Cache): seq<string> {
    var ageGroup := Get(hit.metadata, "age_group", "Unknown");
    var gender := Get(hit.metadata, "gender", "Unknown");
    [HitHead(i, gender, ageGroup)] + FoundKeyLines(Lookup(c, ageGroup, gender))
  }

  /** The key lines, when the store has the pair. */
  function FoundKeyLines(full: Option<Requirements>): (r: seq<string>)
    ensures full.None? ==> r == []
    ensures full.Some? ==>
      |r| == (if full.value.minerals != [] then 1 else 0) + (if full.value.vitamins != [] then 1 else 0)
    ensures full.Some? && full.value.minerals != [] ==>
      r[0] == KeyLine("   Key Minerals: ", full.value.minerals)
    ensures full.Some? && full.value.vitamins != [] ==>
      r[|r| - 1] == KeyLine("   Key Vitamins: ", full.value.vitamins)
  {
    if full.Some? then KeyLines(full.value) else []
  }

  /** The summary lines of the hits, numbered from 1. */
  function HitsParts(hits: seq<Hit>, c: Cache): seq<string> {
    if hits == [] then [] else HitsParts(hits[..|hits| - 1], c) + HitParts(|hits|, hits[|hits| - 1], c)
  }

  /** The answer built from the search hits, when there is no exact match. */
  function HitsText(query: string, hits: seq<Hit>, c: Cache): string {
    if hits == [] then NoRequirementsMessage(query)
    else Join([FoundHeader(|hits|, query)] + HitsParts(hits, c), "\n")
  }

  /** The age and gender used: the one given, else the one read from the
      query. */
  function ResolvedAge(query: string, age: Option<int>): Option<int> {
    if age.Some? then age else ExtractAge(query)
  }

  function ResolvedGender(query: string, gender: Option<string>): Option<string> {
    if gender.Some? then gender else ExtractGender(query)
  }

  /** `if age and gender`: both present and truthy. */
  predicate BothKnown(age: Option<int>, gender: Option<string>) {
    age.Some? && age.value != 0 && gender.Some? && gender.value != ""
  }

  /** The exact match, when both are known and the store has the pair. */
  function ExactMatch(age: Option<int>, gender: Option<string>, c: Cache): (r: Option<Requirements>)
    ensures r.Some? ==> BothKnown(age, gender)
  {
    if BothKnown(age, gender) then Lookup(c, AgeGroup(age.value), gender.value) else None
  }

  /** The answer for a resolved age and gender and what the search gave. */
  function Answer(query: string, age: Option<int>, gender: Option<string>, outcome: Outcome<seq<Hit>>, c: Cache): string {
    match outcome
    case Raised(e) => ErrorMessage(e)
    case Returned(hits) =>
      var exact := ExactMatch(age, gender, c);
      if exact.Some? then Join(ExactParts(gender.value, age.value, exact.value), "\n")
      else HitsText(query, hits, c)
  }

  /** What `execute` answers, given the search and the cache its lookups
      read. */
  function Response(query: string, ageHint: Option<int>, genderHint: Option<string>, maxResults: int,
                    search: (string, int) -> Outcome<seq<Hit>>, c: Cache): string
  {
    Answer(query, ResolvedAge(query, ageHint), ResolvedGender(query, genderHint), search(query, Clamp(maxResults, 1, 10)), c)
  }

  // ------------------------------------------------------------ properties

  /** When the age and gender are both known and the store has their pair,
      the answer is the full requirements of that pair, whatever the search
      found: it opens with "Dietary Requirements for" and names the age
      group. */
  lemma ExactMatchFirst(query: string, age: Option<int>, gender: Option<string>, hits: seq<Hit>, c: Cache)
    requires ExactMatch(age, gender, c).Some?
    ensures Answer(query, age, gender, Returned(hits), c)
      == Join(ExactParts(gender.value, age.value, Lookup(c, AgeGroup(age.value), gender.value).value), "\n")
    ensures StartsWith(Answer(query, age, gender, Returned(hits), c), "Dietary Requirements for ")
    ensures Contains(Answer(query, age, gender, Returned(hits), c), "(Age Group: " + AgeGroup(age.value) + ")")
  {
    var req := Lookup(c, AgeGroup(age.value), gender.value).value;
    var parts := ExactParts(gender.value, age.value, req);
    var header := ExactHeader(gender.value, age.value, req.ageGroup);
    var title := ExactTitle(gender.value, age.value);
    var rest := Capitalize(gender.value) + ", Age " + IntToString(age.value) + " ";
    var tag := AgeGroupTag(req.ageGroup);
    JoinStartsWith(parts, "\n");
    Framed(title, tag, "\n");
    Framed("Dietary Requirements for ", rest, "");
    assert title == "Dietary Requirements for " + rest + "";
    StartsWithTransitive(header, title, "Dietary Requirements for ");
    StartsWithTransitive(Join(parts, "\n"), header, "Dietary Requirements for ");
    ContainsInPrefix(Join(parts, "\n"), header, tag);
  }

  /** Given an age and a gender outright, the query text is not read for
      them: with an exact match, any two queries get the same answer. */
  lemma GivenHintsWin(q1: string, q2: string, age: int, gender: string, m1: int, m2: int,
                      s1: (string, int) -> Outcome<seq<Hit>>, s2: (string, int) -> Outcome<seq<Hit>>, c: Cache)
    requires age != 0 && gender != "" && Lookup(c, AgeGroup(age), gender).Some?
    requires s1(q1, Clamp(m1, 1, 10)).Returned? && s2(q2, Clamp(m2, 1, 10)).Returned?
    ensures Response(q1, Some(age), Some(gender), m1, s1, c) == Response(q2, Some(age), Some(gender), m2, s2, c)
  {
    ExactMatchFirst(q1, Some(age), Some(gender), s1(q1, Clamp(m1, 1, 10)).value, c);
    ExactMatchFirst(q2, Some(age), Some(gender), s2(q2, Clamp(m2, 1, 10)).value, c);
  }

  /** Without an exact match, an empty search gives the fixed message. */
  lemma NoHitsMessage(query: string, age: Option<int>, gender: Option<string>, c: Cache)
    requires ExactMatch(age, gender, c).None?
    ensures Answer(query, age, gender, Returned([]), c) == NoRequirementsMessage(query)
  {
  }

  /** Without an exact match, hits give a numbered list under a "Found n
      result(s)" header. */
  lemma HitsListed(query: string, age: Option<int>, gender: Option<string>, hits: seq<Hit>, c: Cache)
    requires ExactMatch(age, gender, c).None? && hits != []
    ensures StartsWith(Answer(query, age, gender, Returned(hits), c), FoundHeader(|hits|, query))
  {
    JoinStartsWith([FoundHeader(|hits|, query)] + HitsParts(hits, c), "\n");
  }

  /** An exception from the search ends the call with the error message,
      even when an exact match was found. */
  lemma SearchErrorWins(query: string, age: Option<int>, gender: Option<string>, message: string, c: Cache)
    ensures StartsWith(Answer(query, age, gender, Raised(message), c), "Error looking up dietary requirements: ")
  {
    Framed("Error looking up dietary requirements: ", message, "");
    assert ErrorMessage(message) == "Error looking up dietary requirements: " + message + "";
  }

  /** Each hit gives one to three lines, the first opening with its
      number and the key lines there only when the store has the pair. */
  lemma HitPartsShape(i: nat, hit: Hit, c: Cache)
    ensures 1 <= |HitParts(i, hit, c)| <= 3
    ensures StartsWith(HitParts(i, hit, c)[0], "\n" + NatToString(i) + ". ")
    ensures var ageGroup := Get(hit.metadata, "age_group", "Unknown");
      var gender := Get(hit.metadata, "gender", "Unknown");
      |HitParts(i, hit, c)| > 1 ==> HasData(c.minerals, c.vitamins, c.nutrition, ageGroup, gender)
  {
    var gender := Get(hit.metadata, "gender", "Unknown");
    var ageGroup := Get(hit.metadata, "age_group", "Unknown");
    var rest := Capitalize(gender) + ", Age Group: " + ageGroup;
    Framed(HitNumber(i), rest, "");
    assert HitNumber(i) + rest + "" == HitHead(i, gender, ageGroup);
  }

  /** Numbering the hits one more at a time. */
  lemma HitsPartsSnoc(hits: seq<Hit>, i: nat, c: Cache)
    requires i < |hits|
    ensures HitsParts(hits[..i + 1], c) == HitsParts(hits[..i], c) + HitParts(i + 1, hits[i], c)
  {
    assert hits[..i + 1][..i] == hits[..i];
  }

  // ----------------------------------------------------------------- tool

  /** The tool, holding the store it looks requirements up in. */
  class DietaryRequirementsTool {
    const store: DietaryStore

    constructor(store: DietaryStore)
      ensures this.store == store
    {
      this.store := store;
    }

    /** One group of the exact-match answer. */
    static method FormatSection(heading: string, d: NutrientDict) returns (parts: seq<string>)
      ensures parts == Section(heading, d)
    {
      if d == [] {
        return [];
      }
      parts := [heading];
      var i := 0;
      while i < |d|
        invariant 0 <= i <= |d|
        invariant parts == [heading] + EntryLines(d[..i])
      {
        var key := d[i].0;
        var formatted := FormatValue(d[i].1, key);
        var name := Title(Replace(key, '_', ' '));
        parts := parts + ["  - " + name + ": " + formatted];
        assert d[..i + 1][..i] == d[..i];
        i := i + 1;
      }
      assert d[..i] == d;
    }

    /** `execute`: the search is run whether or not there is an exact
        match, and its exception ends the call. */
    method Execute(query: string, age: Option<int>, gender: Option<string>, maxResults: int)
      returns (response: string)
      modifies store
      ensures response == Response(query, age, gender, maxResults, store.search, old(store.LoadedCache()))
      ensures store.cache == old(store.cache) || store.cache == Some(old(store.LoadedCache()))
    {
      ghost var c := store.LoadedCache();
      var n := Clamp(maxResults, 1, 10);
      var a := age;
      if a.None? {
        a := ExtractAge(query);
      }
      var g := gender;
      if g.None? {
        g := ExtractGender(query);
      }
      assert a == ResolvedAge(query, age) && g == ResolvedGender(query, gender);
      var exact := LookupExact(a, g);
      var results := store.search(query, n);
      assert Response(query, age, gender, maxResults, store.search, c) == Answer(query, a, g, results, c);
      if results.Raised? {
        return ErrorMessage(results.message);
      }
      if exact.Some? {
        response := FormatExact(g.value, a.value, exact.value);
        return;
      }
      response := SummariseHits(query, results.value);
    }

    /** The exact match: looked up only when the age and the gender are both
        known. */
    method LookupExact(age: Option<int>, gender: Option<string>) returns (exact: Option<Requirements>)
      modifies store
      ensures exact == ExactMatch(age, gender, old(store.LoadedCache()))
      ensures store.LoadedCache() == old(store.LoadedCache())
      ensures store.cache == old(store.cache) || store.cache == Some(old(store.LoadedCache()))
    {
      exact := None;
      if age.Some? && age.value != 0 && gender.Some? && gender.value != "" {
        exact := store.GetRequirementsByKey(AgeGroup(age.value), gender.value);
      }
    }

    /** The exact-match answer. */
    static method FormatExact(gender: string, age: int, req: Requirements) returns (response: string)
      ensures response == Join(ExactParts(gender, age, req), "\n")
    {
      var parts := [ExactHeader(gender, age, req.ageGroup)];
      var minerals := FormatSection("\nMINERALS:", req.minerals);
      var vitamins := FormatSection("\nVITAMINS:", req.vitamins);
      var nutrition := FormatSection("\nNUTRITION (Macronutrients):", req.nutrition);
      parts := parts + minerals + vitamins + nutrition;
      response := Join(parts, "\n");
    }

    /** The answer from the hits: the fixed message when there are none,
        else the numbered summary, each hit looked up in the store. */
    method SummariseHits(query: string, hits: seq<Hit>) returns (response: string)
      modifies store
      ensures response == HitsText(query, hits, old(store.LoadedCache()))
      ensures store.cache == old(store.cache) || store.cache == Some(old(store.LoadedCache()))
    {
      if hits == [] {
        return NoRequirementsMessage(query);
      }
      var parts := SummaryLines(hits);
      response := Join([FoundHeader(|hits|, query)] + parts, "\n");
    }

    /** The loop over the hits, numbering them from 1. */
    method SummaryLines(hits: seq<Hit>) returns (parts: seq<string>)
      modifies store
      ensures parts == HitsParts(hits, old(store.LoadedCache()))
      ensures store.cache == old(store.cache) || store.cache == Some(old(store.LoadedCache()))
    {
      ghost var c := store.LoadedCache();
      parts := [];
      var i := 0;
      while i < |hits|
        invariant 0 <= i <= |hits|
        invariant store.LoadedCache() == c
        invariant store.cache == old(store.cache) || store.cache == Some(c)
        invariant parts == HitsParts(hits[..i], c)
      {
        var more := SummariseHit(i + 1, hits[i]);
        HitsPartsSnoc(hits, i, c);
        parts := parts + more;
        i := i + 1;
      }
      assert hits[..i] == hits;
    }

    /** The lines of hit number `i`. */
    method SummariseHit(i: nat, hit: Hit) returns (more: seq<string>)
      modifies store
      ensures more == HitParts(i, hit, old(store.LoadedCache()))
      ensures store.cache == Some(old(store.LoadedCache()))
    {
      ghost var c := store.LoadedCache();
      var ageGroup := Get(hit.metadata, "age_group", "Unknown");
      var gender := Get(hit.metadata, "gender", "Unknown");
      var full := store.GetRequirementsByKey(ageGroup, gender);
      assert full == Lookup(c, ageGroup, gender);
      var keyLines := [];
      if full.Some? {
        if full.value.minerals != [] {
          keyLines := keyLines + [KeyLine("   Key Minerals: ", full.value.minerals)];
        }
        if full.value.vitamins != [] {
          keyLines := keyLines + [KeyLine("   Key Vitamins: ", full.value.vitamins)];
        }
      }
      assert keyLines == FoundKeyLines(full);
      more := [HitHead(i, gender, ageGroup)] + keyLines;
    }
  }
}
