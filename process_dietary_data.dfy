/** data/process_dietary_data.py: age buckets, and the merge of the mineral,
    vitamin and nutrition tables (each `age_group -> gender -> {key: value}`)
    into one indexed document per (age group, gender) pair. */
module ProcessDietaryData {
  import opened Wrappers
  import opened Text
  import opened Sorting

  // ---------------------------------------------------------------- ages

  datatype UpperBound = AtMost(age: int) | Unbounded

  /** One row of the bucket table: inclusive bounds and the name. */
  datatype AgeRange = AgeRange(low: int, high: UpperBound, name: string)

  predicate InRange(r: AgeRange, age: int) {
    r.low <= age && (r.high.Unbounded? || age <= r.high.age)
  }

  /** The nine buckets, in the order `get_age_group` tries them; the last one
      has no upper bound (`float('inf')`). */
  const AgeRanges: seq<AgeRange> := [
    AgeRange(1, AtMost(1), "1"),
    AgeRange(2, AtMost(3), "2-3"),
    AgeRange(4, AtMost(6), "4-6"),
    AgeRange(7, AtMost(10), "7-10"),
    AgeRange(11, AtMost(14), "11-14"),
    AgeRange(15, AtMost(18), "15-18"),
    AgeRange(19, AtMost(64), "19-64"),
    AgeRange(65, AtMost(74), "65-74"),
    AgeRange(75, Unbounded, "75+")
  ]

  /** What `get_age_group` returns when no range holds the age. */
  const FallbackAgeGroup := "75+"

  /** The index of the first range in `ranges` that holds `age`. */
  function FirstContaining(ranges: seq<AgeRange>, age: int): (r: Option<nat>)
    ensures r.Some? ==> r.value < |ranges| && InRange(ranges[r.value], age)
    ensures r.Some? ==> forall j :: 0 <= j < r.value ==> !InRange(ranges[j], age)
    ensures r.None? ==> forall j :: 0 <= j < |ranges| ==> !InRange(ranges[j], age)
  {
    if ranges == [] then None
    else if InRange(ranges[0], age) then Some(0)
    else match FirstContaining(ranges[1..], age)
      case None => None
      case Some(k) => Some(k + 1)
  }

  /** `get_age_group(age)`: the name of the bucket that holds `age`; ages
      below 1 fall through every range and get the fallback "75+". */
  function AgeGroup(age: int): (name: string)
    ensures name in {"1", "2-3", "4-6", "7-10", "11-14", "15-18", "19-64", "65-74", "75+"}
    ensures forall k :: 0 <= k < |AgeRanges| && InRange(AgeRanges[k], age) ==> name == AgeRanges[k].name
    ensures age < 1 ==> name == FallbackAgeGroup
  {
    match FirstContaining(AgeRanges, age)
    case Some(k) => AgeRanges[k].name
    case None => FallbackAgeGroup
  }

  /** The nine ranges partition the ages from 1 up: every such age lies in
      exactly one of them, and no age below 1 lies in any. */
  lemma AgeRangesPartition(age: int)
    ensures age >= 1 ==> exists k :: 0 <= k < |AgeRanges| && InRange(AgeRanges[k], age)
    ensures forall j, k :: 0 <= j < k < |AgeRanges| ==> !(InRange(AgeRanges[j], age) && InRange(AgeRanges[k], age))
    ensures age < 1 ==> forall k :: 0 <= k < |AgeRanges| ==> !InRange(AgeRanges[k], age)
  {
    if age >= 1 {
      var k := if age < 2 then 0 else if age < 4 then 1 else if age < 7 then 2
        else if age < 11 then 3 else if age < 15 then 4 else if age < 19 then 5
        else if age < 65 then 6 else if age < 75 then 7 else 8;
      assert InRange(AgeRanges[k], age);
    }
  }

  lemma AgeGroupExamples()
    ensures AgeGroup(1) == "1" && AgeGroup(5) == "4-6" && AgeGroup(23) == "19-64"
    ensures AgeGroup(74) == "65-74" && AgeGroup(80) == "75+" && AgeGroup(0) == "75+"
  {
    assert InRange(AgeRanges[0], 1);
    assert InRange(AgeRanges[2], 5);
    assert InRange(AgeRanges[6], 23);
    assert InRange(AgeRanges[7], 74);
    assert InRange(AgeRanges[8], 80);
  }

  // -------------------------------------------------------------- values

  /** A JSON number: its value, and the text `str()` gives for it. */
  datatype Number = Number(value: real, shown: string)

  /** A value inside a condition-dependent requirement. */
  datatype Scalar = NullScalar | StrScalar(s: string) | NumScalar(n: Number) | BoolScalar(b: bool)

  /** One requirement as it stands in the JSON tables: `null`, a mapping from
      condition to amount (iron for females 19-64), a range string
      ("3.0-5.0"), a number or a boolean. */
  datatype NutrientValue =
    | Null
    | Conditional(cases: seq<(string, Scalar)>)
    | Str(s: string)
    | Amount(n: Number)
    | Flag(b: bool)

  /** A JSON object `{nutrient_key: value}`, in file order. */
  type NutrientDict = seq<(string, NutrientValue)>

  /** One parsed requirements file: `age_group -> gender -> NutrientDict`. */
  type Table = map<string, map<string, NutrientDict>>

  function BoolText(b: bool): string {
    if b then "True" else "False"
  }

  /** `str(v)` for a scalar. */
  function ScalarText(v: Scalar): string {
    match v
    case NullScalar => "None"
    case StrScalar(s) => s
    case NumScalar(n) => n.shown
    case BoolScalar(b) => BoolText(b)
  }

  /** The `"k: v"` parts of a condition-dependent value, in order. */
  function CaseTexts(cases: seq<(string, Scalar)>): (r: seq<string>)
    ensures |r| == |cases|
    ensures forall i :: 0 <= i < |cases| ==> r[i] == cases[i].0 + ": " + ScalarText(cases[i].1)
  {
    if cases == [] then []
    else [cases[0].0 + ": " + ScalarText(cases[0].1)] + CaseTexts(cases[1..])
  }

  /** `format_nutrient_value(value, unit)`. */
  function FormatNutrientValue(v: NutrientValue, unit: string): string {
    match v
    case Null => "not specified"
    case Conditional(cases) => Join(CaseTexts(cases), ", ")
    case Str(s) => s
    case Amount(n) => Strip(n.shown + " " + unit)
    case Flag(b) => Strip(BoolText(b) + " " + unit)
  }

  /** The dispatch on the kind of value: `None` reads "not specified", a
      string is shown as it is, and a condition-dependent value shows each
      case as "k: v", the cases in order and separated by ", ". */
  lemma FormatNutrientValueKinds(v: NutrientValue, unit: string)
    ensures v.Null? ==> FormatNutrientValue(v, unit) == "not specified"
    ensures v.Str? ==> FormatNutrientValue(v, unit) == v.s
    ensures v.Conditional? && |v.cases| == 1 ==>
      FormatNutrientValue(v, unit) == v.cases[0].0 + ": " + ScalarText(v.cases[0].1)
    ensures v.Conditional? && |v.cases| > 1 ==>
      StartsWith(FormatNutrientValue(v, unit), v.cases[0].0 + ": " + ScalarText(v.cases[0].1) + ", ")
  {
    if v.Conditional? && |v.cases| > 1 {
      var parts := CaseTexts(v.cases);
      var first := v.cases[0].0 + ": " + ScalarText(v.cases[0].1);
      var rest := Join(parts[1..], ", ");
      assert Join(parts, ", ") == first + ", " + rest;
      Framed(first + ", ", rest, "");
      assert first + ", " + rest == (first + ", ") + rest + "";
    }
  }

  /** No surrounding whitespace (true of `str()` of every number). */
  predicate Trimmed(s: string) {
    s != [] && !IsSpace(s[0]) && !IsSpace(s[|s| - 1])
  }

  /** `str()` of a number or a boolean. */
  function Shown(v: NutrientValue): string
    requires v.Amount? || v.Flag?
  {
    if v.Amount? then v.n.shown else BoolText(v.b)
  }

  /** A number (or boolean) is shown with its unit after one space; with an
      empty unit the stripped text has no trailing space. */
  lemma FormatWithUnit(v: NutrientValue, unit: string)
    requires v.Amount? || v.Flag?
    requires Trimmed(Shown(v))
    requires unit == [] || Trimmed(unit)
    ensures FormatNutrientValue(v, unit) == if unit == [] then Shown(v) else Shown(v) + " " + unit
  {
    var shown := Shown(v);
    if unit == [] {
      assert shown + " " + unit == "" + shown + " ";
      StripSurrounded("", shown, " ");
    } else {
      var t := shown + " " + unit;
      assert t == "" + t + "";
      StripSurrounded("", t, "");
    }
  }

  /** The unit inferred from a nutrient key: the part after its last `_`
      ("iron_mg" gives "mg"), or "" when the key has no `_`. */
  function UnitOf(key: string): (unit: string)
    ensures '_' !in unit
    ensures '_' !in key ==> unit == ""
    ensures '_' in key ==> |unit| < |key| && key == key[..|key| - |unit| - 1] + "_" + unit
  {
    if '_' in key then
      var u := AfterLast(key, '_');
      assert key == key[..|key| - |u| - 1] + [key[|key| - |u| - 1]] + key[|key| - |u|..];
      u
    else ""
  }

  /** The unit is exactly what follows the last `_`: for a key written
      `base_unit` with no `_` in `unit`, it is `unit`. */
  lemma UnitOfSuffix(base: string, unit: string)
    requires '_' !in unit
    ensures UnitOf(base + "_" + unit) == unit
  {
    var key := base + "_" + unit;
    var u := UnitOf(key);
    assert key[|key| - |unit| - 1] == '_';
    assert key[|key| - |unit|..] == unit;
  }

  /** The key as shown: every `_` replaced by a space. */
  function DisplayKey(key: string): (r: string)
    ensures |r| == |key| && '_' !in r
    ensures forall i :: 0 <= i < |key| && key[i] != '_' ==> r[i] == key[i]
  {
    Replace(key, '_', ' ')
  }

  /** One entry of the document text: "iron mg: 8 mg". */
  function DocumentLine(entry: (string, NutrientValue)): string {
    DisplayKey(entry.0) + ": " + FormatNutrientValue(entry.1, UnitOf(entry.0))
  }

  /** A numeric requirement under a key `base_unit` reads "base unit: N unit". */
  lemma AmountLine(base: string, unit: string, n: Number)
    requires '_' !in unit && Trimmed(n.shown) && (unit == [] || Trimmed(unit))
    ensures DocumentLine((base + "_" + unit, Amount(n)))
         == DisplayKey(base + "_" + unit) + ": " + (if unit == [] then n.shown else n.shown + " " + unit)
  {
    KeyedLine(base, unit, Amount(n));
    FormatWithUnit(Amount(n), unit);
  }

  /** Under a key `base_unit`, a value is formatted with the unit `unit`. */
  lemma KeyedLine(base: string, unit: string, v: NutrientValue)
    requires '_' !in unit
    ensures DocumentLine((base + "_" + unit, v)) == DisplayKey(base + "_" + unit) + ": " + FormatNutrientValue(v, unit)
  {
    UnitOfSuffix(base, unit);
  }

  /** The entries of one group as text, in dictionary order. */
  function GroupText(d: NutrientDict): (r: seq<string>)
    ensures |r| == |d|
  {
    if d == [] then [] else GroupText(d[..|d| - 1]) + [DocumentLine(d[|d| - 1])]
  }

  lemma {:induction false} GroupTextAt(d: NutrientDict, k: nat)
    requires k < |d|
    ensures GroupText(d)[k] == DocumentLine(d[k])
  {
    if k < |d| - 1 {
      GroupTextAt(d[..|d| - 1], k);
    }
  }

  /** The loop of `create_unified_document` over one group. */
  method GroupLines(d: NutrientDict) returns (lines: seq<string>)
    ensures lines == GroupText(d)
  {
    lines := [];
    var i := 0;
    while i < |d|
      invariant 0 <= i <= |d|
      invariant lines == GroupText(d[..i])
    {
      var key := d[i].0;
      var unit := UnitOf(key);
      lines := lines + [DisplayKey(key) + ": " + FormatNutrientValue(d[i].1, unit)];
      assert d[..i + 1][..i] == d[..i];
      i := i + 1;
    }
    assert d[..i] == d;
  }

  // ----------------------------------------------------------- documents

  const DatasetType := "unified_dietary_requirements"

  datatype DietaryMetadata = DietaryMetadata(ageGroup: string, gender: string, datasetType: string)

  /** The full requirements of one (age group, gender) pair: the document's
      `full_data`, and what the store's keyed lookup returns. */
  datatype Requirements = Requirements(
    ageGroup: string, gender: string,
    minerals: NutrientDict, vitamins: NutrientDict, nutrition: NutrientDict)

  datatype DietaryDocument = DietaryDocument(
    id: string, text: string, metadata: DietaryMetadata, fullData: Requirements)

  function DocumentId(ageGroup: string, gender: string): string {
    "dietary_" + ageGroup + "_" + gender
  }

  /** The first two lines of the template. */
  function DocumentHead(ageGroup: string, gender: string): string {
    "Age group: " + ageGroup + "\n    Gender: " + gender
  }

  /** The rest of the template: one line per group, each after a blank line. */
  function DocumentGroups(mineralText: seq<string>, vitaminText: seq<string>, nutritionText: seq<string>): string {
    "\n    \n    Minerals: " + Join(mineralText, ", ")
    + "\n    \n    Vitamins: " + Join(vitaminText, ", ")
    + "\n    \n    Nutrition (Macronutrients): " + Join(nutritionText, ", ")
    + "\n    "
  }

  /** The searchable text: the indented template, stripped. */
  function DocumentText(ageGroup: string, gender: string,
                        mineralText: seq<string>, vitaminText: seq<string>, nutritionText: seq<string>): string
  {
    Strip("\n    " + (DocumentHead(ageGroup, gender) + DocumentGroups(mineralText, vitaminText, nutritionText)))
  }

  /** The text opens with the pair it describes. */
  lemma DocumentTextStart(ageGroup: string, gender: string,
                          mineralText: seq<string>, vitaminText: seq<string>, nutritionText: seq<string>)
    ensures StartsWith(DocumentText(ageGroup, gender, mineralText, vitaminText, nutritionText),
                       "Age group: " + ageGroup + "\n    Gender: " + gender)
  {
    var head := DocumentHead(ageGroup, gender);
    var groups := DocumentGroups(mineralText, vitaminText, nutritionText);
    assert head + groups != [] && !IsSpace((head + groups)[0]) by {
      assert head[0] == 'A';
    }
    assert 10 < |groups| && !IsSpace(groups[10]) by {
      GroupsLabel(mineralText, vitaminText, nutritionText);
    }
    assert DocumentText(ageGroup, gender, mineralText, vitaminText, nutritionText) == TrimRight(head + groups) by {
      StripAfterIndent("\n    ", head + groups);
    }
    TrimRightKeepsHead(head, groups, 10);
  }

  /** `rstrip` of `head + rest` keeps `head` whole when `rest` has a
      non-space at index `k`. */
  lemma TrimRightKeepsHead(head: string, rest: string, k: nat)
    requires k < |rest| && !IsSpace(rest[k])
    ensures StartsWith(TrimRight(head + rest), head)
  {
    var body := head + rest;
    assert body[|head| + k] == rest[k];
    TrimRightKeeps(body, |head| + k);
    var r := TrimRight(body);
    assert r[..|head|] == body[..|head|];
    assert body[..|head|] == head;
  }

  /** Ten characters into the groups part stands the "M" of "Minerals". */
  lemma GroupsLabel(mineralText: seq<string>, vitaminText: seq<string>, nutritionText: seq<string>)
    ensures |DocumentGroups(mineralText, vitaminText, nutritionText)| > 10
    ensures DocumentGroups(mineralText, vitaminText, nutritionText)[10] == 'M'
  {
  }

  /** What `create_unified_document` returns. */
  function UnifiedDocument(ageGroup: string, gender: string,
                           minerals: NutrientDict, vitamins: NutrientDict, nutrition: NutrientDict): DietaryDocument
  {
    DietaryDocument(
      DocumentId(ageGroup, gender),
      DocumentText(ageGroup, gender, GroupText(minerals), GroupText(vitamins), GroupText(nutrition)),
      DietaryMetadata(ageGroup, gender, DatasetType),
      Requirements(ageGroup, gender, minerals, vitamins, nutrition))
  }

  /** `create_unified_document`: three loops, one per group, then the template. */
  method CreateUnifiedDocument(ageGroup: string, gender: string,
                               minerals: NutrientDict, vitamins: NutrientDict, nutrition: NutrientDict)
    returns (doc: DietaryDocument)
    ensures doc == UnifiedDocument(ageGroup, gender, minerals, vitamins, nutrition)
  {
    var mineralText := GroupLines(minerals);
    var vitaminText := GroupLines(vitamins);
    var nutritionText := GroupLines(nutrition);
    doc := DietaryDocument(
      "dietary_" + ageGroup + "_" + gender,
      DocumentText(ageGroup, gender, mineralText, vitaminText, nutritionText),
      DietaryMetadata(ageGroup, gender, DatasetType),
      Requirements(ageGroup, gender, minerals, vitamins, nutrition));
  }

  // --------------------------------------------------------- all tables

  /** The genders visited for each age group, in this order. */
  const Genders: seq<string> := ["male", "female"]

  /** `table.get(age_group, {}).get(gender, {})`. */
  function Group(t: Table, ageGroup: string, gender: string): NutrientDict {
    if ageGroup in t && gender in t[ageGroup] then t[ageGroup][gender] else []
  }

  /** Some group of the pair is non-empty (the negation of the skip test). */
  predicate HasData(m: Table, v: Table, n: Table, ageGroup: string, gender: string) {
    Group(m, ageGroup, gender) != [] || Group(v, ageGroup, gender) != [] || Group(n, ageGroup, gender) != []
  }

  /** Every age group named by any of the three tables. */
  function AgeGroups(m: Table, v: Table, n: Table): set<string> {
    m.Keys + v.Keys + n.Keys
  }

  /** The pairs of one age group that get a document, over the genders `gs`
      in order. */
  function GenderPairs(m: Table, v: Table, n: Table, ageGroup: string, gs: seq<string>): (r: seq<(string, string)>)
    ensures |r| <= |gs|
  {
    if gs == [] then []
    else
      GenderPairs(m, v, n, ageGroup, gs[..|gs| - 1])
      + (if HasData(m, v, n, ageGroup, gs[|gs| - 1]) then [(ageGroup, gs[|gs| - 1])] else [])
  }

  /** The (age group, gender) pairs that get a document when the age groups
      are visited in `order`, in the order the documents are produced. */
  function Pairs(m: Table, v: Table, n: Table, order: seq<string>): seq<(string, string)> {
    if order == [] then []
    else Pairs(m, v, n, order[..|order| - 1]) + GenderPairs(m, v, n, order[|order| - 1], Genders)
  }

  function PairDocument(m: Table, v: Table, n: Table, pair: (string, string)): DietaryDocument {
    UnifiedDocument(pair.0, pair.1, Group(m, pair.0, pair.1), Group(v, pair.0, pair.1), Group(n, pair.0, pair.1))
  }

  /** `f` applied to each element, in order. */
  function MapSeq<A, B>(f: A -> B, xs: seq<A>): (r: seq<B>)
    ensures |r| == |xs|
  {
    if xs == [] then [] else MapSeq(f, xs[..|xs| - 1]) + [f(xs[|xs| - 1])]
  }

  lemma MapSnoc<A, B>(f: A -> B, xs: seq<A>, x: A)
    ensures MapSeq(f, xs + [x]) == MapSeq(f, xs) + [f(x)]
  {
    assert (xs + [x])[..|xs|] == xs;
  }

  lemma {:induction false} MapAppend<A, B>(f: A -> B, xs: seq<A>, ys: seq<A>)
    ensures MapSeq(f, xs + ys) == MapSeq(f, xs) + MapSeq(f, ys)
    decreases |ys|
  {
    if ys == [] {
      assert xs + ys == xs;
    } else {
      var front := ys[..|ys| - 1];
      assert xs + ys == (xs + front) + [ys[|ys| - 1]];
      MapSnoc(f, xs + front, ys[|ys| - 1]);
      MapAppend(f, xs, front);
    }
  }

  lemma {:induction false} MapAt<A, B>(f: A -> B, xs: seq<A>, k: nat)
    requires k < |xs|
    ensures MapSeq(f, xs)[k] == f(xs[k])
  {
    if k < |xs| - 1 {
      MapAt(f, xs[..|xs| - 1], k);
    }
  }

  /** The unified document of a pair, as a function value. */
  function DocumentOf(m: Table, v: Table, n: Table): ((string, string)) -> DietaryDocument {
    p => PairDocument(m, v, n, p)
  }

  /** The pairs after one more gender of the same age group. */
  lemma GenderPairsSnoc(m: Table, v: Table, n: Table, ageGroup: string, gs: seq<string>, j: nat)
    requires j < |gs|
    ensures GenderPairs(m, v, n, ageGroup, gs[..j + 1])
      == GenderPairs(m, v, n, ageGroup, gs[..j]) + (if HasData(m, v, n, ageGroup, gs[j]) then [(ageGroup, gs[j])] else [])
  {
    assert gs[..j + 1][..j] == gs[..j];
  }

  /** The pairs after one more age group. */
  lemma PairsSnoc(m: Table, v: Table, n: Table, order: seq<string>, i: nat)
    requires i < |order|
    ensures Pairs(m, v, n, order[..i + 1]) == Pairs(m, v, n, order[..i]) + GenderPairs(m, v, n, order[i], Genders)
  {
    assert order[..i + 1][..i] == order[..i];
  }

  /** The documents `process_all_dietary_data` returns when it visits the age
      groups in `order`. */
  function Documents(m: Table, v: Table, n: Table, order: seq<string>): seq<DietaryDocument> {
    MapSeq(DocumentOf(m, v, n), Pairs(m, v, n, order))
  }

    /** The inner loop of `process_all_dietary_data`: the documents of one age
      group, one per gender with data, in the order of `genders`. */
  method AgeGroupDocuments(m: Table, v: Table, n: Table, ageGroup: string, genders: seq<string>)
    returns (docs: seq<DietaryDocument>)
    ensures docs == MapSeq(DocumentOf(m, v, n), GenderPairs(m, v, n, ageGroup, genders))
  {
    docs := [];
    ghost var pairs: seq<(string, string)> := [];
    assert genders[..0] == [];
    var j := 0;
    while j < |genders|
      invariant 0 <= j <= |genders|
      invariant pairs == GenderPairs(m, v, n, ageGroup, genders[..j])
      invariant docs == MapSeq(DocumentOf(m, v, n), pairs)
    {
      var more := GenderDocument(m, v, n, ageGroup, genders[j]);
      ghost var step := if HasData(m, v, n, ageGroup, genders[j]) then [(ageGroup, genders[j])] else [];
      GenderPairsSnoc(m, v, n, ageGroup, genders, j);
      MapAppend(DocumentOf(m, v, n), pairs, step);
      docs := docs + more;
      pairs := pairs + step;
      j := j + 1;
    }
    assert genders[..j] == genders;
  }

  /** The body of the inner loop: the pair's document unless its three
      groups are all empty. */
  method GenderDocument(m: Table, v: Table, n: Table, ageGroup: string, gender: string)
    returns (more: seq<DietaryDocument>)
    ensures more == MapSeq(DocumentOf(m, v, n), if HasData(m, v, n, ageGroup, gender) then [(ageGroup, gender)] else [])
  {
    var minerals := Group(m, ageGroup, gender);
    var vitamins := Group(v, ageGroup, gender);
    var nutrition := Group(n, ageGroup, gender);
    if minerals != [] || vitamins != [] || nutrition != [] {
      var doc := CreateUnifiedDocument(ageGroup, gender, minerals, vitamins, nutrition);
      assert DocumentOf(m, v, n)((ageGroup, gender)) == doc;
      assert [(ageGroup, gender)][..0] == [];
      more := [doc];
    } else {
      more := [];
    }
  }

  /** `process_all_dietary_data`, with the three parsed files as inputs. */
  method ProcessAllDietaryData(m: Table, v: Table, n: Table) returns (docs: seq<DietaryDocument>)
    ensures docs == Documents(m, v, n, SortedListing(AgeGroups(m, v, n)))
  {
    var order := SortStrings(AgeGroups(m, v, n));
    docs := [];
    var i := 0;
    while i < |order|
      invariant 0 <= i <= |order|
      invariant docs == MapSeq(DocumentOf(m, v, n), Pairs(m, v, n, order[..i]))
    {
      var more := AgeGroupDocuments(m, v, n, order[i], Genders);
      MapAppend(DocumentOf(m, v, n), Pairs(m, v, n, order[..i]), GenderPairs(m, v, n, order[i], Genders));
      PairsSnoc(m, v, n, order, i);
      docs := docs + more;
      i := i + 1;
    }
    assert order[..i] == order;
  }

  // ---------------------------------------------------------- properties

  /** Over all three tables, a pair gets a document exactly when one of the
      two genders and some of its groups is non-empty. */
  lemma PairsOfAllTables(m: Table, v: Table, n: Table, p: (string, string))
    ensures p in Pairs(m, v, n, SortedListing(AgeGroups(m, v, n))) <==> p.1 in Genders && HasData(m, v, n, p.0, p.1)
  {
    PairsIff(m, v, n, SortedListing(AgeGroups(m, v, n)), p);
  }

  /** At most two documents per age group. */
  lemma {:induction false} PairsBound(m: Table, v: Table, n: Table, order: seq<string>)
    ensures |Pairs(m, v, n, order)| <= 2 * |order|
  {
    if order != [] {
      PairsBound(m, v, n, order[..|order| - 1]);
    }
  }

  lemma {:induction false} GenderPairsIff(m: Table, v: Table, n: Table, ageGroup: string, gs: seq<string>, p: (string, string))
    ensures p in GenderPairs(m, v, n, ageGroup, gs) <==> p.0 == ageGroup && p.1 in gs && HasData(m, v, n, ageGroup, p.1)
  {
    if gs != [] {
      var front := gs[..|gs| - 1];
      GenderPairsIff(m, v, n, ageGroup, front, p);
      assert p.1 in gs <==> p.1 in front || p.1 == gs[|gs| - 1] by {
        assert gs == front + [gs[|gs| - 1]];
      }
    }
  }

  /** A pair gets a document exactly when its age group is visited, its
      gender is one of the two, and some of its three groups is non-empty. */
  lemma {:induction false} PairsIff(m: Table, v: Table, n: Table, order: seq<string>, p: (string, string))
    ensures p in Pairs(m, v, n, order) <==> p.0 in order && p.1 in Genders && HasData(m, v, n, p.0, p.1)
  {
    if order != [] {
      var front := order[..|order| - 1];
      PairsIff(m, v, n, front, p);
      GenderPairsIff(m, v, n, order[|order| - 1], Genders, p);
      assert p.0 in order <==> p.0 in front || p.0 == order[|order| - 1] by {
        assert order == front + [order[|order| - 1]];
      }
    }
  }

  /** `process_all_dietary_data` emits at most two documents per age group
      named in any of the three tables. */
  lemma DocumentsBound(m: Table, v: Table, n: Table)
    ensures |Documents(m, v, n, SortedListing(AgeGroups(m, v, n)))| <= 2 * |AgeGroups(m, v, n)|
  {
    var s := AgeGroups(m, v, n);
    SortedListingSize(SortedListing(s), s);
    PairsBound(m, v, n, SortedListing(s));
  }

  /** Within one age group, over distinct genders, no pair repeats and the
      genders keep their order. */
  lemma {:induction false} GenderPairsOrdered(m: Table, v: Table, n: Table, ageGroup: string, gs: seq<string>, i: nat, j: nat)
    requires forall p, q :: 0 <= p < q < |gs| ==> gs[p] != gs[q]
    requires i < j < |GenderPairs(m, v, n, ageGroup, gs)|
    ensures exists p, q :: (0 <= p < q < |gs|
      && GenderPairs(m, v, n, ageGroup, gs)[i].1 == gs[p] && GenderPairs(m, v, n, ageGroup, gs)[j].1 == gs[q])
  {
    var front := GenderPairs(m, v, n, ageGroup, gs[..|gs| - 1]);
    var r := GenderPairs(m, v, n, ageGroup, gs);
    if j < |front| {
      GenderPairsOrdered(m, v, n, ageGroup, gs[..|gs| - 1], i, j);
      var p, q :| 0 <= p < q < |gs| - 1 && front[i].1 == gs[..|gs| - 1][p] && front[j].1 == gs[..|gs| - 1][q];
      assert r[i] == front[i] && r[j] == front[j];
      assert r[i].1 == gs[p] && r[j].1 == gs[q];
    } else {
      assert r[i] == front[i];
      assert front[i] in GenderPairs(m, v, n, ageGroup, gs[..|gs| - 1]);
      GenderPairsIff(m, v, n, ageGroup, gs[..|gs| - 1], front[i]);
      var p :| 0 <= p < |gs[..|gs| - 1]| && gs[..|gs| - 1][p] == front[i].1;
      assert r[i].1 == gs[p] && r[j].1 == gs[|gs| - 1];
    }
  }

  /** When the age groups are visited in ascending order (as `sorted` gives
      them), the documents come in ascending order of age group and, within
      one age group, "male" before "female"; so no pair appears twice. */
  lemma {:induction false} PairsOrdered(m: Table, v: Table, n: Table, order: seq<string>, i: nat, j: nat)
    requires StrictlySorted(order)
    requires i < j < |Pairs(m, v, n, order)|
    ensures var ps := Pairs(m, v, n, order);
      Below(ps[i].0, ps[j].0) || (ps[i].0 == ps[j].0 && ps[i].1 == "male" && ps[j].1 == "female")
  {
    var front := order[..|order| - 1];
    var last := order[|order| - 1];
    var done := Pairs(m, v, n, front);
    var ps := Pairs(m, v, n, order);
    var tail := GenderPairs(m, v, n, last, Genders);
    assert StrictlySorted(front);
    if j < |done| {
      PairsOrdered(m, v, n, front, i, j);
      assert ps[i] == done[i] && ps[j] == done[j];
    } else if i < |done| {
      assert ps[i] == done[i] && ps[j] == tail[j - |done|];
      assert done[i] in done;
      PairsIff(m, v, n, front, done[i]);
      assert tail[j - |done|] in tail;
      GenderPairsIff(m, v, n, last, Genders, tail[j - |done|]);
      var p :| 0 <= p < |front| && front[p] == done[i].0;
      assert order[p] == ps[i].0;
    } else {
      assert ps[i] == tail[i - |done|] && ps[j] == tail[j - |done|];
      GenderPairsOrdered(m, v, n, last, Genders, i - |done|, j - |done|);
      assert tail[i - |done|] in tail;
      GenderPairsIff(m, v, n, last, Genders, tail[i - |done|]);
    }
  }

  /** Document `k` is the unified document of the `k`-th pair: it carries
      exactly that pair's three groups. */
  lemma DocumentsAt(m: Table, v: Table, n: Table, order: seq<string>, k: nat)
    requires k < |Documents(m, v, n, order)|
    ensures var p := Pairs(m, v, n, order)[k];
      Documents(m, v, n, order)[k].fullData
        == Requirements(p.0, p.1, Group(m, p.0, p.1), Group(v, p.0, p.1), Group(n, p.0, p.1))
    ensures Documents(m, v, n, order)[k].id == DocumentId(Pairs(m, v, n, order)[k].0, Pairs(m, v, n, order)[k].1)
  {
    MapAt(DocumentOf(m, v, n), Pairs(m, v, n, order), k);
  }

  /** The ids of the two genders never clash, whatever the age groups. */
  lemma MaleFemaleIdsDiffer(a: string, b: string)
    ensures DocumentId(a, "male") != DocumentId(b, "female")
  {
    var s := DocumentId(a, "male");
    var t := DocumentId(b, "female");
    if |s| == |t| {
      assert s[|s| - 5] == '_';
      assert t[|t| - 5] == 'e';
    }
  }

  /** Document ids name their pair: two pairs with the same id are the same
      pair. */
  lemma DocumentIdInjective(a1: string, g1: string, a2: string, g2: string)
    requires g1 in Genders && g2 in Genders
    requires DocumentId(a1, g1) == DocumentId(a2, g2)
    ensures a1 == a2 && g1 == g2
  {
    MaleFemaleIdsDiffer(a1, a2);
    MaleFemaleIdsDiffer(a2, a1);
    var s := DocumentId(a1, g1);
    assert a1 == s[8..|s| - |g1| - 1];
    assert a2 == s[8..|s| - |g2| - 1];
  }

  /** No two documents of one run share an id. */
  lemma DocumentIdsDistinct(m: Table, v: Table, n: Table, order: seq<string>, i: nat, j: nat)
    requires StrictlySorted(order)
    requires i < j < |Documents(m, v, n, order)|
    ensures Documents(m, v, n, order)[i].id != Documents(m, v, n, order)[j].id
  {
    var ps := Pairs(m, v, n, order);
    DocumentsAt(m, v, n, order, i);
    DocumentsAt(m, v, n, order, j);
    PairsOrdered(m, v, n, order, i, j);
    assert ps[i] in ps && ps[j] in ps;
    PairsIff(m, v, n, order, ps[i]);
    PairsIff(m, v, n, order, ps[j]);
    if Documents(m, v, n, order)[i].id == Documents(m, v, n, order)[j].id {
      DocumentIdInjective(ps[i].0, ps[i].1, ps[j].0, ps[j].1);
      BelowIrreflexive(ps[i].0);
    }
  }
}
