/** agents/tools/nutrition_lookup_tool.py: the answer to a food query, built
    from the hits of the food index. Each hit shows its description, its
    category and up to eight nutrients: the allow-listed ones first, under
    their display names, then a few others. */
module NutritionLookupTool {
  import opened Wrappers
  import opened Text
  import opened ProcessDietaryData
  import opened ProcessUsdaData

  /** A search hit: the string fields of its metadata and, when the metadata
      has `full_data`, that record's `foodNutrients` (`[]` when it has
      none). */
  datatype FoodHit = FoodHit(metadata: map<string, string>, fullData: Option<seq<NutrientEntry>>)

  /** An amount and its unit. */
  type Measure = (Number, string)

  /** `nutrient_map`: a dictionary from names to measures, in insertion
      order. */
  type NutrientMap = seq<(string, Measure)>

  predicate HasKey(m: NutrientMap, k: string) {
    exists i :: 0 <= i < |m| && m[i].0 == k
  }

  predicate DistinctKeys(m: NutrientMap) {
    forall i, j :: 0 <= i < j < |m| ==> m[i].0 != m[j].0
  }

  /** Where `k` sits in `m`. */
  function KeyIndex(m: NutrientMap, k: string): (r: Option<nat>)
    ensures r.None? <==> !HasKey(m, k)
    ensures r.Some? ==> r.value < |m| && m[r.value].0 == k
  {
    if m == [] then None
    else if m[0].0 == k then Some(0)
    else match KeyIndex(m[1..], k)
      case Some(i) => Some(i + 1)
      case None => None
  }

  /** `m[k] = v`: an existing key keeps its place and takes the new value; a
      new key goes last. */
  function Put(m: NutrientMap, k: string, v: Measure): (r: NutrientMap)
    requires DistinctKeys(m)
    ensures DistinctKeys(r) && HasKey(r, k)
    ensures HasKey(m, k) ==> |r| == |m|
    ensures !HasKey(m, k) ==> |r| == |m| + 1 && r[|m|] == (k, v)
    ensures forall i :: 0 <= i < |m| ==> r[i] == if m[i].0 == k then (k, v) else m[i]
  {
    match KeyIndex(m, k)
    case Some(i) =>
      var r := m[i := (k, v)];
      assert r[i].0 == k;
      r
    case None =>
      var r := m + [(k, v)];
      assert r[|m|].0 == k;
      r
  }

  /** An entry the map takes: a non-empty name and a kept amount. */
  predicate Usable(e: NutrientEntry) {
    Kept(e) && e.name != ""
  }

  function MeasureOf(e: NutrientEntry): Measure
    requires e.amount.Some?
  {
    (e.amount.value, e.unitName)
  }

  /** The map built from the entries in order, a later entry overwriting an
      earlier one of the same name. */
  function NutrientMapOf(ns: seq<NutrientEntry>): (m: NutrientMap)
    ensures DistinctKeys(m)
  {
    if ns == [] then []
    else
      var prev := NutrientMapOf(ns[..|ns| - 1]);
      var e := ns[|ns| - 1];
      if Usable(e) then Put(prev, e.name, MeasureOf(e)) else prev
  }

  /** The map's keys are exactly the names of the usable entries. */
  lemma {:induction false} NutrientMapKeys(ns: seq<NutrientEntry>, k: string)
    ensures HasKey(NutrientMapOf(ns), k) <==> exists i :: 0 <= i < |ns| && Usable(ns[i]) && ns[i].name == k
  {
    if ns != [] {
      var init := ns[..|ns| - 1];
      NutrientMapKeys(init, k);
      if exists i :: 0 <= i < |init| && Usable(init[i]) && init[i].name == k {
        var i :| 0 <= i < |init| && Usable(init[i]) && init[i].name == k;
        assert ns[i] == init[i];
      }
      if exists i :: 0 <= i < |ns| && Usable(ns[i]) && ns[i].name == k {
        var i :| 0 <= i < |ns| && Usable(ns[i]) && ns[i].name == k;
        if i < |init| {
          assert init[i] == ns[i];
        }
      }
    }
  }

  /** The value kept for a name is that of its last usable entry. */
  lemma {:induction false} NutrientMapLastWins(ns: seq<NutrientEntry>, i: nat)
    requires i < |ns| && Usable(ns[i])
    requires forall j :: i < j < |ns| && Usable(ns[j]) ==> ns[j].name != ns[i].name
    ensures (ns[i].name, MeasureOf(ns[i])) in NutrientMapOf(ns)
  {
    var init := ns[..|ns| - 1];
    var e := ns[|ns| - 1];
    if i < |ns| - 1 {
      assert init[i] == ns[i];
      forall j | i < j < |init| && Usable(init[j])
        ensures init[j].name != init[i].name
      {
        assert init[j] == ns[j];
      }
      NutrientMapLastWins(init, i);
      var prev := NutrientMapOf(init);
      if Usable(e) {
        var p :| 0 <= p < |prev| && prev[p] == (ns[i].name, MeasureOf(ns[i]));
        assert NutrientMapOf(ns)[p] == prev[p];
      }
    }
  }

  /** The allow-list: USDA names and the names shown for them, in the order
      they are shown. */
  const DisplayNames: seq<(string, string)> := [
    ("Energy", "Calories"), ("Protein", "Protein"), ("Total lipid (fat)", "Fat"),
    ("Carbohydrate, by difference", "Carbs"), ("Fiber, total dietary", "Fiber"),
    ("Calcium, Ca", "Calcium"), ("Iron, Fe", "Iron"), ("Vitamin C, total ascorbic acid", "Vitamin C"),
    ("Sodium, Na", "Sodium"), ("Sugars, total including NLEA", "Sugars")]

  /** How many nutrients a hit shows at most, and how many map entries are
      looked at for extras. */
  const ShownLimit := 8
  const ExtraWindow := 5

  predicate AllowListed(allow: seq<(string, string)>, name: string) {
    exists k :: 0 <= k < |allow| && allow[k].0 == name
  }

  function MeasureText(v: Measure): string {
    v.0.shown + " " + v.1
  }

  /** The line of an allow-listed name present in `m`. */
  function DisplayLine(entry: (string, string), m: NutrientMap): string
    requires HasKey(m, entry.0)
  {
    entry.1 + ": " + MeasureText(m[KeyIndex(m, entry.0).value].1)
  }

  /** The first loop: one line per allow-listed name in the map, in the
      allow-list's order. */
  function ImportantLines(allow: seq<(string, string)>, m: NutrientMap): (r: seq<string>)
    ensures |r| <= |allow|
  {
    if allow == [] then []
    else
      var prev := ImportantLines(allow[..|allow| - 1], m);
      var entry := allow[|allow| - 1];
      if HasKey(m, entry.0) then prev + [DisplayLine(entry, m)] else prev
  }

  /** The second loop, over the first entries of the map: the names not on
      the allow-list, under their own names. */
  function ExtraLines(entries: NutrientMap, allow: seq<(string, string)>): (r: seq<string>)
    ensures |r| <= |entries|
  {
    if entries == [] then []
    else
      var prev := ExtraLines(entries[..|entries| - 1], allow);
      var entry := entries[|entries| - 1];
      if !AllowListed(allow, entry.0) then prev + [entry.0 + ": " + MeasureText(entry.1)] else prev
  }

  /** `key_nutrients`. */
  function KeyNutrients(m: NutrientMap): seq<string> {
    ImportantLines(DisplayNames, m) + ExtraLines(Take(m, ExtraWindow), DisplayNames)
  }

  /** The allow-listed lines come first and in the allow-list's order: the
      line of name `a` comes before that of a later name `b`. */
  lemma AllowListOrder(allow: seq<(string, string)>, m: NutrientMap, a: nat, b: nat)
    requires a < b < |allow| && HasKey(m, allow[a].0) && HasKey(m, allow[b].0)
    ensures |ImportantLines(allow[..a], m)| < |ImportantLines(allow[..b], m)| < |ImportantLines(allow, m)|
    ensures ImportantLines(allow, m)[|ImportantLines(allow[..a], m)|] == DisplayLine(allow[a], m)
    ensures ImportantLines(allow, m)[|ImportantLines(allow[..b], m)|] == DisplayLine(allow[b], m)
  {
    var pa := |ImportantLines(allow[..a], m)|;
    var pb := |ImportantLines(allow[..b], m)|;
    var lines := ImportantLines(allow, m);
    assert pa < pb by {
      ImportantLinesAt(allow, m, a);
      ImportantLinesGrow(allow, m, a + 1, b);
    }
    assert pa < |lines| && lines[pa] == DisplayLine(allow[a], m) by {
      ImportantLinesAt(allow, m, a);
    }
    assert pb < |lines| && lines[pb] == DisplayLine(allow[b], m) by {
      ImportantLinesAt(allow, m, b);
    }
  }

  /** The lines of the first `k` names lead the lines of all of them. */
  lemma {:induction false} ImportantLinesPrefix(allow: seq<(string, string)>, m: NutrientMap, k: nat)
    requires k <= |allow|
    ensures |ImportantLines(allow[..k], m)| <= |ImportantLines(allow, m)|
    ensures ImportantLines(allow, m)[..|ImportantLines(allow[..k], m)|] == ImportantLines(allow[..k], m)
  {
    if k < |allow| {
      var init := allow[..|allow| - 1];
      assert init[..k] == allow[..k];
      ImportantLinesPrefix(init, m, k);
    } else {
      assert allow[..k] == allow;
    }
  }

  /** More names give at least as many lines. */
  lemma ImportantLinesGrow(allow: seq<(string, string)>, m: NutrientMap, k: nat, k': nat)
    requires k <= k' <= |allow|
    ensures |ImportantLines(allow[..k], m)| <= |ImportantLines(allow[..k'], m)|
  {
    var upTo := allow[..k'];
    ImportantLinesPrefix(upTo, m, k);
    assert upTo[..k] == allow[..k];
  }

  /** The line of name `a`, when present, follows the lines of the names
      before it. */
  lemma ImportantLinesAt(allow: seq<(string, string)>, m: NutrientMap, a: nat)
    requires a < |allow| && HasKey(m, allow[a].0)
    ensures |ImportantLines(allow[..a + 1], m)| == |ImportantLines(allow[..a], m)| + 1
    ensures |ImportantLines(allow[..a], m)| < |ImportantLines(allow, m)|
    ensures ImportantLines(allow, m)[|ImportantLines(allow[..a], m)|] == DisplayLine(allow[a], m)
  {
    var upTo := allow[..a + 1];
    var before := ImportantLines(allow[..a], m);
    assert upTo[..a] == allow[..a];
    assert ImportantLines(upTo, m) == before + [DisplayLine(allow[a], m)];
    ImportantLinesPrefix(allow, m, a + 1);
    var lines := ImportantLines(allow, m);
    assert lines[|before|] == ImportantLines(upTo, m)[|before|];
  }

  /** The extra lines come only from the first five map entries, name
      entries not on the allow-list, and so number at most five. */
  lemma {:induction false} ExtraLinesFrom(entries: NutrientMap, allow: seq<(string, string)>, j: nat)
    requires j < |ExtraLines(entries, allow)|
    ensures exists p :: (0 <= p < |entries| && !AllowListed(allow, entries[p].0) &&
      ExtraLines(entries, allow)[j] == entries[p].0 + ": " + MeasureText(entries[p].1))
  {
    var init := entries[..|entries| - 1];
    var prev := ExtraLines(init, allow);
    if j < |prev| {
      ExtraLinesFrom(init, allow, j);
      var p :| 0 <= p < |init| && !AllowListed(allow, init[p].0)
        && prev[j] == init[p].0 + ": " + MeasureText(init[p].1);
      assert entries[p] == init[p];
    } else {
      assert ExtraLines(entries, allow)[j] == entries[|entries| - 1].0 + ": " + MeasureText(entries[|entries| - 1].1);
    }
  }

  /** A hit shows at most eight nutrients, at most five of them extras taken
      from the first five map entries. */
  lemma KeyNutrientsBound(m: NutrientMap)
    ensures |ExtraLines(Take(m, ExtraWindow), DisplayNames)| <= ExtraWindow
    ensures |Take(KeyNutrients(m), ShownLimit)| <= ShownLimit
    ensures forall j :: 0 <= j < |ExtraLines(Take(m, ExtraWindow), DisplayNames)| ==>
      exists p :: (0 <= p < ExtraWindow && p < |m| && !AllowListed(DisplayNames, m[p].0) &&
        ExtraLines(Take(m, ExtraWindow), DisplayNames)[j] == m[p].0 + ": " + MeasureText(m[p].1))
  {
    var first := Take(m, ExtraWindow);
    forall j | 0 <= j < |ExtraLines(first, DisplayNames)|
      ensures exists p :: (0 <= p < ExtraWindow && p < |m| && !AllowListed(DisplayNames, m[p].0) &&
        ExtraLines(first, DisplayNames)[j] == m[p].0 + ": " + MeasureText(m[p].1))
    {
      ExtraLinesFrom(first, DisplayNames, j);
      var p :| 0 <= p < |first| && !AllowListed(DisplayNames, first[p].0)
        && ExtraLines(first, DisplayNames)[j] == first[p].0 + ": " + MeasureText(first[p].1);
      assert first[p] == m[p];
    }
  }

  /** The nutrient list of a hit: empty without `full_data`. */
  function HitNutrients(hit: FoodHit): seq<NutrientEntry> {
    hit.fullData.GetOr([])
  }

  /** The first two lines of hit number `i`. */
  function HitHead(i: nat, metadata: map<string, string>): string {
    "\n" + NatToString(i) + ". " + Get(metadata, "description", "Unknown") + "\n"
      + "   Category: " + Get(metadata, "category", "Unknown category") + "\n"
  }

  /** The nutrients line of a hit: at most eight, joined by commas. */
  function NutrientsLine(ns: seq<NutrientEntry>): string {
    "   Key Nutrients: " + Join(Take(KeyNutrients(NutrientMapOf(ns)), ShownLimit), ", ") + "\n"
  }

  /** The block of hit number `i`. */
  function HitBlock(i: nat, hit: FoodHit): string {
    HitHead(i, hit.metadata) + NutrientsLine(HitNutrients(hit))
  }

  /** The blocks of the hits, numbered from 1. */
  function HitBlocks(hits: seq<FoodHit>): (r: seq<string>)
    ensures |r| == |hits|
  {
    if hits == [] then [] else HitBlocks(hits[..|hits| - 1]) + [HitBlock(|hits|, hits[|hits| - 1])]
  }

  function NoNutritionMessage(query: string): string {
    "No nutritional information found for '" + query + "'. Try a different search term."
  }

  function NutritionErrorMessage(message: string): string {
    "Error looking up nutrition information: " + message
  }

  /** The answer from the hits of a successful search. */
  function ResultsText(hits: seq<FoodHit>, query: string): string {
    if hits == [] then NoNutritionMessage(query)
    else Join([FoundHeader(|hits|, query)] + HitBlocks(hits), "\n")
  }

  /** What `execute` answers, given the search over the food index. */
  function Response(query: string, maxResults: int, search: (string, int) -> Outcome<seq<FoodHit>>): string {
    match search(query, Clamp(maxResults, 1, 20))
    case Raised(e) => NutritionErrorMessage(e)
    case Returned(hits) => ResultsText(hits, query)
  }

  /** Hit number `i` is the `i`-th block, under the header. */
  lemma {:induction false} HitBlocksAt(hits: seq<FoodHit>, i: nat)
    requires i < |hits|
    ensures HitBlocks(hits)[i] == HitBlock(i + 1, hits[i])
  {
    if i < |hits| - 1 {
      HitBlocksAt(hits[..|hits| - 1], i);
    }
  }

  /** The search asks for 1 to 20 hits; with none, the fixed message, with
      some, the header counting them, and on an error, the error message. */
  lemma ResponseCases(query: string, maxResults: int, search: (string, int) -> Outcome<seq<FoodHit>>)
    ensures search(query, Clamp(maxResults, 1, 20)).Raised? ==>
      Response(query, maxResults, search) == NutritionErrorMessage(search(query, Clamp(maxResults, 1, 20)).message)
    ensures search(query, Clamp(maxResults, 1, 20)) == Returned([]) ==>
      Response(query, maxResults, search) == NoNutritionMessage(query)
    ensures var outcome := search(query, Clamp(maxResults, 1, 20));
      outcome.Returned? && outcome.value != [] ==>
        StartsWith(Response(query, maxResults, search), FoundHeader(|outcome.value|, query))
  {
    var outcome := search(query, Clamp(maxResults, 1, 20));
    if outcome.Returned? && outcome.value != [] {
      JoinStartsWith([FoundHeader(|outcome.value|, query)] + HitBlocks(outcome.value), "\n");
    }
  }

  /** The hit the index gives back for a stored food document: its string
      metadata (the numeric `fdc_id`, which the tool never reads, aside) and
      no `full_data`. */
  function StoredHit(doc: FoodDocument): FoodHit {
    FoodHit(map["description" := doc.metadata.description, "food_class" := doc.metadata.foodClass,
                "category" := doc.metadata.category], None)
  }

  /** As the food documents are stored without `full_data`, every hit on
      them shows no nutrients at all, and shows the stored category. */
  lemma StoredFoodsShowNoNutrients(i: nat, item: FoodItem)
    ensures HitBlock(i, StoredHit(FoodDocumentOf(item)))
      == HitHead(i, StoredHit(FoodDocumentOf(item)).metadata) + "   Key Nutrients: \n"
    ensures Get(StoredHit(FoodDocumentOf(item)).metadata, "category", "Unknown category") == CategoryText(item.foodCategory)
  {
    assert KeyNutrients([]) == [] by {
      assert ImportantLines(DisplayNames, []) == [] by {
        EmptyMapNoImportantLines(DisplayNames);
      }
    }
  }

  lemma {:induction false} EmptyMapNoImportantLines(allow: seq<(string, string)>)
    ensures ImportantLines(allow, []) == []
  {
    if allow != [] {
      EmptyMapNoImportantLines(allow[..|allow| - 1]);
      assert !HasKey([], allow[|allow| - 1].0);
    }
  }

  /** The tool, holding the search over the food index. */
  class NutritionLookupTool {
    const search: (string, int) -> Outcome<seq<FoodHit>>

    constructor(search: (string, int) -> Outcome<seq<FoodHit>>)
      ensures this.search == search
    {
      this.search := search;
    }

    /** `execute`. */
    method Execute(foodQuery: string, maxResults: int) returns (response: string)
      ensures response == Response(foodQuery, maxResults, search)
    {
      var n := Clamp(maxResults, 1, 20);
      var results := search(foodQuery, n);
      if results.Raised? {
        return NutritionErrorMessage(results.message);
      }
      response := FormatResults(results.value, foodQuery);
    }

    /** The answer from the hits. */
    static method FormatResults(hits: seq<FoodHit>, query: string) returns (response: string)
      ensures response == ResultsText(hits, query)
    {
      if hits == [] {
        return NoNutritionMessage(query);
      }
      var parts := [FoundHeader(|hits|, query)];
      var i := 0;
      while i < |hits|
        invariant 0 <= i <= |hits|
        invariant parts == [FoundHeader(|hits|, query)] + HitBlocks(hits[..i])
      {
        var block := FormatHit(i + 1, hits[i]);
        assert hits[..i + 1][..i] == hits[..i];
        parts := parts + [block];
        i := i + 1;
      }
      assert hits[..i] == hits;
      response := Join(parts, "\n");
    }

    /** The block of hit number `i`. */
    static method FormatHit(i: nat, hit: FoodHit) returns (block: string)
      ensures block == HitBlock(i, hit)
    {
      var nutrients := if hit.fullData.Some? then hit.fullData.value else [];
      var m := BuildNutrientMap(nutrients);
      var lines := KeyNutrientLines(m);
      block := HitHead(i, hit.metadata) + "   Key Nutrients: " + Join(Take(lines, 8), ", ") + "\n";
    }

    /** The loop filling `nutrient_map`. */
    static method BuildNutrientMap(ns: seq<NutrientEntry>) returns (m: NutrientMap)
      ensures m == NutrientMapOf(ns)
    {
      m := [];
      var i := 0;
      while i < |ns|
        invariant 0 <= i <= |ns|
        invariant m == NutrientMapOf(ns[..i])
      {
        var e := ns[i];
        if e.amount.Some? && e.amount.value.value != 0.0 && e.name != "" {
          m := Put(m, e.name, (e.amount.value, e.unitName));
        }
        assert ns[..i + 1][..i] == ns[..i];
        i := i + 1;
      }
      assert ns[..i] == ns;
    }

    /** The two loops filling `key_nutrients`. */
    static method KeyNutrientLines(m: NutrientMap) returns (lines: seq<string>)
      ensures lines == KeyNutrients(m)
    {
      lines := [];
      var k := 0;
      while k < |DisplayNames|
        invariant 0 <= k <= |DisplayNames|
        invariant lines == ImportantLines(DisplayNames[..k], m)
      {
        var entry := DisplayNames[k];
        if HasKey(m, entry.0) {
          lines := lines + [entry.1 + ": " + MeasureText(m[KeyIndex(m, entry.0).value].1)];
        }
        assert DisplayNames[..k + 1][..k] == DisplayNames[..k];
        k := k + 1;
      }
      assert DisplayNames[..k] == DisplayNames;
      var important := lines;
      var first := Take(m, 5);
      var j := 0;
      while j < |first|
        invariant 0 <= j <= |first|
        invariant lines == important + ExtraLines(first[..j], DisplayNames)
      {
        var entry := first[j];
        if !AllowListed(DisplayNames, entry.0) {
          lines := lines + [entry.0 + ": " + MeasureText(entry.1)];
        }
        assert first[..j + 1][..j] == first[..j];
        j := j + 1;
      }
      assert first[..j] == first;
    }
  }
}
