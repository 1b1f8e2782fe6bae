/** test_nutrition_lookup.py: the script's own copy of the food formatter,
    written out loop by loop as the script has it, and shown to answer as the
    tool does. */
module TestNutritionLookup {
  import opened Wrappers
  import opened Text
  import opened ProcessUsdaData
  import opened NutritionLookupTool

  /** `format_nutrition_results(results, query)`. */
  method FormatNutritionResults(results: seq<FoodHit>, query: string) returns (text: string)
    ensures text == ResultsText(results, query)
  {
    if |results| == 0 {
      return "No nutritional information found for '" + query + "'. Try a different search term.";
    }
    var parts := [FoundHeader(|results|, query)];
    var i := 0;
    while i < |results|
      invariant 0 <= i <= |results|
      invariant parts == [FoundHeader(|results|, query)] + HitBlocks(results[..i])
    {
      var block := FormatResult(i + 1, results[i]);
      assert results[..i + 1][..i] == results[..i];
      parts := parts + [block];
      i := i + 1;
    }
    assert results[..i] == results;
    text := Join(parts, "\n");
  }

  /** The body of the script's loop for result number `i`: its key
      nutrients, then the block with at most eight of them. */
  method FormatResult(i: nat, result: FoodHit) returns (block: string)
    ensures block == HitBlock(i, result)
  {
    var nutrients := if result.fullData.Some? then result.fullData.value else [];
    var keyNutrients := ScriptKeyNutrients(nutrients);
    var category := Get(result.metadata, "category", "Unknown category");
    block := "\n" + NatToString(i) + ". " + Get(result.metadata, "description", "Unknown") + "\n"
      + "   Category: " + category + "\n"
      + "   Key Nutrients: " + Join(Take(keyNutrients, 8), ", ") + "\n";
  }

  /** The script's three loops over one result's nutrients: the nutrient
      map, then the allow-listed nutrients and the extras from it. */
  method ScriptKeyNutrients(nutrients: seq<NutrientEntry>) returns (keyNutrients: seq<string>)
    ensures keyNutrients == KeyNutrients(NutrientMapOf(nutrients))
  {
    var nutrientMap := ScriptNutrientMap(nutrients);
    var important := ScriptImportant(nutrientMap);
    var extras := ScriptExtras(nutrientMap);
    keyNutrients := important + extras;
  }

  /** The loop adding the allow-listed nutrients, in the allow-list's order. */
  method ScriptImportant(nutrientMap: NutrientMap) returns (keyNutrients: seq<string>)
    ensures keyNutrients == ImportantLines(DisplayNames, nutrientMap)
  {
    keyNutrients := [];
    var k := 0;
    while k < |DisplayNames|
      invariant 0 <= k <= |DisplayNames|
      invariant keyNutrients == ImportantLines(DisplayNames[..k], nutrientMap)
    {
      var entry := DisplayNames[k];
      if HasKey(nutrientMap, entry.0) {
        var measure := nutrientMap[KeyIndex(nutrientMap, entry.0).value].1;
        keyNutrients := keyNutrients + [entry.1 + ": " + MeasureText(measure)];
      }
      assert DisplayNames[..k + 1][..k] == DisplayNames[..k];
      k := k + 1;
    }
    assert DisplayNames[..k] == DisplayNames;
  }

  /** The loop adding the nutrients among the map's first five that are not
      allow-listed. */
  method ScriptExtras(nutrientMap: NutrientMap) returns (extras: seq<string>)
    ensures extras == ExtraLines(Take(nutrientMap, 5), DisplayNames)
  {
    extras := [];
    var firstFive := Take(nutrientMap, 5);
    var p := 0;
    while p < |firstFive|
      invariant 0 <= p <= |firstFive|
      invariant extras == ExtraLines(firstFive[..p], DisplayNames)
    {
      var entry := firstFive[p];
      if !AllowListed(DisplayNames, entry.0) {
        extras := extras + [entry.0 + ": " + MeasureText(entry.1)];
      }
      assert firstFive[..p + 1][..p] == firstFive[..p];
      p := p + 1;
    }
    assert firstFive[..p] == firstFive;
  }

  /** The script's loop filling `nutrient_map`. */
  method ScriptNutrientMap(nutrients: seq<NutrientEntry>) returns (nutrientMap: NutrientMap)
    ensures nutrientMap == NutrientMapOf(nutrients)
  {
    nutrientMap := [];
    var j := 0;
    while j < |nutrients|
      invariant 0 <= j <= |nutrients|
      invariant nutrientMap == NutrientMapOf(nutrients[..j])
    {
      var nutrient := nutrients[j];
      if nutrient.amount.Some? && nutrient.amount.value.value != 0.0 && nutrient.name != "" {
        nutrientMap := Put(nutrientMap, nutrient.name, (nutrient.amount.value, nutrient.unitName));
      }
      assert nutrients[..j + 1][..j] == nutrients[..j];
      j := j + 1;
    }
    assert nutrients[..j] == nutrients;
  }

  /** On a successful search, the tool's answer is what the script's
      formatter gives for the same hits and query. */
  lemma MatchesTool(query: string, maxResults: int, search: (string, int) -> Outcome<seq<FoodHit>>, results: seq<FoodHit>)
    requires search(query, Clamp(maxResults, 1, 20)) == Returned(results)
    ensures Response(query, maxResults, search) == ResultsText(results, query)
  {
  }

  /** A hit with no category shows "Unknown category", and one with no
      description shows "Unknown". */
  lemma MissingFieldsDefault(i: nat, result: FoodHit)
    requires "category" !in result.metadata && "description" !in result.metadata
    ensures StartsWith(HitBlock(i, result),
      "\n" + NatToString(i) + ". " + "Unknown" + "\n" + "   Category: " + "Unknown category" + "\n")
  {
    UnknownHead(i, result.metadata);
    Framed(HitHead(i, result.metadata), NutrientsLine(HitNutrients(result)), "");
    assert HitHead(i, result.metadata) + NutrientsLine(HitNutrients(result)) + "" == HitBlock(i, result);
  }

  lemma UnknownHead(i: nat, metadata: map<string, string>)
    requires "category" !in metadata && "description" !in metadata
    ensures HitHead(i, metadata)
      == "\n" + NatToString(i) + ". " + "Unknown" + "\n" + "   Category: " + "Unknown category" + "\n"
  {
  }
}
