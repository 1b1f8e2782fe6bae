/** data/process_usda_data.py: one searchable document per USDA food item,
    its text listing the important nutrients first and then a capped number
    of the others. */
module ProcessUsdaData {
  import opened Wrappers
  import opened Text
  import opened ProcessDietaryData

  /** One entry of `foodNutrients`: the nutrient's name and unit (`''` when
      missing) and its amount (`None` when missing or null). */
  datatype NutrientEntry = NutrientEntry(name: string, unitName: string, amount: Option<Number>)

  /** `foodCategory`: missing (so `{}`), an object with or without a
      `description`, or some other value. */
  datatype Category = NoCategory | CategoryObject(description: Option<string>) | CategoryValue

  /** A food item; a missing `description` or `foodClass` reads as `''`, a
      missing `foodNutrients` as `[]`. */
  datatype FoodItem = FoodItem(fdcId: Option<int>, description: string, foodClass: string,
                               foodCategory: Category, foodNutrients: seq<NutrientEntry>)

  /** The metadata stored with a food document: these four fields and no
      others. */
  datatype FoodMetadata = FoodMetadata(fdcId: Option<int>, description: string, foodClass: string, category: string)

  datatype FoodDocument = FoodDocument(id: string, text: string, metadata: FoodMetadata)

  /** The names listed first, in the order of `foodNutrients`. */
  const ImportantNutrients: seq<string> := [
    "Energy", "Protein", "Total lipid (fat)", "Carbohydrate, by difference",
    "Fiber, total dietary", "Calcium", "Iron", "Vitamin C", "Vitamin A",
    "Sodium", "Sugars, total including NLEA"]

  /** At most this many lines once the other nutrients are added. */
  const OtherNutrientsCap := 15

  /** The category description: only an object's `description` gives one. */
  function CategoryText(c: Category): (r: string)
    ensures !c.CategoryObject? ==> r == ""
    ensures c.CategoryObject? ==> r == c.description.GetOr("")
  {
    match c
    case CategoryObject(d) => d.GetOr("")
    case _ => ""
  }

  /** `str(fdc_id)`, with `''` for a missing id. */
  function IdText(fdcId: Option<int>): string {
    if fdcId.Some? then IntToString(fdcId.value) else ""
  }

  /** An amount that is present and not zero. */
  predicate Kept(e: NutrientEntry) {
    e.amount.Some? && e.amount.value.value != 0.0
  }

  function EntryLine(e: NutrientEntry): string
    requires e.amount.Some?
  {
    e.name + ": " + e.amount.value.shown + " " + e.unitName
  }

  /** The two passes: the important nutrients, then the others. */
  datatype Class = Important | Other

  predicate InClass(e: NutrientEntry, c: Class) {
    if c == Important then e.name in ImportantNutrients else e.name !in ImportantNutrients
  }

  /** The indices of the entries of class `c` whose amount is kept, in
      increasing order. */
  function Picked(ns: seq<NutrientEntry>, c: Class): (p: seq<nat>)
    ensures forall j :: 0 <= j < |p| ==> p[j] < |ns| && InClass(ns[p[j]], c) && Kept(ns[p[j]])
    ensures forall j, j' :: 0 <= j < j' < |p| ==> p[j] < p[j']
  {
    if ns == [] then []
    else
      var prev := Picked(ns[..|ns| - 1], c);
      if InClass(ns[|ns| - 1], c) && Kept(ns[|ns| - 1]) then prev + [|ns| - 1] else prev
  }

  /** No kept entry of the class is missed. */
  lemma {:induction false} PickedComplete(ns: seq<NutrientEntry>, c: Class, k: nat)
    requires k < |ns| && InClass(ns[k], c) && Kept(ns[k])
    ensures k in Picked(ns, c)
  {
    if k < |ns| - 1 {
      var init := ns[..|ns| - 1];
      assert init[k] == ns[k];
      PickedComplete(init, c, k);
    }
  }

  /** One pass over the entries: the line of every entry of class `c` whose amount
      is kept. */
  function Lines(ns: seq<NutrientEntry>, c: Class): seq<string> {
    if ns == [] then []
    else
      var prev := Lines(ns[..|ns| - 1], c);
      var e := ns[|ns| - 1];
      if InClass(e, c) && Kept(e) then prev + [EntryLine(e)] else prev
  }

  /** The lines of a pass are the lines of the picked entries. */
  lemma {:induction false} LinesPicked(ns: seq<NutrientEntry>, c: Class)
    ensures |Lines(ns, c)| == |Picked(ns, c)|
    ensures forall j :: 0 <= j < |Picked(ns, c)| ==>
      Lines(ns, c)[j] == EntryLine(ns[Picked(ns, c)[j]])
  {
    if ns != [] {
      var init := ns[..|ns| - 1];
      LinesPicked(init, c);
      var p := Picked(init, c);
      forall j | 0 <= j < |p|
        ensures ns[p[j]] == init[p[j]]
      {
      }
    }
  }

  /** The second loop as written: an entry that is not important is added
      while the list, read afresh each time, holds fewer than 15 lines. */
  function SecondPass(ns: seq<NutrientEntry>, first: seq<string>): seq<string> {
    if ns == [] then first
    else
      var prev := SecondPass(ns[..|ns| - 1], first);
      var e := ns[|ns| - 1];
      if InClass(e, Other) && |prev| < OtherNutrientsCap && Kept(e) then prev + [EntryLine(e)] else prev
  }

  /** The nutrient lines of a food: both passes. */
  function NutrientText(ns: seq<NutrientEntry>): seq<string> {
    SecondPass(ns, Lines(ns, Important))
  }

  /** As the list only grows, the second pass adds the first of the other
      kept lines until the list holds 15, and nothing after. */
  lemma {:induction false} SecondPassTakes(ns: seq<NutrientEntry>, first: seq<string>)
    ensures SecondPass(ns, first) == first + Take(Lines(ns, Other), OtherNutrientsCap - |first|)
  {
    if ns != [] {
      var init := ns[..|ns| - 1];
      SecondPassTakes(init, first);
      var others := Lines(init, Other);
      var q := OtherNutrientsCap - |first|;
      var e := ns[|ns| - 1];
      if InClass(e, Other) && Kept(e) {
        var taken := Take(others, q);
        if |first| + |taken| < OtherNutrientsCap {
          assert taken == others;
          assert Take(others + [EntryLine(e)], q) == others + [EntryLine(e)];
        } else {
          assert Take(others + [EntryLine(e)], q) == taken;
        }
      }
    }
  }

  /** The nutrient lines are the important lines, then the first of the
      other lines while the total stays within 15; an important list of 15
      or more gets nothing added. */
  lemma NutrientTextShape(ns: seq<NutrientEntry>)
    ensures var important := Lines(ns, Important);
      NutrientText(ns) == important + Take(Lines(ns, Other), OtherNutrientsCap - |important|)
    ensures var important := Lines(ns, Important);
      |important| < OtherNutrientsCap ==> |NutrientText(ns)| <= OtherNutrientsCap
    ensures var important := Lines(ns, Important);
      |important| >= OtherNutrientsCap ==> NutrientText(ns) == important
  {
    SecondPassTakes(ns, Lines(ns, Important));
  }

  /** Where each important line comes from: line `j` is the `j`-th kept
      important entry in catalogue order (see `Picked`), so every kept
      important entry is listed, and first. */
  lemma ImportantLinesFirst(ns: seq<NutrientEntry>)
    ensures |Picked(ns, Important)| <= |NutrientText(ns)| <= |Picked(ns, Important)| + |Picked(ns, Other)|
    ensures var important := Picked(ns, Important);
      forall j :: 0 <= j < |important| ==> NutrientText(ns)[j] == EntryLine(ns[important[j]])
  {
    var important := Lines(ns, Important);
    var others := Lines(ns, Other);
    SecondPassTakes(ns, important);
    LinesPicked(ns, Important);
    LinesPicked(ns, Other);
    LinesFromPicked(ns, NutrientText(ns), important, others, Picked(ns, Important), Picked(ns, Other));
  }

  /** Where each later line comes from: line `|important| + j` is the `j`-th
      kept other entry in catalogue order (see `Picked`). So every line
      after the important ones is an other nutrient, and zero or missing
      amounts never appear. */
  lemma OtherLinesAfter(ns: seq<NutrientEntry>)
    ensures |NutrientText(ns)| <= |Picked(ns, Important)| + |Picked(ns, Other)|
    ensures forall j :: |Picked(ns, Important)| <= j < |NutrientText(ns)| ==>
      NutrientText(ns)[j] == EntryLine(ns[Picked(ns, Other)[j - |Picked(ns, Important)|]])
  {
    ImportantLinesFirst(ns);
    forall j | |Picked(ns, Important)| <= j < |NutrientText(ns)|
      ensures NutrientText(ns)[j] == EntryLine(ns[Picked(ns, Other)[j - |Picked(ns, Important)|]])
    {
      OtherLineAt(ns, j);
    }
  }

  /** One line after the important ones. */
  lemma OtherLineAt(ns: seq<NutrientEntry>, j: nat)
    requires |Picked(ns, Important)| <= j < |NutrientText(ns)|
    ensures j - |Picked(ns, Important)| < |Picked(ns, Other)|
    ensures NutrientText(ns)[j] == EntryLine(ns[Picked(ns, Other)[j - |Picked(ns, Important)|]])
  {
    var important := Lines(ns, Important);
    var others := Lines(ns, Other);
    var k := j - |Picked(ns, Important)|;
    assert |important| == |Picked(ns, Important)| && |others| == |Picked(ns, Other)| by {
      LinesPicked(ns, Important);
      LinesPicked(ns, Other);
    }
    var taken := Take(others, OtherNutrientsCap - |important|);
    assert NutrientText(ns) == important + taken by {
      SecondPassTakes(ns, important);
    }
    assert NutrientText(ns)[j] == others[k];
    LinesPicked(ns, Other);
  }

  /** The index bookkeeping behind the two lemmas above. */
  lemma LinesFromPicked(ns: seq<NutrientEntry>, r: seq<string>, important: seq<string>, others: seq<string>,
                        pi: seq<nat>, po: seq<nat>)
    requires r == important + Take(others, OtherNutrientsCap - |important|)
    requires |important| == |pi| && |others| == |po|
    requires forall j :: 0 <= j < |pi| ==> pi[j] < |ns| && ns[pi[j]].amount.Some? && important[j] == EntryLine(ns[pi[j]])
    requires forall j :: 0 <= j < |po| ==> po[j] < |ns| && ns[po[j]].amount.Some? && others[j] == EntryLine(ns[po[j]])
    ensures |pi| <= |r| <= |pi| + |po|
    ensures forall j :: 0 <= j < |pi| ==> r[j] == EntryLine(ns[pi[j]])
    ensures forall j :: |pi| <= j < |r| ==> r[j] == EntryLine(ns[po[j - |pi|]])
  {
    var taken := Take(others, OtherNutrientsCap - |important|);
    forall j | |pi| <= j < |r|
      ensures r[j] == EntryLine(ns[po[j - |pi|]])
    {
      assert r[j] == taken[j - |pi|];
    }
  }

  /** The document text before `strip()`, opening with an indent. */
  function FoodHead(description: string, category: string): string {
    "Food: " + description + "\n    Category: " + category
  }

  function FoodRest(foodClass: string, id: string, nutrients: seq<string>): string {
    "\n    Food Class: " + foodClass + "\n    FDC ID: " + id + "\n    Nutrients: " + Join(nutrients, ", ") + "\n    "
  }

  function FoodText(item: FoodItem): string {
    Strip("\n    " + (FoodHead(item.description, CategoryText(item.foodCategory))
      + FoodRest(item.foodClass, IdText(item.fdcId), NutrientText(item.foodNutrients))))
  }

  /** `create_document`. */
  function FoodDocumentOf(item: FoodItem): (doc: FoodDocument)
    ensures doc.id == IdText(item.fdcId)
    ensures doc.metadata == FoodMetadata(item.fdcId, item.description, item.foodClass, CategoryText(item.foodCategory))
  {
    FoodDocument(IdText(item.fdcId), FoodText(item),
                 FoodMetadata(item.fdcId, item.description, item.foodClass, CategoryText(item.foodCategory)))
  }

  /** The text opens with the food's description and category. */
  lemma FoodTextStart(item: FoodItem)
    ensures StartsWith(FoodDocumentOf(item).text,
                       "Food: " + item.description + "\n    Category: " + CategoryText(item.foodCategory))
  {
    var head := FoodHead(item.description, CategoryText(item.foodCategory));
    var rest := FoodRest(item.foodClass, IdText(item.fdcId), NutrientText(item.foodNutrients));
    assert head[0] == 'F';
    assert rest[5] == 'F';
    StripAfterIndent("\n    ", head + rest);
    TrimRightKeepsHead(head, rest, 5);
  }

  /** Items with different ids get documents with different ids; an item
      without an id gets `''`, which no numeric id gives. */
  lemma FoodIdsDistinct(a: FoodItem, b: FoodItem)
    requires a.fdcId != b.fdcId
    ensures FoodDocumentOf(a).id != FoodDocumentOf(b).id
  {
    if a.fdcId.Some? && b.fdcId.Some? && IdText(a.fdcId) == IdText(b.fdcId) {
      IntToStringInjective(a.fdcId.value, b.fdcId.value);
    }
  }

  /** The first loop: the important nutrients. */
  method ImportantPass(ns: seq<NutrientEntry>) returns (lines: seq<string>)
    ensures lines == Lines(ns, Important)
  {
    lines := [];
    var i := 0;
    while i < |ns|
      invariant 0 <= i <= |ns|
      invariant lines == Lines(ns[..i], Important)
    {
      var e := ns[i];
      if e.name in ImportantNutrients {
        if e.amount.Some? && e.amount.value.value != 0.0 {
          lines := lines + [e.name + ": " + e.amount.value.shown + " " + e.unitName];
        }
      }
      assert ns[..i + 1][..i] == ns[..i];
      i := i + 1;
    }
    assert ns[..i] == ns;
  }

  /** The second loop: the other nutrients, while the list is short. */
  method OtherPass(ns: seq<NutrientEntry>, first: seq<string>) returns (lines: seq<string>)
    ensures lines == SecondPass(ns, first)
  {
    lines := first;
    var i := 0;
    while i < |ns|
      invariant 0 <= i <= |ns|
      invariant lines == SecondPass(ns[..i], first)
    {
      var e := ns[i];
      if e.name !in ImportantNutrients && |lines| < 15 {
        if e.amount.Some? && e.amount.value.value != 0.0 {
          lines := lines + [e.name + ": " + e.amount.value.shown + " " + e.unitName];
        }
      }
      assert ns[..i + 1][..i] == ns[..i];
      i := i + 1;
    }
    assert ns[..i] == ns;
  }

  /** `create_document`. */
  method CreateDocument(item: FoodItem) returns (doc: FoodDocument)
    ensures doc == FoodDocumentOf(item)
  {
    var category := CategoryText(item.foodCategory);
    var important := ImportantPass(item.foodNutrients);
    var lines := OtherPass(item.foodNutrients, important);
    var text := "\n    " + (FoodHead(item.description, category) + FoodRest(item.foodClass, IdText(item.fdcId), lines));
    doc := FoodDocument(IdText(item.fdcId), Strip(text),
                        FoodMetadata(item.fdcId, item.description, item.foodClass, category));
  }

  /** The documents of the items, in order. */
  function FoodDocuments(foods: seq<FoodItem>): (docs: seq<FoodDocument>)
    ensures |docs| == |foods|
  {
    if foods == [] then [] else FoodDocuments(foods[..|foods| - 1]) + [FoodDocumentOf(foods[|foods| - 1])]
  }

  /** One document per item, in order: document `k` is that of item `k`. */
  lemma {:induction false} FoodDocumentsAt(foods: seq<FoodItem>, k: nat)
    requires k < |foods|
    ensures FoodDocuments(foods)[k] == FoodDocumentOf(foods[k])
  {
    if k < |foods| - 1 {
      FoodDocumentsAt(foods[..|foods| - 1], k);
    }
  }

  /** `process_all_foods` on the parsed `FoundationFoods` list. */
  method ProcessAllFoods(foods: seq<FoodItem>) returns (docs: seq<FoodDocument>)
    ensures docs == FoodDocuments(foods)
  {
    docs := [];
    var i := 0;
    while i < |foods|
      invariant 0 <= i <= |foods|
      invariant docs == FoodDocuments(foods[..i])
    {
      var doc := CreateDocument(foods[i]);
      assert foods[..i + 1][..i] == foods[..i];
      docs := docs + [doc];
      i := i + 1;
    }
    assert foods[..i] == foods;
  }
}
