# Nutrition advisor core, in Dafny

This project models the data-processing and tool-answering core of a
nutrition-advisor agent. The agent answers questions about foods and about
dietary requirements. It does so from two embedding indexes: one over
USDA FoodData Central food items, one over dietary-requirement records keyed
by (age group, gender). It can also answer from a Tavily web search.

The model covers:

- how the dietary-requirement tables become one document per
  (age group, gender) pair (`ProcessDietaryData`), and how the store reads a
  pair's full record back from its lazily loaded cache (`DietaryVectorStore`);
- how a USDA food item becomes a searchable document, with its important
  nutrients listed first and a cap on the others (`ProcessUsdaData`);
- the three tools' `execute`:
  - the dietary-requirements tool, with its age and gender extraction, the
    exact match and the search fallback (`AgePatterns`,
    `DietaryRequirementsTool`);
  - the nutrition lookup tool (`NutritionLookupTool`) and the test script's
    copy of its formatter (`TestNutritionLookup`);
  - the Tavily web search tool (`TavilySearchTool`).

The Python operations the code relies on are written out in `Text`, `Sorting`
and `Wrappers`: `strip`, `lower`, `title`, `capitalize`, `replace`, `join`,
`in`, `split('_')[-1]`, `str`, slicing, `sorted`, `dict.get` and the
`min(max(..))` clamp.

Where the code works by appending to lists in loops, the model has a method
with that loop. The method's `ensures` ties its result to a specification
function. Lemmas then state what the source promises about that function.
Classes model the objects whose fields the code updates: the store's cache,
and the tools holding a store or a search.

Where the code's behaviour may surprise a reader:

- `_extract_gender_from_query` tests "male", "man" and "boy" first. Every
  query containing "female" or "woman" also contains "male" or "man", so
  such queries resolve to "male"; "female" comes only from "girl"
  (`DietaryRequirementsTool.ExtractGenderFemale`).
- `get_age_group` gives "75+" to every age below 1.
- Food documents are stored without `full_data`. So every hit the nutrition
  lookup tool shows for them lists no key nutrients
  (`NutritionLookupTool.StoredFoodsShowNoNutrients`).
- The food-document text has its own allow-list: 11 exact names, including
  "Vitamin A", "Calcium" and "Iron". The limit of 15 bounds only the
  additions of other nutrients. The important nutrients alone may exceed 15.

## Model

| member | source | states |
|---|---|---|
| Wrappers.Get | agents/tools/nutrition_lookup_tool.py:104 | `d.get(key, default)`: the stored value when the key is present, the default otherwise |
| Wrappers.Clamp | agents/tools/nutrition_lookup_tool.py:50 | `min(max(low, x), high)` lies in [low, high], is `x` when `x` is in range, and is the nearer bound otherwise |
| Text.TrimLeft | data/process_dietary_data.py:95 | `lstrip` leaves a suffix, drops only whitespace, and stops at a non-space |
| Text.TrimRight | data/process_dietary_data.py:95 | `rstrip` leaves a prefix, drops only whitespace, and stops at a non-space |
| Text.Strip | data/process_dietary_data.py:95 | `strip()` is no longer than its input and has no whitespace at either end |
| Text.StripSlice | data/process_dietary_data.py:95 | `strip()` is the slice of its input between a whitespace-only prefix and a whitespace-only suffix |
| Text.StripSurrounded | data/process_dietary_data.py:44 | stripping whitespace-framed text with no whitespace at its own ends gives that text back |
| Text.Lower | agents/tools/dietary_requirements_tool.py:102 | `lower()` keeps the length and lowers each character in place |
| Text.TitleFrom | agents/tools/dietary_requirements_tool.py:178 | `title()` keeps the length; a letter after a letter becomes lower case, any other letter upper case |
| Text.Capitalize | agents/tools/dietary_requirements_tool.py:170 | `capitalize()` upper-cases the first character and lowers the rest |
| Text.Replace | data/process_dietary_data.py:62 | `replace(a, b)` keeps the length and swaps exactly the occurrences of `a` |
| Text.JoinStartsWith | agents/tools/nutrition_lookup_tool.py:112 | a joined list begins with its first part |
| Text.AfterLast | data/process_dietary_data.py:60 | `split(c)[-1]` is the suffix after the last `c` and holds no `c` |
| Text.NatToString | agents/tools/nutrition_lookup_tool.py:59 | `str(n)` is a non-empty digit string that reads back as `n` |
| Text.IntToString | data/process_usda_data.py:62 | `str(i)` reads back as `i`, with a leading `-` for negatives |
| Text.IntToStringInjective | data/process_usda_data.py:62 | distinct integers give distinct strings |
| Text.Take | agents/tools/nutrition_lookup_tool.py:100 | the first `min(n, len(s))` elements, none when `n <= 0`; the source slices only with 3, 5 and 8, and the food-document cap uses it for a count that may be negative |
| Sorting.InsertSorted | data/process_dietary_data.py:133 | inserting a new element into a sorted list keeps it sorted and adds exactly that element |
| Sorting.SortedListingUnique | data/process_dietary_data.py:133 | two sorted duplicate-free listings of one set are equal |
| Sorting.SortedListing | data/process_dietary_data.py:133 | `sorted(s)` lists exactly the set, in strictly ascending order |
| Sorting.SortStrings | data/process_dietary_data.py:133 | the sorting loop returns `sorted(s)` |
| Sorting.SortedListingSize | data/process_dietary_data.py:133 | a sorted duplicate-free listing has as many entries as the set |
| ProcessDietaryData.FirstContaining | data/process_dietary_data.py:21-23 | the scan returns the first range containing the age; no range is skipped |
| ProcessDietaryData.AgeGroup | data/process_dietary_data.py:7-25 | `get_age_group` returns one of the nine labels, the label of any range holding the age, and "75+" below 1 |
| ProcessDietaryData.AgeRangesPartition | data/process_dietary_data.py:9-19 | every age of at least 1 lies in some range, no age lies in two, and no age below 1 lies in any |
| ProcessDietaryData.AgeGroupExamples | data/process_dietary_data.py:7-25 | 1 gives "1", 5 "4-6", 23 "19-64", 74 "65-74", 80 "75+" and 0 "75+" |
| ProcessDietaryData.CaseTexts | data/process_dietary_data.py:40 | a condition-dependent value gives one `"k: v"` part per case, in order |
| ProcessDietaryData.FormatWithUnit | data/process_dietary_data.py:44 | a number is shown with its unit after one space, and with no trailing space when the unit is empty |
| ProcessDietaryData.UnitOf | data/process_dietary_data.py:60 | the unit is what follows the key's last `_`, or "" when the key has none |
| ProcessDietaryData.UnitOfSuffix | data/process_dietary_data.py:60 | a key `base_unit` with no `_` in `unit` gives the unit `unit` |
| ProcessDietaryData.DisplayKey | data/process_dietary_data.py:62 | the key as shown has no `_` and agrees with the key elsewhere |
| ProcessDietaryData.KeyedLine | data/process_dietary_data.py:58-62 | under a key `base_unit`, a line is the display key and the value formatted with `unit` |
| ProcessDietaryData.AmountLine | data/process_dietary_data.py:58-62 | a number under `base_unit` reads "base unit: N unit", or "base unit: N" when the unit is empty |
| ProcessDietaryData.GroupText | data/process_dietary_data.py:57-62 | one line per entry of a group |
| ProcessDietaryData.GroupTextAt | data/process_dietary_data.py:57-62 | line `k` is the line of entry `k`: dictionary order is kept |
| ProcessDietaryData.GroupLines | data/process_dietary_data.py:57-76 | each of the three loops returns the group's lines |
| ProcessDietaryData.DocumentTextStart | data/process_dietary_data.py:79-95 | the stripped text opens with "Age group: …" and "Gender: …" |
| ProcessDietaryData.GroupsLabel | data/process_dietary_data.py:82-83 | after the blank template line comes the "Minerals" label |
| ProcessDietaryData.CreateUnifiedDocument | data/process_dietary_data.py:47-108 | the id `dietary_{age_group}_{gender}`, the stripped text, the three metadata fields, and the groups unchanged in `full_data` |
| ProcessDietaryData.GenderPairs | data/process_dietary_data.py:134-142 | an age group gives at most one document per gender |
| ProcessDietaryData.MapSnoc | data/process_dietary_data.py:146 | appending a pair appends its document |
| ProcessDietaryData.MapAppend | data/process_dietary_data.py:146 | the documents of two runs of pairs are the two runs of documents |
| ProcessDietaryData.MapAt | data/process_dietary_data.py:146 | document `k` is that of pair `k` |
| ProcessDietaryData.GenderPairsSnoc | data/process_dietary_data.py:134-142 | one more gender adds its pair exactly when it has data |
| ProcessDietaryData.PairsSnoc | data/process_dietary_data.py:133-142 | one more age group adds its gender pairs after the earlier ones |
| ProcessDietaryData.AgeGroupDocuments | data/process_dietary_data.py:134-146 | the inner loop returns the documents of the age group's pairs with data, in gender order |
| ProcessDietaryData.GenderDocument | data/process_dietary_data.py:136-146 | a pair whose three groups are all empty is skipped; any other gets its unified document |
| ProcessDietaryData.ProcessAllDietaryData | data/process_dietary_data.py:111-148 | the nested loops return the documents of the pairs with data, age groups in sorted order |
| ProcessDietaryData.PairsOfAllTables | data/process_dietary_data.py:127-142 | a pair gets a document iff its gender is male or female and one of its groups is non-empty |
| ProcessDietaryData.PairsBound | data/process_dietary_data.py:133-146 | at most two documents per age group |
| ProcessDietaryData.DocumentsBound | data/process_dietary_data.py:127-146 | over all tables, at most two documents per distinct age group |
| ProcessDietaryData.FormatNutrientValueKinds | data/process_dietary_data.py:34-44 | None shows "not specified", a string shows itself, a dict shows its "k: v" pairs joined by ", " from the first one |
| ProcessDietaryData.GenderPairsIff | data/process_dietary_data.py:134-142 | within an age group, a pair is emitted iff its gender is listed and has data |
| ProcessDietaryData.PairsIff | data/process_dietary_data.py:133-142 | a pair is emitted iff its age group is visited, its gender is listed and it has data |
| ProcessDietaryData.GenderPairsOrdered | data/process_dietary_data.py:134 | within an age group, documents follow the order of the genders |
| ProcessDietaryData.PairsOrdered | data/process_dietary_data.py:133-134 | documents come in ascending age-group order, "male" before "female" within one |
| ProcessDietaryData.DocumentsAt | data/process_dietary_data.py:91-107 | document `k` carries the id and exactly the three groups of pair `k` |
| ProcessDietaryData.MaleFemaleIdsDiffer | data/process_dietary_data.py:91 | a male id never equals a female id |
| ProcessDietaryData.DocumentIdInjective | data/process_dietary_data.py:91 | equal ids mean equal (age group, gender) pairs |
| ProcessDietaryData.DocumentIdsDistinct | data/process_dietary_data.py:91-146 | the documents' ids are pairwise distinct |
| DietaryVectorStore.TableOf | data/dietary_vector_store.py:105-133 | a file that is missing or fails to parse leaves its group `{}` |
| DietaryVectorStore.Lookup | data/dietary_vector_store.py:142-155 | None iff the three groups are all empty; otherwise the pair and its three cached groups unchanged |
| DietaryVectorStore.LookupMatchesDocuments | data/dietary_vector_store.py:142-155 | from the same tables, the lookup succeeds exactly for the pairs that get documents, and returns that document's `full_data` |
| DietaryVectorStore.DietaryStore.constructor | data/dietary_vector_store.py:35-38 | the store starts with the file paths and no cache |
| DietaryVectorStore.DietaryStore.LoadDataCache | data/dietary_vector_store.py:100-133 | a loaded cache is left alone; otherwise the cache becomes the files' tables |
| DietaryVectorStore.DietaryStore.GetRequirementsByKey | data/dietary_vector_store.py:135-155 | loads the cache once, then returns the lookup on it |
| AgePatterns.DigitRunEnd | agents/tools/dietary_requirements_tool.py:94-98 | `\d+` takes the longest run of digits |
| AgePatterns.DigitsThenWords | agents/tools/dietary_requirements_tool.py:94 | a match of `(\d+)[-\s]year[-\s]old` captures a digit string at the match |
| AgePatterns.WordThenDigits | agents/tools/dietary_requirements_tool.py:95-96 | a match of `age[-\s](\d+)` or `aged[-\s](\d+)` captures a digit string |
| AgePatterns.BoundedDigits | agents/tools/dietary_requirements_tool.py:98 | a match of `\b(\d+)\b` captures a digit string at the match |
| AgePatterns.MatchAt | agents/tools/dietary_requirements_tool.py:93-99 | any of the five patterns captures a digit string |
| AgePatterns.LeftmostFrom | agents/tools/dietary_requirements_tool.py:102 | the scan finds the leftmost match position, and none is skipped |
| AgePatterns.Search | agents/tools/dietary_requirements_tool.py:102 | `re.search` fails iff no position matches, and otherwise returns the capture at the leftmost matching position |
| DietaryRequirementsTool.PatternAge | agents/tools/dietary_requirements_tool.py:102-105 | a match gives `int(group(1))`, never negative |
| DietaryRequirementsTool.PatternAges | agents/tools/dietary_requirements_tool.py:101-105 | one candidate age per pattern, in pattern order |
| DietaryRequirementsTool.FirstAccepted | agents/tools/dietary_requirements_tool.py:101-111 | an accepted age lies in 1..120 |
| DietaryRequirementsTool.FirstAcceptedIsFirst | agents/tools/dietary_requirements_tool.py:101-111 | None iff no pattern gives an age in 1..120; otherwise the age of the first pattern that does |
| DietaryRequirementsTool.ExtractAge | agents/tools/dietary_requirements_tool.py:90-111 | the extracted age, when there is one, lies in 1..120 |
| DietaryRequirementsTool.ExtractGender | agents/tools/dietary_requirements_tool.py:113-120 | "male" iff the lowered query contains "male", "man" or "boy" |
| DietaryRequirementsTool.MaleWordsInside | agents/tools/dietary_requirements_tool.py:116-118 | "female" contains "male" and "woman" contains "man" |
| DietaryRequirementsTool.ExtractGenderFemale | agents/tools/dietary_requirements_tool.py:113-120 | "woman" or "female" gives "male"; "female" iff "girl" and none of the male words; None iff none of the words |
| DietaryRequirementsTool.LeftmostSkips | agents/tools/dietary_requirements_tool.py:102 | a pattern opening with `\d+` cannot match where no digit stands, so the scan moves past |
| DietaryRequirementsTool.ExtractAgeExample | agents/tools/dietary_requirements_tool.py:90-111 | "requirements for 30-year-old male" gives the age 30 |
| DietaryRequirementsTool.YearOldExample | agents/tools/dietary_requirements_tool.py:94-105 | the first pattern captures "30" in "requirements for 30-year-old male" |
| DietaryRequirementsTool.ExtractGenderWomanExample | agents/tools/dietary_requirements_tool.py:113-120 | "a 30 year old woman" is read as "male" |
| DietaryRequirementsTool.ExtractGenderGirlExample | agents/tools/dietary_requirements_tool.py:113-120 | "a 12 year old girl" is read as "female" |
| DietaryRequirementsTool.FormatValueAgreesWithDocument | agents/tools/dietary_requirements_tool.py:122-137 | the tool formats values as the document builder does, except for a trailing space under a key ending in `_` |
| DietaryRequirementsTool.EntryLines | agents/tools/dietary_requirements_tool.py:176-179 | line `k` is "  - ", entry `k`'s key titled, ": " and its value formatted under that key |
| DietaryRequirementsTool.Section | agents/tools/dietary_requirements_tool.py:174-179 | an empty group gives no section; otherwise the heading, then entry `k`'s line at position `k + 1` |
| DietaryRequirementsTool.ExactParts | agents/tools/dietary_requirements_tool.py:169-195 | the exact answer opens with its header line, then one part per heading of a non-empty group and per entry |
| DietaryRequirementsTool.ExactPartsLayout | agents/tools/dietary_requirements_tool.py:169-195 | after the header come the minerals, vitamins and nutrition sections in that order, each empty when its group is, each its heading then its entries' lines (`Section`) |
| DietaryRequirementsTool.TitledKeys | agents/tools/dietary_requirements_tool.py:220 | key `i` is shown title-cased with spaces |
| DietaryRequirementsTool.KeyLine | agents/tools/dietary_requirements_tool.py:218-224 | the heading, then the titled keys of the group's first three entries (fewer if it has fewer) joined by ", " |
| DietaryRequirementsTool.KeyLines | agents/tools/dietary_requirements_tool.py:218-224 | a minerals line iff there are minerals, first, and a vitamins line iff there are vitamins, last |
| DietaryRequirementsTool.FoundKeyLines | agents/tools/dietary_requirements_tool.py:212-226 | no key lines without full data; with it, a minerals line iff there are minerals and a vitamins line iff there are vitamins, in that order |
| DietaryRequirementsTool.ExactMatch | agents/tools/dietary_requirements_tool.py:158-161 | an exact match needs a non-zero age and a non-empty gender |
| DietaryRequirementsTool.ExactMatchFirst | agents/tools/dietary_requirements_tool.py:167-197 | with an exact match the answer is the exact section list, opening "Dietary Requirements for " and naming the age group |
| DietaryRequirementsTool.GivenHintsWin | agents/tools/dietary_requirements_tool.py:152-197 | with both hints given and a match, the answer depends neither on the query nor on the hits |
| DietaryRequirementsTool.NoHitsMessage | agents/tools/dietary_requirements_tool.py:200-201 | no match and no hits give the fixed message |
| DietaryRequirementsTool.HitsListed | agents/tools/dietary_requirements_tool.py:204 | no match and some hits give the "Found n result(s)" header first |
| DietaryRequirementsTool.SearchErrorWins | agents/tools/dietary_requirements_tool.py:230-231 | a failing search gives the error message |
| DietaryRequirementsTool.HitPartsShape | agents/tools/dietary_requirements_tool.py:206-226 | each hit gives one to three lines, the first numbered, key lines only when it has data |
| DietaryRequirementsTool.HitsPartsSnoc | agents/tools/dietary_requirements_tool.py:206 | hit `i` is listed with number `i + 1` after the earlier ones |
| DietaryRequirementsTool.DietaryRequirementsTool.constructor | agents/tools/dietary_requirements_tool.py:69-70 | the tool keeps the store it is given |
| DietaryRequirementsTool.DietaryRequirementsTool.FormatSection | agents/tools/dietary_requirements_tool.py:174-179 | the section loop returns the section |
| DietaryRequirementsTool.DietaryRequirementsTool.Execute | agents/tools/dietary_requirements_tool.py:139-231 | `execute` returns the modelled response, and the cache is at most loaded |
| DietaryRequirementsTool.DietaryRequirementsTool.LookupExact | agents/tools/dietary_requirements_tool.py:158-161 | the exact lookup runs only with both age and gender known |
| DietaryRequirementsTool.DietaryRequirementsTool.FormatExact | agents/tools/dietary_requirements_tool.py:169-197 | the exact answer joins its parts with newlines |
| DietaryRequirementsTool.DietaryRequirementsTool.SummariseHits | agents/tools/dietary_requirements_tool.py:200-228 | the fallback answer from the hits |
| DietaryRequirementsTool.DietaryRequirementsTool.SummaryLines | agents/tools/dietary_requirements_tool.py:206-226 | the loop over the hits returns their lines, numbered from 1 |
| DietaryRequirementsTool.DietaryRequirementsTool.SummariseHit | agents/tools/dietary_requirements_tool.py:207-226 | one hit's lines, after looking up its full record |
| ProcessUsdaData.CategoryText | data/process_usda_data.py:20-21 | the category is "" unless `foodCategory` is an object, and then its description or "" |
| ProcessUsdaData.Picked | data/process_usda_data.py:35-50 | the picked entries are kept entries of the class, in ascending catalogue order |
| ProcessUsdaData.PickedComplete | data/process_usda_data.py:35-50 | every kept entry of the class is picked |
| ProcessUsdaData.LinesPicked | data/process_usda_data.py:35-41 | line `j` of a pass is the line of the `j`-th picked entry |
| ProcessUsdaData.SecondPassTakes | data/process_usda_data.py:44-50 | the second loop adds the first other lines until the list holds 15, then nothing |
| ProcessUsdaData.NutrientTextShape | data/process_usda_data.py:35-50 | important lines, then other lines up to 15 in all; nothing added when the important ones reach 15 |
| ProcessUsdaData.ImportantLinesFirst | data/process_usda_data.py:35-41 | every kept important nutrient is listed first, in catalogue order |
| ProcessUsdaData.OtherLinesAfter | data/process_usda_data.py:44-50 | every later line is a kept other nutrient, in catalogue order; zero or missing amounts never appear |
| ProcessUsdaData.OtherLineAt | data/process_usda_data.py:44-50 | one line after the important ones is the matching kept other nutrient |
| ProcessUsdaData.LinesFromPicked | data/process_usda_data.py:35-50 | where each line of the combined list comes from |
| ProcessUsdaData.FoodDocumentOf | data/process_usda_data.py:61-72 | the id is `str(fdcId)`; the metadata holds exactly the id, description, class and category |
| ProcessUsdaData.FoodTextStart | data/process_usda_data.py:53-63 | the stripped text opens with "Food: …" and "Category: …" |
| ProcessUsdaData.FoodIdsDistinct | data/process_usda_data.py:62 | items with different ids get documents with different ids |
| ProcessUsdaData.ImportantPass | data/process_usda_data.py:35-41 | the first loop returns the important lines |
| ProcessUsdaData.OtherPass | data/process_usda_data.py:44-50 | the second loop returns the capped other lines after the first ones |
| ProcessUsdaData.CreateDocument | data/process_usda_data.py:14-72 | `create_document` returns the item's document |
| ProcessUsdaData.FoodDocuments | data/process_usda_data.py:75-85 | one document per item |
| ProcessUsdaData.FoodDocumentsAt | data/process_usda_data.py:81-83 | document `k` is that of item `k`: input order is kept |
| ProcessUsdaData.ProcessAllFoods | data/process_usda_data.py:75-85 | the loop returns the items' documents |
| NutritionLookupTool.KeyIndex | agents/tools/nutrition_lookup_tool.py:95-96 | the position of a key, and None iff the map lacks it |
| NutritionLookupTool.Put | agents/tools/nutrition_lookup_tool.py:91 | assignment keeps keys distinct; an existing key keeps its place and takes the value, a new key goes last |
| NutritionLookupTool.NutrientMapOf | agents/tools/nutrition_lookup_tool.py:86-91 | the map has distinct keys |
| NutritionLookupTool.NutrientMapKeys | agents/tools/nutrition_lookup_tool.py:86-91 | a name is a key iff some entry with that name has a non-zero amount |
| NutritionLookupTool.NutrientMapLastWins | agents/tools/nutrition_lookup_tool.py:86-91 | a name's value is that of its last usable entry |
| NutritionLookupTool.ImportantLines | agents/tools/nutrition_lookup_tool.py:94-97 | at most one line per allow-listed name |
| NutritionLookupTool.ExtraLines | agents/tools/nutrition_lookup_tool.py:100-102 | at most one extra line per map entry looked at |
| NutritionLookupTool.AllowListOrder | agents/tools/nutrition_lookup_tool.py:94-97 | allow-listed nutrients come in allow-list order |
| NutritionLookupTool.ImportantLinesPrefix | agents/tools/nutrition_lookup_tool.py:94-97 | the lines of the first `k` names lead the lines of all names |
| NutritionLookupTool.ImportantLinesGrow | agents/tools/nutrition_lookup_tool.py:94-97 | more names give at least as many lines |
| NutritionLookupTool.ImportantLinesAt | agents/tools/nutrition_lookup_tool.py:94-97 | a present name's line follows the lines of the names before it |
| NutritionLookupTool.ExtraLinesFrom | agents/tools/nutrition_lookup_tool.py:100-102 | each extra line is a looked-at entry not on the allow-list |
| NutritionLookupTool.KeyNutrientsBound | agents/tools/nutrition_lookup_tool.py:100-109 | at most five extras, all from the first five map entries and off the allow-list, and at most eight shown |
| NutritionLookupTool.HitBlocks | agents/tools/nutrition_lookup_tool.py:61-110 | one block per hit |
| NutritionLookupTool.HitBlocksAt | agents/tools/nutrition_lookup_tool.py:61 | hit `i` gets number `i + 1` |
| NutritionLookupTool.ResponseCases | agents/tools/nutrition_lookup_tool.py:50-115 | 1 to 20 results asked; no hits give the fixed message, some the counting header, an error the error message |
| NutritionLookupTool.StoredFoodsShowNoNutrients | agents/tools/nutrition_lookup_tool.py:63-66 | a hit on a stored food document shows no nutrients, and shows the stored category |
| NutritionLookupTool.EmptyMapNoImportantLines | agents/tools/nutrition_lookup_tool.py:94-97 | an empty map gives no allow-listed lines |
| NutritionLookupTool.NutritionLookupTool.constructor | agents/tools/nutrition_lookup_tool.py:36-44 | the tool keeps the search it is given |
| NutritionLookupTool.NutritionLookupTool.Execute | agents/tools/nutrition_lookup_tool.py:46-115 | `execute` returns the modelled response |
| NutritionLookupTool.NutritionLookupTool.FormatResults | agents/tools/nutrition_lookup_tool.py:55-112 | the loop over the hits returns the answer |
| NutritionLookupTool.NutritionLookupTool.FormatHit | agents/tools/nutrition_lookup_tool.py:62-110 | one hit's block |
| NutritionLookupTool.NutritionLookupTool.BuildNutrientMap | agents/tools/nutrition_lookup_tool.py:86-91 | the loop builds the nutrient map |
| NutritionLookupTool.NutritionLookupTool.KeyNutrientLines | agents/tools/nutrition_lookup_tool.py:94-102 | the two loops build the key nutrients |
| TestNutritionLookup.FormatNutritionResults | test_nutrition_lookup.py:16-75 | the script's formatter gives the tool's answer on the same hits |
| TestNutritionLookup.MatchesTool | test_nutrition_lookup.py:16-75 | on a successful search the tool answers what the script's formatter gives |
| TestNutritionLookup.FormatResult | test_nutrition_lookup.py:23-73 | the loop body builds the same block for a hit as the tool does |
| TestNutritionLookup.ScriptKeyNutrients | test_nutrition_lookup.py:45-65 | the script's loops give the tool's key nutrients |
| TestNutritionLookup.ScriptNutrientMap | test_nutrition_lookup.py:48-54 | the map keeps the last amount of each named nutrient with a non-zero amount |
| TestNutritionLookup.ScriptImportant | test_nutrition_lookup.py:57-60 | the allow-listed nutrients present, in the allow-list's order |
| TestNutritionLookup.ScriptExtras | test_nutrition_lookup.py:63-65 | among the map's first five entries, those not allow-listed |
| TestNutritionLookup.MissingFieldsDefault | test_nutrition_lookup.py:67-73 | a hit with no description and no category shows "Unknown" and "Unknown category" |
| TavilySearchTool.Preview | agents/tools/tavily_search_tool.py:95 | content of up to 500 characters is kept; longer content becomes its first 500 characters and "..." |
| TavilySearchTool.ResultLinesShape | agents/tools/tavily_search_tool.py:85-96 | a result gives its heading, title and URL lines, and a content line iff it has content |
| TavilySearchTool.ResultsLines | agents/tools/tavily_search_tool.py:85-96 | three or four lines per result |
| TavilySearchTool.ResultsLinesPrefix | agents/tools/tavily_search_tool.py:85-96 | the lines of the first `k` results lead the lines of all |
| TavilySearchTool.ResultBlockAt | agents/tools/tavily_search_tool.py:85-96 | result `k` has its lines, numbered `k + 1`, right after the earlier results' lines |
| TavilySearchTool.BlankQueryRefused | agents/tools/tavily_search_tool.py:66-67 | an empty or blank query is refused, whatever the search |
| TavilySearchTool.BlankStrips | agents/tools/tavily_search_tool.py:66 | a blank query strips to "" |
| TavilySearchTool.SearchSeesStrippedQuery | agents/tools/tavily_search_tool.py:69-75 | only the stripped query and the clamped count reach the search |
| TavilySearchTool.ResponseCases | agents/tools/tavily_search_tool.py:78-102 | an error gives the error message, no results the fixed message, some results the counting header |
| TavilySearchTool.TavilySearchTool.constructor | agents/tools/tavily_search_tool.py:45-50 | the tool keeps the search it is given |
| TavilySearchTool.TavilySearchTool.Execute | agents/tools/tavily_search_tool.py:62-102 | `execute` returns the modelled response |
| TavilySearchTool.TavilySearchTool.FormatResults | agents/tools/tavily_search_tool.py:85-96 | the loop over the results returns their lines |
| TavilySearchTool.TavilySearchTool.FormatResult | agents/tools/tavily_search_tool.py:86-96 | one result's lines |

## Left out

- Embedding, vector search and the ChromaDB collections (data/vector_store.py, the `add_documents` and `search` methods of data/dietary_vector_store.py). Every search is a function parameter, from query and count to hits or an exception message.
- File and JSON I/O. The parsed tables and food lists are inputs, and a file that is missing or fails to parse is one `TableFile` case. JSON values of other shapes than those modelled are not modelled: non-dict groups, non-string metadata, non-string result fields.
- Printing, `async`, the tool classes' name, description and parameter schemas, and the pydantic base class.
- The lazy `vector_store` and `client` properties, and the API-key checks. The constructors always set these fields, so the lazy branches never run after construction.
- Exceptions other than those a search raises: a `KeyError` on a malformed hit, or a failure inside formatting.
- Regular expressions are modelled only for the five age patterns, on ASCII digits, with `\w` and `\b` on ASCII letters only. Casing (`lower`, `title`, `capitalize`) is modelled for ASCII letters only.
- AgePatterns.BoundedDigits: `\b` counts only ASCII letters, ASCII digits and `_` as word characters, where Python counts every Unicode letter and digit. So a number right after a non-ASCII letter ("café30") matches in the model but not in the source. Python's Unicode character classes are not modelled.
- Numbers are modelled as a value together with the text `str()` gives for it. The float formatting itself is not modelled.
- DietaryRequirementsTool.DietaryRequirementsTool.Execute: stated against the cache as loaded before the call, not step by step.
- TestNutritionLookup: the script's driver `test_nutrition_lookup`, which prints results from a live index, is not modelled.
- NutritionLookupTool.StoredHit: the numeric `fdc_id` of the stored metadata is not carried, since the tool never reads it.
