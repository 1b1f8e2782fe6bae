/** data/dietary_vector_store.py: the keyed lookup of full requirements over
    a cache of the three requirement tables that is loaded once, on first
    use. The embedding index is represented by its search function. */
module DietaryVectorStore {
  import opened Wrappers
  import opened Sorting
  import opened ProcessDietaryData

  /** What loading one configured requirements file yields: no path was
      configured, the path does not exist, opening or parsing failed, or the
      parsed table. */
  datatype TableFile = NoPath | Missing | Unreadable | Parsed(table: Table)

  /** The cache: exactly the three groups. */
  datatype Cache = Cache(minerals: Table, vitamins: Table, nutrition: Table)

  /** One search hit: the metadata stored with the matched document. */
  datatype Hit = Hit(metadata: map<string, string>)

  /** The group a file contributes to the cache: the parsed table, or `{}`
      when there is none. */
  function TableOf(f: TableFile): (t: Table)
    ensures f.Parsed? ==> t == f.table
    ensures !f.Parsed? ==> t == map[]
  {
    if f.Parsed? then f.table else map[]
  }

  /** `get_requirements_by_key` over a loaded cache: nothing when the pair's
      three groups are all empty, else the pair with its groups. */
  function Lookup(c: Cache, ageGroup: string, gender: string): (r: Option<Requirements>)
    ensures r.None? <==> !HasData(c.minerals, c.vitamins, c.nutrition, ageGroup, gender)
    ensures r.Some? ==> r.value.ageGroup == ageGroup && r.value.gender == gender
    ensures r.Some? ==> (r.value.minerals == Group(c.minerals, ageGroup, gender)
      && r.value.vitamins == Group(c.vitamins, ageGroup, gender)
      && r.value.nutrition == Group(c.nutrition, ageGroup, gender))
  {
    var minerals := Group(c.minerals, ageGroup, gender);
    var vitamins := Group(c.vitamins, ageGroup, gender);
    var nutrition := Group(c.nutrition, ageGroup, gender);
    if !(minerals != [] || vitamins != [] || nutrition != []) then None
    else Some(Requirements(ageGroup, gender, minerals, vitamins, nutrition))
  }

  /** Built from the same three tables, the lookup succeeds exactly for the
      pairs the document builder emits, and then returns that document's
      `full_data`. */
  lemma LookupMatchesDocuments(c: Cache, ageGroup: string, gender: string)
    requires gender in Genders
    ensures var pairs := Pairs(c.minerals, c.vitamins, c.nutrition, SortedListing(AgeGroups(c.minerals, c.vitamins, c.nutrition)));
      Lookup(c, ageGroup, gender).Some? <==> (ageGroup, gender) in pairs
    ensures var order := SortedListing(AgeGroups(c.minerals, c.vitamins, c.nutrition));
      var docs := Documents(c.minerals, c.vitamins, c.nutrition, order);
      Lookup(c, ageGroup, gender).Some? ==>
        exists k :: 0 <= k < |docs| && docs[k].fullData == Lookup(c, ageGroup, gender).value
  {
    var m, v, n := c.minerals, c.vitamins, c.nutrition;
    var order := SortedListing(AgeGroups(m, v, n));
    var pairs := Pairs(m, v, n, order);
    PairsOfAllTables(m, v, n, (ageGroup, gender));
    if Lookup(c, ageGroup, gender).Some? {
      var k :| 0 <= k < |pairs| && pairs[k] == (ageGroup, gender);
      DocumentsAt(m, v, n, order, k);
    }
  }

  /** The store: the configured files, the search over the index, and the
      cache (`None` until the first lookup). */
  class DietaryStore {
    const mineralFile: TableFile
    const vitaminFile: TableFile
    const nutritionFile: TableFile
    /** `search(query, n_results)`: the hits of the embedding index, or the
        exception it raised. */
    const search: (string, int) -> Outcome<seq<Hit>>
    var cache: Option<Cache>

    constructor(mineralFile: TableFile, vitaminFile: TableFile, nutritionFile: TableFile,
                search: (string, int) -> Outcome<seq<Hit>>)
      ensures this.mineralFile == mineralFile && this.vitaminFile == vitaminFile
      ensures this.nutritionFile == nutritionFile && this.search == search
      ensures cache == None
    {
      this.mineralFile := mineralFile;
      this.vitaminFile := vitaminFile;
      this.nutritionFile := nutritionFile;
      this.search := search;
      cache := None;
    }

    /** The cache the files give when loaded. */
    function FileCache(): Cache {
      Cache(TableOf(mineralFile), TableOf(vitaminFile), TableOf(nutritionFile))
    }

    /** The cache a lookup reads: the current one, or the one loading makes. */
    function LoadedCache(): Cache
      reads this
    {
      cache.GetOr(FileCache())
    }

    /** `_load_data_cache`: a loaded cache is kept as it is; otherwise every
        group starts as `{}` and takes the parsed table of its file, if any. */
    method LoadDataCache()
      modifies this`cache
      ensures old(cache).Some? ==> cache == old(cache)
      ensures old(cache).None? ==> cache == Some(FileCache())
      ensures cache == Some(old(LoadedCache()))
    {
      if cache.Some? {
        return;
      }
      var c := Cache(map[], map[], map[]);
      if mineralFile.Parsed? {
        c := c.(minerals := mineralFile.table);
      }
      if vitaminFile.Parsed? {
        c := c.(vitamins := vitaminFile.table);
      }
      if nutritionFile.Parsed? {
        c := c.(nutrition := nutritionFile.table);
      }
      cache := Some(c);
    }

    /** `get_requirements_by_key`: loads the cache if need be, then looks up. */
    method GetRequirementsByKey(ageGroup: string, gender: string) returns (r: Option<Requirements>)
      modifies this`cache
      ensures cache == Some(old(LoadedCache()))
      ensures r == Lookup(cache.value, ageGroup, gender)
    {
      LoadDataCache();
      var c := cache.value;
      var minerals := Group(c.minerals, ageGroup, gender);
      var vitamins := Group(c.vitamins, ageGroup, gender);
      var nutrition := Group(c.nutrition, ageGroup, gender);
      if !(minerals != [] || vitamins != [] || nutrition != []) {
        return None;
      }
      return Some(Requirements(ageGroup, gender, minerals, vitamins, nutrition));
    }
  }
}
