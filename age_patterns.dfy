/** The five regular expressions the dietary requirements tool tries when it
    looks for an age in a query, matched by hand the way Python's `re.search`
    matches them: the leftmost match wins, and a greedy `\d+` gives back
    digits only when what follows needs them. Only group 1 is kept. */
module AgePatterns {
  import opened Wrappers
  import opened Text

  datatype AgePattern =
    | YearOld     // (\d+)[-\s]year[-\s]old
    | AgeWord     // age[-\s](\d+)
    | AgedWord    // aged[-\s](\d+)
    | YearsOld    // (\d+)[-\s]years[-\s]old
    | BareNumber  // \b(\d+)\b

  /** The patterns in the order they are tried. */
  const AgePatternList: seq<AgePattern> := [YearOld, AgeWord, AgedWord, YearsOld, BareNumber]

  /** The class `[-\s]`. */
  predicate IsSeparator(c: char) {
    c == '-' || IsSpace(c)
  }

  /** The class `\w`. */
  predicate IsWordChar(c: char) {
    IsCased(c) || IsDigit(c) || c == '_'
  }

  /** The end of the run of digits that starts at `i`. */
  function DigitRunEnd(s: string, i: nat): (j: nat)
    requires i <= |s|
    ensures i <= j <= |s|
    ensures forall k :: i <= k < j ==> IsDigit(s[k])
    ensures j == |s| || !IsDigit(s[j])
    decreases |s| - i
  {
    if i < |s| && IsDigit(s[i]) then DigitRunEnd(s, i + 1) else i
  }

  /** `(\d+)[-\s]<first>[-\s]<second>` at `i`. A shorter digit run would be
      followed by a digit, which `[-\s]` refuses, so the group is the whole
      run. */
  function DigitsThenWords(s: string, i: nat, first: string, second: string): (r: Option<string>)
    requires i <= |s|
    ensures r.Some? ==> r.value != [] && AllDigits(r.value) && StartsWith(s[i..], r.value)
  {
    var j := DigitRunEnd(s, i);
    var k := j + 1 + |first|;
    if j > i && j < |s| && IsSeparator(s[j]) && OccursAt(s, first, j + 1)
       && k < |s| && IsSeparator(s[k]) && OccursAt(s, second, k + 1)
    then Some(s[i..j])
    else None
  }

  /** `<word>[-\s](\d+)` at `i`: the group is the whole run of digits. */
  function WordThenDigits(s: string, i: nat, word: string): (r: Option<string>)
    requires i <= |s|
    ensures r.Some? ==> r.value != [] && AllDigits(r.value)
  {
    var start := i + |word| + 1;
    if OccursAt(s, word, i) && start <= |s| && IsSeparator(s[start - 1]) then
      var j := DigitRunEnd(s, start);
      if j > start then Some(s[start..j]) else None
    else None
  }

  /** `\b(\d+)\b` at `i`: the run of digits must have no word character on
      either side (cutting the run short would leave a digit beside it). */
  function BoundedDigits(s: string, i: nat): (r: Option<string>)
    requires i <= |s|
    ensures r.Some? ==> r.value != [] && AllDigits(r.value) && StartsWith(s[i..], r.value)
  {
    var j := DigitRunEnd(s, i);
    if j > i && (i == 0 || !IsWordChar(s[i - 1])) && (j == |s| || !IsWordChar(s[j]))
    then Some(s[i..j])
    else None
  }

  /** Group 1 of pattern `p` matched starting at index `i`, if it matches
      there. */
  function MatchAt(p: AgePattern, s: string, i: nat): (r: Option<string>)
    requires i <= |s|
    ensures r.Some? ==> r.value != [] && AllDigits(r.value)
  {
    match p
    case YearOld => DigitsThenWords(s, i, "year", "old")
    case AgeWord => WordThenDigits(s, i, "age")
    case AgedWord => WordThenDigits(s, i, "aged")
    case YearsOld => DigitsThenWords(s, i, "years", "old")
    case BareNumber => BoundedDigits(s, i)
  }

  /** The first index from `i` on where `p` matches. */
  function LeftmostFrom(p: AgePattern, s: string, i: nat): (r: Option<nat>)
    requires i <= |s|
    ensures r.Some? ==> i <= r.value <= |s| && MatchAt(p, s, r.value).Some?
    ensures r.Some? ==> forall k :: i <= k < r.value ==> MatchAt(p, s, k).None?
    ensures r.None? ==> forall k :: i <= k <= |s| ==> MatchAt(p, s, k).None?
    decreases |s| - i
  {
    if MatchAt(p, s, i).Some? then Some(i)
    else if i == |s| then None
    else LeftmostFrom(p, s, i + 1)
  }

  /** `re.search(p, s).group(1)`: the group of the leftmost match. */
  function Search(p: AgePattern, s: string): (r: Option<string>)
    ensures r.None? <==> forall k :: 0 <= k <= |s| ==> MatchAt(p, s, k).None?
    ensures r.Some? ==> exists k :: (0 <= k <= |s| && MatchAt(p, s, k) == r
      && forall j :: 0 <= j < k ==> MatchAt(p, s, j).None?)
    ensures r.Some? ==> r.value != [] && AllDigits(r.value)
  {
    match LeftmostFrom(p, s, 0)
    case Some(k) => MatchAt(p, s, k)
    case None => None
  }
}
