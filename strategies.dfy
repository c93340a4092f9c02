/** How the bot picks one of the options shown with a question, for each kind
    of quiz. Each choice is specified by a function and computed by a method
    that scans the options the way the bot's loops do. */
module Strategies {
  import opened Wrappers
  import opened Text
  import opened Numerals
  import opened Questions

  /** Every question page shows four options, and the random fallback
      `random.randint(0, 3)` picks one of them. */
  const OptionCount := 4

  /** The option to click, and whether a heuristic found it (`found_syn`,
      `found_trans`) rather than the random fallback. */
  datatype Choice = Choice(index: nat, matched: bool)

  // ---------------------------------------------------------------------
  // Similarity of a translation and an option

  /** `semi_equals`: one text, upper-cased, occurs in the other, upper-cased. */
  predicate SemiEquals(a: string, b: string): (r: bool)
    ensures Upper(a) == Upper(b) ==> r
    ensures |a| == |b| ==> (r <==> Upper(a) == Upper(b))
  {
    var s1 := Upper(a);
    var s2 := Upper(b);
    assert s1 == s2 ==> OccursAt(s2, s1, 0);
    Contains(s2, s1) || Contains(s1, s2)
  }

  lemma SemiEqualsSymmetric(a: string, b: string)
    ensures SemiEquals(a, b) == SemiEquals(b, a)
  {
  }

  lemma SemiEqualsReflexive(a: string)
    ensures SemiEquals(a, a)
  {
    assert OccursAt(Upper(a), Upper(a), 0);
  }

  /** Upper-casing either argument first changes nothing. */
  lemma SemiEqualsIgnoresCase(a: string, b: string)
    ensures SemiEquals(Upper(a), b) == SemiEquals(a, b)
    ensures SemiEquals(a, Upper(b)) == SemiEquals(a, b)
  {
    UpperIdempotent(a);
    UpperIdempotent(b);
  }

  /** An empty text is similar to every text, since "" occurs in any string. */
  lemma SemiEqualsEmpty(b: string)
    ensures SemiEquals("", b)
  {
    assert OccursAt(Upper(b), Upper(""), 0);
  }

  // ---------------------------------------------------------------------
  // First match

  /** The first position, scanning from 0, whose option satisfies `p`. */
  function FirstMatch(options: seq<string>, p: string -> bool): (r: Option<nat>)
    ensures r.Some? ==> r.value < |options| && p(options[r.value])
    ensures r.Some? ==> forall j :: 0 <= j < r.value ==> !p(options[j])
    ensures r.None? ==> forall j :: 0 <= j < |options| ==> !p(options[j])
  {
    if options == [] then None
    else if p(options[0]) then Some(0)
    else
      match FirstMatch(options[1..], p)
      case None => None
      case Some(k) => Some(k + 1)
  }

  // ---------------------------------------------------------------------
  // Vocabulary

  /** The choice of `run_english_vocab`: the first option that is one of the
      synonyms, otherwise the random fallback. */
  function SynonymChoice(options: seq<string>, synonyms: seq<string>, fallback: nat): (c: Choice)
    requires |options| == OptionCount && fallback < OptionCount
    ensures c.index < OptionCount
    ensures c.matched <==> exists i :: 0 <= i < |options| && options[i] in synonyms
    ensures c.matched ==> options[c.index] in synonyms
    ensures c.matched ==> forall j :: 0 <= j < c.index ==> options[j] !in synonyms
    ensures !c.matched ==> c.index == fallback
  {
    match FirstMatch(options, o => o in synonyms)
    case Some(i) => Choice(i, true)
    case None => Choice(fallback, false)
  }

  method ChooseSynonym(options: seq<string>, synonyms: seq<string>, fallback: nat) returns (c: Choice)
    requires |options| == OptionCount && fallback < OptionCount
    ensures c == SynonymChoice(options, synonyms, fallback)
  {
    var found := false;
    for i := 0 to |options|
      invariant !found
      invariant forall j :: 0 <= j < i ==> options[j] !in synonyms
    {
      if options[i] in synonyms {
        c := Choice(i, true);
        found := true;
        break;
      }
    }
    if !found {
      c := Choice(fallback, false);
    }
  }

  // ---------------------------------------------------------------------
  // Multiplication

  /** The options before position `k` all read as integers other than `product`. */
  predicate AllMiss(options: seq<string>, k: nat, product: int)
    requires k <= |options|
  {
    forall j :: 0 <= j < k ==> ParseInt(options[j]).Some? && ParseInt(options[j]).value != product
  }

  /** The scan of `run_mult_table`: the first option whose `int()` equals the
      product; an option that is not an integer, reached first, raises
      ValueError; when no option matches nothing is clicked. */
  function ProductChoice(options: seq<string>, product: int): (r: Result<Option<nat>, Error>)
    ensures r.Ok? && r.value.Some? ==> r.value.value < |options|
    ensures r.Ok? && r.value.Some? ==> ParseInt(options[r.value.value]) == Some(product)
    ensures r.Ok? && r.value.Some? ==> AllMiss(options, r.value.value, product)
    ensures r == Ok(None) <==> AllMiss(options, |options|, product)
    ensures r.Err? ==> exists i :: 0 <= i < |options| && AllMiss(options, i, product)
                                   && ParseInt(options[i]).None? && r.error == NotAnInteger(options[i])
  {
    if options == [] then Ok(None)
    else
      match ParseInt(options[0])
      case None =>
        assert AllMiss(options, 0, product);
        Err(NotAnInteger(options[0]))
      case Some(v) =>
        if v == product then Ok(Some(0))
        else
          var r := ProductChoice(options[1..], product);
          MissShift(options, product);
          match r
          case Ok(Some(k)) => Ok(Some(k + 1))
          case Ok(None) => r
          case Err(e) =>
            var i :| 0 <= i < |options| - 1 && AllMiss(options[1..], i, product)
                     && ParseInt(options[1..][i]).None? && e == NotAnInteger(options[1..][i]);
            assert AllMiss(options, i + 1, product);
            r
  }

  /** An option that misses, followed by `k` more that miss, makes `k + 1`. */
  lemma MissShift(options: seq<string>, product: int)
    requires options != [] && ParseInt(options[0]).Some? && ParseInt(options[0]).value != product
    ensures forall k :: 0 <= k < |options| ==> AllMiss(options[1..], k, product) == AllMiss(options, k + 1, product)
  {
  }

  /** The scan stops at the first option that is not a miss: a match is
      clicked, a non-integer raises. */
  lemma ProductChoiceAt(options: seq<string>, product: int, i: nat)
    requires i < |options| && AllMiss(options, i, product)
    ensures ParseInt(options[i]).None? ==> ProductChoice(options, product) == Err(NotAnInteger(options[i]))
    ensures ParseInt(options[i]) == Some(product) ==> ProductChoice(options, product) == Ok(Some(i))
  {
  }

  method ChooseProduct(options: seq<string>, num1: int, num2: int) returns (r: Result<Option<nat>, Error>)
    ensures r == ProductChoice(options, num1 * num2)
  {
    for i := 0 to |options|
      invariant AllMiss(options, i, num1 * num2)
    {
      var value := ParseInt(options[i]);
      ProductChoiceAt(options, num1 * num2, i);
      if value.None? {
        return Err(NotAnInteger(options[i]));
      }
      if num1 * num2 == value.value {
        return Ok(Some(i));
      }
    }
    return Ok(None);
  }

  // ---------------------------------------------------------------------
  // Languages

  /** The choice of `run_language`: the first option similar to the
      translation, otherwise the random fallback. */
  function TranslationChoice(options: seq<string>, translation: string, fallback: nat): (c: Choice)
    requires |options| == OptionCount && fallback < OptionCount
    ensures c.index < OptionCount
    ensures c.matched <==> exists i :: 0 <= i < |options| && SemiEquals(options[i], translation)
    ensures c.matched ==> SemiEquals(options[c.index], translation)
    ensures c.matched ==> forall j :: 0 <= j < c.index ==> !SemiEquals(options[j], translation)
    ensures !c.matched ==> c.index == fallback
  {
    match FirstMatch(options, o => SemiEquals(o, translation))
    case Some(i) => Choice(i, true)
    case None => Choice(fallback, false)
  }

  method ChooseTranslation(options: seq<string>, translation: string, fallback: nat) returns (c: Choice)
    requires |options| == OptionCount && fallback < OptionCount
    ensures c == TranslationChoice(options, translation, fallback)
  {
    var found := false;
    for i := 0 to |options|
      invariant !found
      invariant forall j :: 0 <= j < i ==> !SemiEquals(options[j], translation)
    {
      if SemiEquals(options[i], translation) {
        c := Choice(i, true);
        found := true;
        break;
      }
    }
    if !found {
      c := Choice(fallback, false);
    }
  }

  // ---------------------------------------------------------------------
  // Famous quotations

  /** The frequency `find_quote_source` records for each option: how often its
      text occurs in the search-result text, by `str.count`. */
  function Scores(searchText: string, options: seq<string>): seq<nat> {
    seq(|options|, i requires 0 <= i < |options| => Count(searchText, options[i]))
  }

  /** Python's `max` by key over scores in order: it replaces its candidate
      only by a strictly larger one, so the first largest score wins. */
  function FirstMax(scores: seq<nat>): (best: nat)
    requires |scores| > 0
    ensures best < |scores|
    ensures forall j :: 0 <= j < |scores| ==> scores[j] <= scores[best]
    ensures forall j :: 0 <= j < best ==> scores[j] < scores[best]
  {
    if |scores| == 1 then 0
    else
      var k := FirstMax(scores[..|scores| - 1]);
      if scores[|scores| - 1] > scores[k] then |scores| - 1 else k
  }

  /** One more score replaces the running maximum only when it is larger. */
  lemma FirstMaxExtend(scores: seq<nat>, i: nat)
    requires 0 < i < |scores|
    ensures FirstMax(scores[..i + 1])
      == if scores[i] > scores[FirstMax(scores[..i])] then i else FirstMax(scores[..i])
  {
    assert scores[..i + 1][..i] == scores[..i];
  }

  /** The choice of `find_quote_source`: the option whose text occurs most
      often in the search text, the first of them on a tie. */
  function QuoteChoice(searchText: string, options: seq<string>): (best: nat)
    requires |options| > 0
    ensures best < |options|
    ensures forall j :: 0 <= j < |options| ==> Count(searchText, options[j]) <= Count(searchText, options[best])
    ensures forall j :: 0 <= j < best ==> Count(searchText, options[j]) < Count(searchText, options[best])
  {
    var scores := Scores(searchText, options);
    assert forall j :: 0 <= j < |options| ==> scores[j] == Count(searchText, options[j]);
    FirstMax(scores)
  }

  /** The two properties above single out one option. */
  lemma QuoteChoiceUnique(searchText: string, options: seq<string>, k: nat)
    requires k < |options|
    requires forall j :: 0 <= j < |options| ==> Count(searchText, options[j]) <= Count(searchText, options[k])
    requires forall j :: 0 <= j < k ==> Count(searchText, options[j]) < Count(searchText, options[k])
    ensures QuoteChoice(searchText, options) == k
  {
  }

  /** When no option occurs in the search text, the first option is chosen. */
  lemma NoEvidencePicksFirst(searchText: string, options: seq<string>)
    requires |options| > 0
    requires forall j :: 0 <= j < |options| ==> options[j] != [] && !Contains(searchText, options[j])
    ensures QuoteChoice(searchText, options) == 0
  {
    forall j | 0 <= j < |options| ensures Count(searchText, options[j]) == 0 {
      CountPositive(searchText, options[j]);
    }
    QuoteChoiceUnique(searchText, options, 0);
  }

  /** When exactly one option occurs in the search text, it is chosen. */
  lemma SoleOccurrenceWins(searchText: string, options: seq<string>, k: nat)
    requires k < |options| && options[k] != [] && Contains(searchText, options[k])
    requires forall j :: 0 <= j < |options| && j != k ==> options[j] != [] && !Contains(searchText, options[j])
    ensures QuoteChoice(searchText, options) == k
  {
    CountPositive(searchText, options[k]);
    forall j | 0 <= j < |options| && j != k ensures Count(searchText, options[j]) == 0 {
      CountPositive(searchText, options[j]);
    }
    QuoteChoiceUnique(searchText, options, k);
  }

  /** `str.count` finds an empty text |s| + 1 times, more than any non-empty
      text can occur, so the first empty option is chosen. */
  lemma EmptyOptionWins(searchText: string, options: seq<string>, k: nat)
    requires k < |options| && options[k] == []
    requires forall j :: 0 <= j < k ==> options[j] != []
    ensures QuoteChoice(searchText, options) == k
  {
    forall j | 0 <= j < |options| && options[j] != []
      ensures Count(searchText, options[j]) <= |searchText|
    {
      CountBound(searchText, options[j]);
    }
    QuoteChoiceUnique(searchText, options, k);
  }

  method ChooseQuoteSource(options: seq<string>, searchText: string) returns (best: nat)
    requires |options| > 0
    ensures best == QuoteChoice(searchText, options)
  {
    var freq: seq<nat> := [];
    for i := 0 to |options|
      invariant |freq| == i
      invariant forall j :: 0 <= j < i ==> freq[j] == Count(searchText, options[j])
    {
      freq := freq + [Count(searchText, options[i])];
    }
    assert freq == Scores(searchText, options);
    best := ChooseFirstMax(freq);
  }

  /** `max(..., key=...)` over the frequencies in insertion order. */
  method ChooseFirstMax(scores: seq<nat>) returns (best: nat)
    requires |scores| > 0
    ensures best == FirstMax(scores)
  {
    best := 0;
    for i := 1 to |scores|
      invariant best == FirstMax(scores[..i])
    {
      FirstMaxExtend(scores, i);
      if scores[i] > scores[best] {
        best := i;
      }
    }
    assert scores[..|scores|] == scores;
  }
}
