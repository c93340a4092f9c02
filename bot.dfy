/** `RiceBot.run`: the category of the quiz selects a strategy, and the bot
    answers the requested number of questions one page after another. */
module Bot {
  import opened Wrappers
  import opened Text
  import opened Questions
  import opened Strategies

  datatype Strategy = Vocabulary | Multiplication | Language(language: string) | Quotations

  /** The language quizzes; each category name is also the source language
      given to the translator. */
  const LanguageCategories: set<string> := {"spanish", "french", "italian", "german", "czech"}

  /** The categories `run` handles. */
  const HandledCategories: set<string> :=
    {"english-vocabulary", "multiplication-table", "famous-quotations"} + LanguageCategories

  /** The `if`/`elif` chain of `run`: the strategy for a category name, or
      nothing for a category it does not handle. */
  function Route(category: string): (s: Option<Strategy>)
    ensures s.Some? <==> category in HandledCategories
    ensures s == Some(Vocabulary) <==> category == "english-vocabulary"
    ensures s == Some(Multiplication) <==> category == "multiplication-table"
    ensures s == Some(Quotations) <==> category == "famous-quotations"
    ensures s.Some? && s.value.Language? <==> category in LanguageCategories
    ensures s.Some? && s.value.Language? ==> s.value.language == category
  {
    if category == "english-vocabulary" then Some(Vocabulary)
    else if category == "multiplication-table" then Some(Multiplication)
    else if category == "spanish" then Some(Language("spanish"))
    else if category == "french" then Some(Language("french"))
    else if category == "italian" then Some(Language("italian"))
    else if category == "german" then Some(Language("german"))
    else if category == "czech" then Some(Language("czech"))
    else if category == "famous-quotations" then Some(Quotations)
    else None
  }

  /** "latin" is offered in the category menu but `run` does nothing for it. */
  lemma LatinUnhandled()
    ensures Route("latin") == None
  {
  }

  /** What the bot reads from one question page, and the index the random
      fallback `random.randint(0, 3)` draws for it. */
  datatype Page = Page(question: string, options: seq<string>, fallback: nat)

  predicate WellFormed(page: Page) {
    |page.options| == OptionCount && page.fallback < OptionCount
  }

  /** The services the bot consults: the synonyms thesaurus.com lists for a
      word, the translation of a text from a source language, and the text
      of the search results for a query. */
  datatype Services = Services(
    synonyms: string -> seq<string>,
    translate: (string, string) -> string,
    searchText: string -> string)

  /** The answer to one page: the option clicked (none when no option of a
      multiplication question matches), or the exception that ends the run. */
  function Answer(strategy: Strategy, page: Page, services: Services): (r: Result<Option<nat>, Error>)
    requires WellFormed(page)
    ensures r.Ok? && r.value.Some? ==> r.value.value < OptionCount
    ensures r.Ok? && r.value.None? ==> strategy == Multiplication
    ensures strategy == Vocabulary ==> (r.Err? <==> AllSpace(page.question))
    ensures r.Err? ==> strategy == Vocabulary || strategy == Multiplication
  {
    match strategy
    case Vocabulary =>
      (match VocabularyTerm(page.question)
       case Err(e) => Err(e)
       case Ok(term) => Ok(Some(SynonymChoice(page.options, services.synonyms(term), page.fallback).index)))
    case Multiplication =>
      (match Factors(page.question)
       case Err(e) => Err(e)
       case Ok((num1, num2)) => ProductChoice(page.options, num1 * num2))
    case Language(language) =>
      var translation := services.translate(Phrase(page.question), language);
      Ok(Some(TranslationChoice(page.options, translation, page.fallback).index))
    case Quotations =>
      Ok(Some(QuoteChoice(services.searchText(page.question), page.options)))
  }

  /** One pass of the loop body of `run_english_vocab`, `run_mult_table`,
      `run_language` or `run_quotations`. */
  method AnswerPage(strategy: Strategy, page: Page, services: Services) returns (r: Result<Option<nat>, Error>)
    requires WellFormed(page)
    ensures r == Answer(strategy, page, services)
  {
    match strategy
    case Vocabulary =>
      var term := VocabularyTerm(page.question);
      if term.Err? {
        return Err(term.error);
      }
      var synonyms := services.synonyms(term.value);
      var c := ChooseSynonym(page.options, synonyms, page.fallback);
      r := Ok(Some(c.index));
    case Multiplication =>
      var factors := Factors(page.question);
      if factors.Err? {
        return Err(factors.error);
      }
      r := ChooseProduct(page.options, factors.value.0, factors.value.1);
    case Language(language) =>
      var translation := services.translate(Phrase(page.question), language);
      var c := ChooseTranslation(page.options, translation, page.fallback);
      r := Ok(Some(c.index));
    case Quotations =>
      var best := ChooseQuoteSource(page.options, services.searchText(page.question));
      r := Ok(Some(best));
  }

  /** `RiceBot.run(num_questions)` on the bot's category: nothing for a
      non-positive count or an unhandled category; otherwise the pages are
      answered in order until `num_questions` are done or one raises. */
  method Run(category: string, numQuestions: int, pages: seq<Page>, services: Services)
    returns (clicks: seq<Option<nat>>, failure: Option<Error>)
    requires numQuestions <= |pages|
    requires forall k :: 0 <= k < |pages| ==> WellFormed(pages[k])
    ensures numQuestions <= 0 || Route(category).None? ==> clicks == [] && failure.None?
    ensures clicks == [] || |clicks| <= numQuestions
    ensures Route(category).Some? ==>
      forall k :: 0 <= k < |clicks| ==> Answer(Route(category).value, pages[k], services) == Ok(clicks[k])
    ensures failure.None? && numQuestions > 0 && Route(category).Some? ==> |clicks| == numQuestions
    ensures failure.Some? ==>
      && Route(category).Some?
      && |clicks| < numQuestions
      && Answer(Route(category).value, pages[|clicks|], services) == Err(failure.value)
  {
    clicks, failure := [], None;
    if numQuestions <= 0 {
      return;
    }
    var route := Route(category);
    if route.None? {
      return;
    }
    var strategy := route.value;
    for i := 0 to numQuestions
      invariant |clicks| == i
      invariant forall k :: 0 <= k < i ==> Answer(strategy, pages[k], services) == Ok(clicks[k])
    {
      var answer := AnswerPage(strategy, pages[i], services);
      if answer.Err? {
        failure := Some(answer.error);
        return;
      }
      clicks := clicks + [answer.value];
    }
  }
}
