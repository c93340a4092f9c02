# Free Rice bot: answer selection

This project models how `RiceBot` chooses which option to click on
freerice.com. It covers `RiceBot.run` in `bot.py`. The bot is bound to one
quiz category. `run(num_questions)` sends each question page to one of four
strategies:

- **English vocabulary.** The first word of the question is looked up in a
  thesaurus. The bot clicks the first option that is one of its synonyms,
  otherwise a random option.
- **Multiplication table.** The question `"a x b"` is parsed with Python's
  `int()`. The bot clicks the first option whose integer value is `a * b`,
  and clicks nothing if no option matches.
- **Languages** (Spanish, French, Italian, German, Czech). The question is
  cut at `" means"` and translated. The bot clicks the first option that
  `semi_equals` the translation, otherwise a random option.
- **Famous quotations.** The text of the search results for the quotation is
  fetched. The bot clicks the option whose text occurs there most often,
  with the first such option winning a tie.

The model is written in the source's own terms:

- The Python string operations the bot relies on are modelled exactly in
  `Text`: `str.isspace`, `in`, `split(sep)`, `split()`, `upper`
  (ASCII letters) and `count`.
- Python's `int()` on a string is modelled in `Numerals`: surrounding white
  space, an optional sign, ASCII digits and single underscores between
  digits. The white space `int()` skips is CPython's: the `str.isspace`
  characters except the information separators U+001C to U+001F, which
  `str.split()` does treat as white space.
- The exceptions that end a run are values of `Questions.Error`:
  - `NoWords` is the IndexError of `split()[0]`;
  - `MissingDelimiter` is the IndexError of `split(" x ")[1]`;
  - `NotAnInteger` is the ValueError of `int()`.
- Each selection loop is a method with loop invariants. Each method is
  proved equal to a specification function, and the properties of the
  choice are proved about that function.
- The collaborators are inputs, held in `Bot.Services`. These are the
  thesaurus lookup, the translator and the search text. The random index
  `random.randint(0, 3)` is `Bot.Page.fallback`.

## Model

| member | source | states |
|---|---|---|
| Bot.Route | bot.py:39-56 | a category is handled exactly when it is one of the eight names; "english-vocabulary", "multiplication-table" and "famous-quotations" each select their own strategy; the five language names select the translation strategy with that name as source language |
| Bot.LatinUnhandled | bot.py:39-56 | the category "latin" is routed nowhere, so `run` does nothing for it |
| Bot.Answer | bot.py:70-196 | one page's outcome: a clicked index is below 4; only multiplication can click nothing; a vocabulary question fails exactly when it is all white space; only vocabulary and multiplication questions can raise |
| Bot.AnswerPage | bot.py:73-196 | the loop body of the category's run method (vocabulary 73-91, multiplication 113-125, languages 150-167, quotations 189-196) yields exactly `Answer` for the page |
| Bot.Run | bot.py:36-56 | no clicks for a non-positive count or an unhandled category; otherwise the i-th click is the answer to the i-th page, all `num_questions` pages are answered unless one raises, and a raise stops the run at the page whose answer is that error |
| Questions.VocabularyTerm | bot.py:76 | `split()[0]` raises IndexError exactly when the question is all white space; otherwise the term is non-empty and holds no white space |
| Questions.VocabularyTermIsFirstToken | bot.py:76 | after leading white space, the term is the run of characters up to the next white space or the end |
| Questions.Factors | bot.py:115-116 | a question without `" x "` raises: ValueError when the whole question is not an integer (the first `int()` runs before `[1]`), IndexError otherwise; success implies the delimiter occurs |
| Questions.FactorsRoundTrip | bot.py:115-116 | `str(a) + " x " + str(b)`, followed by nothing or by further `" x "` pieces, yields exactly the factors `(a, b)` |
| Questions.FactorsRejectNonNumeric | bot.py:115-116 | a non-integer first piece raises ValueError on that piece; otherwise a non-integer second piece raises ValueError on it |
| Questions.TwoPieces | bot.py:115-116 | the first two pieces of `"left x right..."` split on `" x "` are `left` and `right` when neither holds white space |
| Questions.Phrase | bot.py:151 | the phrase is the whole question when it has no `" means"`, otherwise the text before the first `" means"`; it never contains `" means"` |
| Strategies.SemiEquals | bot.py:283-304 | `semi_equals`: the upper-cased texts contain one another in either direction; texts equal up to case are similar, and texts of the same length are similar exactly when they are equal up to case |
| Strategies.SemiEqualsSymmetric | bot.py:301-304 | `semi_equals(a, b) == semi_equals(b, a)` |
| Strategies.SemiEqualsReflexive | bot.py:301-304 | `semi_equals(a, a)` holds |
| Strategies.SemiEqualsIgnoresCase | bot.py:301-302 | upper-casing either argument first does not change the result |
| Strategies.SemiEqualsEmpty | bot.py:304 | an empty text is similar to every text |
| Strategies.FirstMatch | bot.py:83-87 | the smallest position whose option satisfies the test, or none when no option does |
| Strategies.SynonymChoice | bot.py:83-91 | the index is below 4; a synonym is found exactly when some option is in the synonym list; then the index is the first such option; otherwise it is the fallback |
| Strategies.ChooseSynonym | bot.py:73-91 | the scan with `found_syn` and `break` chooses exactly `SynonymChoice` |
| Strategies.ProductChoice | bot.py:122-125 | a chosen option reads as the product and every earlier option reads as a different integer; nothing is chosen exactly when every option reads as a different integer; an error names the first option that is not an integer, all options before it reading as other integers |
| Strategies.MissShift | bot.py:122-125 | a first option that reads as another integer shifts the run of misses by one |
| Strategies.ProductChoiceAt | bot.py:122-125 | after misses up to position i, a non-integer at i raises on it and the product at i is chosen |
| Strategies.ChooseProduct | bot.py:122-125 | the scan with `int(option.text)` and `break` yields exactly `ProductChoice` for `num1 * num2`, the unbounded product |
| Strategies.TranslationChoice | bot.py:159-167 | the index is below 4; a translation is found exactly when some option `semi_equals` it; then the index is the first such option; otherwise it is the fallback |
| Strategies.ChooseTranslation | bot.py:156-167 | the scan with `found_trans` and `break` chooses exactly `TranslationChoice` |
| Strategies.FirstMax | bot.py:336 | `max` by score: the chosen score is at least every score, and every earlier score is strictly smaller |
| Strategies.FirstMaxExtend | bot.py:336 | one more score replaces the running maximum only when it is strictly larger |
| Strategies.QuoteChoice | bot.py:330-337 | the chosen option's count is at least every option's count, and every earlier option's count is strictly smaller |
| Strategies.QuoteChoiceUnique | bot.py:330-337 | those two properties single out the chosen option |
| Strategies.SoleOccurrenceWins | bot.py:330-337 | when every option is non-empty and exactly one of them occurs in the search text, that option is chosen |
| Strategies.NoEvidencePicksFirst | bot.py:330-337 | when no non-empty option occurs in the search text, the first option is chosen |
| Strategies.EmptyOptionWins | bot.py:333-336 | the first empty option is chosen, since `count("")` is one more than the text's length and exceeds every other count |
| Strategies.ChooseQuoteSource | bot.py:330-337 | filling the frequencies in a loop and taking the maximum yields exactly `QuoteChoice` |
| Strategies.ChooseFirstMax | bot.py:336 | the scan for the maximum frequency, keeping the earlier candidate on a tie, yields exactly `FirstMax` |
| Text.Contains | bot.py:304 | Python's `sub in s`: `sub` occurs in `s` at some position (defined by that quantifier; its properties are the lemmas below) |
| Text.Find | bot.py:115 | the first occurrence of a separator: present exactly when the text contains it, and no earlier position holds it |
| Text.Split | bot.py:115-116 | `str.split(sep)` yields at least one piece |
| Text.JoinSplit | bot.py:115-116 | joining the pieces of `split(sep)` with `sep` gives the text back |
| Text.SplitHead | bot.py:151 | there is a second piece exactly when the separator occurs; the first piece is the text before the first occurrence, or the whole text; it never contains the separator |
| Text.SplitAfterWord | bot.py:115-116 | a white-space-free prefix followed by a separator that starts with white space is the whole first piece |
| Text.SplitAfterSeparatedWord | bot.py:115-116 | such a prefix and the separator after it are split off as the first piece |
| Text.WordLength | bot.py:76 | the prefix measured holds no white space and ends at white space or at the end |
| Text.Words | bot.py:76 | Python's `str.split()`: skip leading white space, take the longest run without white space, repeat until the text is used up (its meaning is stated by the four lemmas below) |
| Text.WordsShape | bot.py:76 | every word of `split()` is non-empty and holds no white space |
| Text.WordsEmpty | bot.py:76 | `split()` is empty exactly when the text is all white space |
| Text.WordsHead | bot.py:76 | the first word of `split()` is the first run of non-white-space characters |
| Text.WordsJoin | bot.py:76 | words joined by single spaces split back into the same words |
| Text.Upper | bot.py:301-302 | upper-casing keeps the length and leaves no ASCII lower-case letter; each lower-case ASCII letter moves down 32 code points to its capital, and every other character is unchanged |
| Text.UpperIdempotent | bot.py:301-302 | upper-casing twice is upper-casing once |
| Text.Count | bot.py:333 | Python's `str.count`: occurrences taken greedily from the left without overlap, and `|s| + 1` for an empty `sub` (its meaning is stated by the two lemmas below) |
| Text.CountPositive | bot.py:333 | a non-empty text is counted at least once exactly when it occurs |
| Text.CountBound | bot.py:333 | non-overlapping occurrences of a non-empty text fit in the searched text |
| Numerals.ParseInt | bot.py:115-116 | Python's `int(s)` in base 10: the text without the surrounding `int()` white space must be a numeral, otherwise ValueError (`None`) |
| Numerals.ParseNumeral | bot.py:115-116 | a numeral is an optional `+` or `-` followed by ASCII digits with single underscores only between digits; its value is that of the digits, negated after `-` |
| Numerals.StripIntSpace | bot.py:115-116 | the text without the leading and trailing characters `int()` skips as white space |
| Numerals.ParseIntRoundTrip | bot.py:115-116 | `int(str(n)) == n` for every integer n |
| Numerals.ParseDigits | bot.py:115-116 | a plain run of digits, with or without a minus sign, reads as its decimal value |
| Numerals.NatToStringValue | bot.py:115-116 | the digits of a natural number have that number as their value |
| Numerals.IntToString | bot.py:115-116 | `str(n)` ends in a digit and has only digits apart from a leading minus sign |
| Examples.SynonymFound | bot.py:83-87 | with "joyful" in the synonyms, the option "joyful" at index 1 is chosen |
| Examples.NoSynonymsFallBack | bot.py:89-91 | with no synonyms, the fallback index is chosen |
| Examples.SimilarCity | bot.py:301-304 | "Madrid" is similar to "the city of madrid" |
| Examples.MadridIsNotBarcelona | bot.py:301-304 | "Madrid" and "Barcelona" are not similar |
| Examples.SeparatorIsNotIntSpace | bot.py:115-116 | `int()` rejects the text U+001C "5", but reads U+00A0 "5" newline as 5 |
| Examples.SevenIsNotAnInteger | bot.py:115 | "seven x 3" raises ValueError on "seven" |
| Examples.ProductOfSevenAndEight | bot.py:115-116 | "7 x 8" has the factors 7 and 8 |
| Examples.EinsteinQuoted | bot.py:330-337 | with the search text "Einstein said this. Einstein Einstein." and the options Einstein, Newton, Darwin, Curie, the first option is chosen |
| Examples.EqualScoresPickTheFirst | bot.py:336 | with scores 2, 2, 0, 0 the first option is chosen |

## Left out

- The browser: the Selenium driver, page loading, XPath lookups of the
  question and options, and `click()` (bot.py:18-22, 203-231). The model
  returns the index to click. The four options are a sequence of their texts.
- A fresh question on each iteration is modelled as a sequence of pages,
  one per iteration. `Bot.Run` requires at least `num_questions` pages.
- `time.sleep` delays and the `print` progress messages, which are timing and
  console output.
- `find_synonyms` and the search fetch in `find_quote_source`. These are
  `requests.get` and BeautifulSoup scraping (bot.py:234-281, 325-327). The
  synonym list and the search-result text are inputs, as pure functions of
  the word and the query. Network failures are not modelled.
- The googletrans call (bot.py:152). The translation is an input, as a pure
  function of the phrase and the source language.
- `random.randint(0, 3)` and `random.random()`. The random index is the
  page's `fallback`, supplied by the caller.
- Bot.Run: the four per-category loops are modelled as one loop that applies
  the category's strategy to each page. Their behaviour is the same.
- Text.Upper: only the ASCII letters are upper-cased. Python's full Unicode
  case mapping (for example "ß" to "SS", which changes the length) is not
  modelled.
- Numerals.ParseInt: only ASCII digits are accepted. Python's `int()` also
  accepts other Unicode decimal digits, and rejects more than 4300 digits.
- Strategies.ChooseQuoteSource: `freq_dict` is keyed by the option elements.
  Each element is a distinct key, so it is modelled as one score per
  position, in insertion order.
- bot_gui.py is not part of this model. It is the tkinter form that starts
  the bot.
