/** Reading the question text of a quiz page: the term of a vocabulary
    question, the two factors of a multiplication question and the phrase of
    a language question. */
module Questions {
  import opened Wrappers
  import opened Text
  import opened Numerals

  /** The exceptions that end a run of the bot while it reads a question or
      its options. */
  datatype Error =
    | NoWords                    // `split()[0]` of a blank question: IndexError
    | MissingDelimiter           // `split(" x ")[1]` without a " x ": IndexError
    | NotAnInteger(text: string) // `int(text)` of a non-numeric text: ValueError

  const ProductDelimiter: string := " x "
  const MeansMarker: string := " means"

  /** The word looked up in the thesaurus: the first white-space-delimited
      token of the question, `question.split()[0]`. */
  function VocabularyTerm(question: string): (r: Result<string, Error>)
    ensures r.Err? <==> AllSpace(question)
    ensures r.Err? ==> r.error == NoWords
    ensures r.Ok? ==> r.value != [] && SpaceFree(r.value)
  {
    WordsEmpty(question);
    WordsShape(question);
    var words := Words(question);
    if words == [] then Err(NoWords) else Ok(words[0])
  }

  /** The term is the first token: after leading white space, the run of
      characters up to the next white space or the end. */
  lemma VocabularyTermIsFirstToken(lead: string, word: string, rest: string)
    requires AllSpace(lead) && word != [] && SpaceFree(word)
    requires rest == [] || IsSpace(rest[0])
    ensures VocabularyTerm(lead + word + rest) == Ok(word)
  {
    WordsHead(lead, word, rest);
  }

  /** The two factors of a multiplication question: `int()` of the first
      two pieces of `question.split(" x ")`, the first converted before the
      second piece is looked up. */
  function Factors(question: string): (r: Result<(int, int), Error>)
    ensures r.Ok? ==> Contains(question, ProductDelimiter)
    ensures !Contains(question, ProductDelimiter) ==>
      r == if ParseInt(question).Some? then Err(MissingDelimiter) else Err(NotAnInteger(question))
  {
    SplitHead(question, ProductDelimiter);
    var pieces := Split(question, ProductDelimiter);
    match ParseInt(pieces[0])
    case None => Err(NotAnInteger(pieces[0]))
    case Some(a) =>
      if |pieces| < 2 then Err(MissingDelimiter)
      else
        match ParseInt(pieces[1])
        case None => Err(NotAnInteger(pieces[1]))
        case Some(b) => Ok((a, b))
  }

  /** A question written as "a x b", possibly followed by further " x "
      pieces, which are ignored, yields exactly the factors a and b. */
  lemma FactorsRoundTrip(a: int, b: int, tail: string)
    requires tail == [] || OccursAt(tail, ProductDelimiter, 0)
    ensures Factors(IntToString(a) + ProductDelimiter + IntToString(b) + tail) == Ok((a, b))
  {
    IntToStringSpaceFree(a);
    IntToStringSpaceFree(b);
    TwoPieces(IntToString(a), IntToString(b), tail);
    ParseIntRoundTrip(a);
    ParseIntRoundTrip(b);
  }

  /** A question "left x right ..." whose left piece is not an integer fails
      on it; otherwise a right piece that is not an integer fails. */
  lemma FactorsRejectNonNumeric(left: string, right: string, tail: string)
    requires SpaceFree(left) && SpaceFree(right)
    requires tail == [] || OccursAt(tail, ProductDelimiter, 0)
    ensures ParseInt(left).None? ==>
      Factors(left + ProductDelimiter + right + tail) == Err(NotAnInteger(left))
    ensures ParseInt(left).Some? && ParseInt(right).None? ==>
      Factors(left + ProductDelimiter + right + tail) == Err(NotAnInteger(right))
  {
    TwoPieces(left, right, tail);
  }

  lemma TwoPieces(left: string, right: string, tail: string)
    requires SpaceFree(left) && SpaceFree(right)
    requires tail == [] || OccursAt(tail, ProductDelimiter, 0)
    ensures var pieces := Split(left + ProductDelimiter + right + tail, ProductDelimiter);
      |pieces| >= 2 && pieces[0] == left && pieces[1] == right
  {
    assert left + ProductDelimiter + right + tail == left + ProductDelimiter + (right + tail);
    SplitAfterSeparatedWord(left, ProductDelimiter, right + tail);
    SplitAfterWord(right, tail, ProductDelimiter);
  }

  /** The phrase handed to the translator: the question cut at the first
      " means", `question.split(" means")[0]`. */
  function Phrase(question: string): (r: string)
    ensures !Contains(question, MeansMarker) ==> r == question
    ensures Contains(question, MeansMarker) ==> OccursAt(question, MeansMarker, |r|) && r == question[..|r|]
    ensures !Contains(r, MeansMarker)
  {
    SplitHead(question, MeansMarker);
    Split(question, MeansMarker)[0]
  }
}
