/** Worked cases of the selection rules on concrete questions and options. */
module Examples {
  import opened Wrappers
  import opened Text
  import opened Numerals
  import opened Questions
  import opened Strategies

  lemma SynonymFound()
    ensures SynonymChoice(["sad", "joyful", "angry", "tired"], ["happy", "joyful"], 3) == Choice(1, true)
  {
    var options := ["sad", "joyful", "angry", "tired"];
    assert options[1] in ["happy", "joyful"];
  }

  lemma NoSynonymsFallBack(fallback: nat)
    requires fallback < OptionCount
    ensures SynonymChoice(["sad", "joyful", "angry", "tired"], [], fallback) == Choice(fallback, false)
  {
  }

  lemma SimilarCity()
    ensures SemiEquals("Madrid", "the city of madrid")
  {
    UpperMadrid();
    assert OccursAt("THE CITY OF MADRID", "MADRID", 12);
  }

  lemma UpperMadrid()
    ensures Upper("Madrid") == "MADRID"
    ensures Upper("the city of madrid") == "THE CITY OF MADRID"
  {
  }

  lemma MadridIsNotBarcelona()
    ensures !SemiEquals("Madrid", "Barcelona")
  {
    var s1, s2 := Upper("Madrid"), Upper("Barcelona");
    assert s2 == "BARCELONA";
    forall i | 0 <= i <= |s2| ensures !OccursAt(s2, s1, i) {
      if i + |s1| <= |s2| {
        assert s2[i..i + |s1|][0] == s2[i] != 'M' == s1[0];
      }
    }
  }

  /** The separator U+001C is white space for `str.isspace` but not for
      `int()`, which rejects it; a no-break space, in turn, is skipped. */
  lemma SeparatorIsNotIntSpace()
    ensures ParseInt([28 as char, '5']) == None
    ensures ParseInt([0xA0 as char, '5', '\n']) == Some(5)
  {
    StripUnchanged([28 as char, '5']);
    var t := [0xA0 as char, '5', '\n'];
    assert TrimIntSpaceStart(t) == ['5', '\n'];
    assert TrimIntSpaceEnd(['5', '\n']) == ['5'];
    assert ParseNumeral(['5']) == Some(5) by {
      DigitsWellGrouped("5");
    }
  }

  lemma SevenIsNotAnInteger()
    ensures Factors("seven x 3") == Err(NotAnInteger("seven"))
  {
    SevenFirst();
    SevenIsNotANumeral();
  }

  lemma SevenFirst()
    ensures Split("seven x 3", ProductDelimiter)[0] == "seven"
  {
    TwoPiecesOf("seven", "3");
    assert "seven" + ProductDelimiter + "3" == "seven x 3";
  }

  lemma SevenIsNotANumeral()
    ensures ParseInt("seven") == None
  {
    StripUnchanged("seven");
    assert !WellGrouped("seven");
  }

  lemma ProductOfSevenAndEight()
    ensures Factors("7 x 8") == Ok((7, 8))
  {
    FactorsRoundTrip(7, 8, []);
    SevenTimesEightText();
  }

  lemma SevenTimesEightText()
    ensures IntToString(7) + ProductDelimiter + IntToString(8) + [] == "7 x 8"
  {
    assert IntToString(7) == "7";
    assert IntToString(8) == "8";
  }

  lemma TwoPiecesOf(left: string, right: string)
    requires SpaceFree(left) && SpaceFree(right)
    ensures Split(left + ProductDelimiter + right, ProductDelimiter)[0] == left
  {
    TwoPieces(left, right, []);
    assert left + ProductDelimiter + right + [] == left + ProductDelimiter + right;
  }

  /** "Einstein" occurs in the search text and the other names do not, so
      the first option is chosen. */
  lemma EinsteinQuoted(text: string, options: seq<string>)
    requires text == "Einstein said this. Einstein Einstein."
    requires options == ["Einstein", "Newton", "Darwin", "Curie"]
    ensures QuoteChoice(text, options) == 0
  {
    assert OccursAt(text, options[0], 0);
    EinsteinLetters(text);
    FirstLetterAbsent(text, options[1]);
    FirstLetterAbsent(text, options[2]);
    FirstLetterAbsent(text, options[3]);
    SoleOccurrenceWins(text, options, 0);
  }

  lemma EinsteinLetters(text: string)
    requires text == "Einstein said this. Einstein Einstein."
    ensures forall i :: 0 <= i < |text| ==> text[i] != 'N' && text[i] != 'D' && text[i] != 'C'
  {
  }

  /** A name whose first letter is nowhere in the text does not occur in it. */
  lemma FirstLetterAbsent(text: string, name: string)
    requires name != [] && forall i :: 0 <= i < |text| ==> text[i] != name[0]
    ensures !Contains(text, name)
  {
    forall i | 0 <= i <= |text| ensures !OccursAt(text, name, i) {
      if i + |name| <= |text| {
        assert text[i..i + |name|][0] == text[i];
      }
    }
  }

  lemma EqualScoresPickTheFirst()
    ensures FirstMax([2, 2, 0, 0]) == 0
  {
  }
}
