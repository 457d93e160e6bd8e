/** The sentence-building drill (speech-demo.py). */
module SentenceQuiz {
  import opened Basics
  import opened Text
  import opened Randomness
  import opened Vocabulary
  import opened Session

  /** Two token lists with the same multiset have the same members. */
  lemma SameTokens(shuffled: seq<string>, tokens: seq<string>)
    requires multiset(shuffled) == multiset(tokens)
    requires forall k :: 0 <= k < |tokens| ==> IsToken(tokens[k])
    ensures forall k :: 0 <= k < |shuffled| ==> IsToken(shuffled[k])
  {
    forall k | 0 <= k < |shuffled|
      ensures IsToken(shuffled[k])
    {
      assert shuffled[k] in multiset(tokens);
      var j :| 0 <= j < |tokens| && tokens[j] == shuffled[k];
    }
  }

  /** A list of at most one token is the only arrangement of its multiset. */
  lemma {:induction false} ShortListFixed(shuffled: seq<string>, tokens: seq<string>)
    requires multiset(shuffled) == multiset(tokens)
    requires |tokens| <= 1
    ensures shuffled == tokens
  {
    assert |shuffled| == |multiset(shuffled)| == |tokens|;
    if |tokens| == 1 {
      assert shuffled[0] in multiset(tokens);
      assert tokens == [tokens[0]];
    }
  }

  /**
   * `generate_options`: the answer sentence's words in random order, joined
   * with single spaces.  Splitting the result gives back exactly the words of
   * the answer, rearranged; a sentence of one word comes back unchanged
   * except for surrounding whitespace.
   */
  method GenerateOptions(correctWord: Entry, language: Language) returns (jumbled: string)
    ensures multiset(Split(jumbled)) == multiset(Split(KeyText(correctWord, language)))
    ensures |Split(jumbled)| == |Split(KeyText(correctWord, language))|
    ensures SingleSpaced(jumbled)
    ensures |Split(KeyText(correctWord, language))| <= 1 ==> jumbled == Join(Split(KeyText(correctWord, language)))
  {
    var tokens := Split(KeyText(correctWord, language));
    var shuffled := ShuffleList(tokens);
    SameTokens(shuffled, tokens);
    if |tokens| <= 1 {
      ShortListFixed(shuffled, tokens);
    }
    SplitJoin(shuffled);
    JoinSingleSpaced(shuffled);
    jumbled := Join(shuffled);
  }

  /**
   * `is_answer_correct`: the typed sentence and the expected one, in the
   * selected language, agree once both are lowered.  The expected sentence
   * itself is always accepted, and lowering keeps lengths, so only a line as
   * long as the expected sentence can be accepted.
   */
  function IsAnswerCorrect(userInput: string, correctEn: string, correctUa: string, language: Language): (r: bool)
    ensures userInput == InLanguage(correctEn, correctUa, language) ==> r
    ensures r ==> |userInput| == |InLanguage(correctEn, correctUa, language)|
  {
    Lower(userInput) == Lower(InLanguage(correctEn, correctUa, language))
  }

  /**
   * The check the inner loop applies to an answer line: `is_answer_correct`
   * with both stored texts already lowered, as `main` passes them.
   */
  function SentenceCheck(word: Entry, language: Language): string -> bool
  {
    var correctEn, correctUa := Lower(word.en), Lower(word.ua);
    (userInput: string) => IsAnswerCorrect(userInput, correctEn, correctUa, language)
  }

  /**
   * Lowering the stored answers in `main` before `is_answer_correct` lowers
   * them again changes nothing: an answer is accepted exactly when it matches
   * the whole expected sentence up to case.
   */
  lemma SentenceCheckMeaning(word: Entry, language: Language, userInput: string)
    ensures SentenceCheck(word, language)(userInput) <==> Lower(userInput) == Lower(KeyText(word, language))
  {
    LowerIdempotent(word.en);
    LowerIdempotent(word.ua);
  }

  /** The check ignores the case of what is typed. */
  lemma SentenceCheckIgnoresCase(word: Entry, language: Language, userInput: string)
    ensures SentenceCheck(word, language)(userInput) == SentenceCheck(word, language)(Lower(userInput))
  {
    SentenceCheckMeaning(word, language, userInput);
    SentenceCheckMeaning(word, language, Lower(userInput));
    LowerIdempotent(userInput);
  }

  /** The expected sentence itself, in any case, is accepted. */
  lemma SentenceCheckAcceptsAnswer(word: Entry, language: Language)
    ensures SentenceCheck(word, language)(KeyText(word, language))
    ensures SentenceCheck(word, language)(Lower(KeyText(word, language)))
  {
    SentenceCheckMeaning(word, language, KeyText(word, language));
    SentenceCheckIgnoresCase(word, language, KeyText(word, language));
  }

  /** The right words in the wrong order are rejected: the whole sentence is compared. */
  lemma WordOrderMatters()
    ensures var word := Entry("I go", "Я йду", None, None);
      && SentenceCheck(word, En)("i GO")
      && !SentenceCheck(word, En)("go I")
  {
    var word := Entry("I go", "Я йду", None, None);
    SentenceCheckMeaning(word, En, "i GO");
    SentenceCheckMeaning(word, En, "go I");
    var expected := Lower("I go");
    assert expected[0] == 'i' && expected[1] == ' ' && expected[2] == 'g' && expected[3] == 'o';
    assert expected == "i go";
    var typed := Lower("i GO");
    assert typed[0] == 'i' && typed[1] == ' ' && typed[2] == 'g' && typed[3] == 'o';
    assert typed == "i go";
    assert Lower("go I")[0] == 'g';
  }

  /** `word.get(key, 'Unknown')` for a tag that may be absent. */
  function TagOrUnknown(tag: Option<string>): string
  {
    if tag.Some? then tag.value else "Unknown"
  }

  /** Which of Past / Present / Future is shown in green. */
  datatype Tenses = Tenses(past: bool, present: bool, future: bool)

  /** Which of Question / Affirmation / Negation is shown in green. */
  datatype SentenceTypes = SentenceTypes(question: bool, affirmation: bool, negation: bool)

  /** The `times` highlight: at most one label, the one the lowered tag names. */
  function HighlightTimes(times: Option<string>): (h: Tenses)
    ensures h.past <==> Lower(TagOrUnknown(times)) == "past"
    ensures h.present <==> Lower(TagOrUnknown(times)) == "present"
    ensures h.future <==> Lower(TagOrUnknown(times)) == "future"
    ensures !(h.past && h.present) && !(h.past && h.future) && !(h.present && h.future)
  {
    var timeValue := Lower(TagOrUnknown(times));
    if timeValue == "past" then Tenses(true, false, false)
    else if timeValue == "present" then Tenses(false, true, false)
    else if timeValue == "future" then Tenses(false, false, true)
    else Tenses(false, false, false)
  }

  /** The `type` highlight, tested affirmation first: at most one label, the one the lowered tag names. */
  function HighlightType(kind: Option<string>): (h: SentenceTypes)
    ensures h.affirmation <==> Lower(TagOrUnknown(kind)) == "affirmation"
    ensures h.question <==> Lower(TagOrUnknown(kind)) == "question"
    ensures h.negation <==> Lower(TagOrUnknown(kind)) == "negation"
    ensures !(h.question && h.affirmation) && !(h.question && h.negation) && !(h.affirmation && h.negation)
  {
    var typeValue := Lower(TagOrUnknown(kind));
    if typeValue == "affirmation" then SentenceTypes(false, true, false)
    else if typeValue == "question" then SentenceTypes(true, false, false)
    else if typeValue == "negation" then SentenceTypes(false, false, true)
    else SentenceTypes(false, false, false)
  }

  /** An entry without a `times` or `type` tag highlights no label of that row. */
  lemma MissingTagHighlightsNothing()
    ensures HighlightTimes(None) == Tenses(false, false, false)
    ensures HighlightType(None) == SentenceTypes(false, false, false)
  {
    assert Lower("Unknown") == "unknown";
  }

  /** Highlighting ignores the case of the tag. */
  lemma HighlightIgnoresCase(tag: string)
    ensures HighlightTimes(Some(tag)) == HighlightTimes(Some(Lower(tag)))
    ensures HighlightType(Some(tag)) == HighlightType(Some(Lower(tag)))
  {
    LowerIdempotent(tag);
  }

  /** What one round shows: the two label rows, the question, and the scrambled sentence. */
  datatype Screen = Screen(times: Tenses, types: SentenceTypes, prompt: string, jumbled: string)

  /** A round's screen for `word`: its tags highlighted, its question, and its answer's words rearranged. */
  predicate ShowsScramble(screen: Screen, word: Entry, language: Language)
  {
    && screen.times == HighlightTimes(word.times)
    && screen.types == HighlightType(word.kind)
    && screen.prompt == Prompt(word, language)
    && multiset(Split(screen.jumbled)) == multiset(Split(KeyText(word, language)))
    && SingleSpaced(screen.jumbled)
  }

  /** Every round's screen so far shows its entry's scramble. */
  predicate AllShowScrambles(screens: seq<Screen>, drawn: seq<Entry>, language: Language)
  {
    |screens| == |drawn| && forall i :: 0 <= i < |screens| ==> ShowsScramble(screens[i], drawn[i], language)
  }

  lemma AllShowScramblesSnoc(screens: seq<Screen>, drawn: seq<Entry>, language: Language, screen: Screen, word: Entry)
    requires AllShowScrambles(screens, drawn, language)
    requires ShowsScramble(screen, word, language)
    ensures AllShowScrambles(screens + [screen], drawn + [word], language)
  {
    var s, d := screens + [screen], drawn + [word];
    forall i | 0 <= i < |s|
      ensures ShowsScramble(s[i], d[i], language)
    {
      if i < |screens| {
        assert s[i] == screens[i] && d[i] == drawn[i];
      }
    }
  }

  /** One round's display: the highlighted labels, the question, and the jumbled sentence. */
  method PresentRound(word: Entry, language: Language) returns (screen: Screen)
    ensures ShowsScramble(screen, word, language)
  {
    var times := HighlightTimes(word.times);
    var types := HighlightType(word.kind);
    var jumbled := GenerateOptions(word, language);
    screen := Screen(times, types, Prompt(word, language), jumbled);
  }

  /** The answer check of every round drawn so far. */
  function SentenceChecks(drawn: seq<Entry>, language: Language): seq<string -> bool>
  {
    seq(|drawn|, r requires 0 <= r < |drawn| => SentenceCheck(drawn[r], language))
  }

  lemma SentenceChecksSnoc(drawn: seq<Entry>, language: Language, word: Entry)
    ensures SentenceChecks(drawn + [word], language) == SentenceChecks(drawn, language) + [SentenceCheck(word, language)]
  {
    var d := drawn + [word];
    assert forall r :: 0 <= r < |drawn| ==> d[r] == drawn[r];
  }

  /**
   * What a run of `main` guarantees: `Played`, with each round's answers
   * judged by `SentenceCheck` for its entry, and every round's screen
   * showing its entry's scramble.
   */
  ghost predicate PlayedScramble(words: seq<Entry>, language: Language, lines: seq<string>, o: Outcome<Screen>)
  {
    AllShowScrambles(o.screens, o.drawn, language) && Played(words, lines, o, SentenceChecks(o.drawn, language))
  }

  /** The state of `main` at the top of its outer loop, with the screens shown so far. */
  ghost predicate Between(words: seq<Entry>, language: Language, lines: seq<string>, tally: Tally, pos: nat,
                          drawn: seq<Entry>, starts: seq<nat>, screens: seq<Screen>)
  {
    && AllShowScrambles(screens, drawn, language)
    && Progress(words, lines, tally, pos, drawn, starts, SentenceChecks(drawn, language))
  }

  /** `choose_word` returning `None` ends the session as a win. */
  lemma ScrambleWon(words: seq<Entry>, language: Language, lines: seq<string>, tally: Tally, pos: nat,
                    drawn: seq<Entry>, starts: seq<nat>, screens: seq<Screen>)
    requires Between(words, language, lines, tally, pos, drawn, starts, screens)
    requires |words| > 0 && Keys(words) <= tally.used
    ensures PlayedScramble(words, language, lines, Outcome(Won, tally, pos, drawn, starts, screens,
                                                           tally.correct > 0 || tally.incorrect > 0))
  {
    SessionWon(words, lines, tally, pos, drawn, starts, SentenceChecks(drawn, language), screens);
  }

  /**
   * One pass of `main`'s outer loop for the drawn `entry`: show its screen,
   * then read its round, judged by `SentenceCheck` for that entry.
   */
  method Turn(words: seq<Entry>, language: Language, lines: seq<string>, tally: Tally, pos: nat,
              drawn: seq<Entry>, starts: seq<nat>, screens: seq<Screen>, entry: Entry)
    returns (stop: Option<Ending>, after: Tally, next: nat, screen: Screen)
    requires Between(words, language, lines, tally, pos, drawn, starts, screens)
    requires entry in words && entry.en !in tally.used
    ensures stop.Some? ==>
      PlayedScramble(words, language, lines, Outcome(stop.value, after, next, drawn + [entry], starts + [pos], screens + [screen],
                                                     stop.value == UserQuit && (after.correct > 0 || after.incorrect > 0)))
    ensures stop.None? ==> Between(words, language, lines, after, next, drawn + [entry], starts + [pos], screens + [screen])
    ensures stop.None? ==> |Keys(words) - after.used| < |Keys(words) - tally.used|
  {
    screen := PresentRound(entry, language);
    AllShowScramblesSnoc(screens, drawn, language, screen, entry);
    SentenceChecksSnoc(drawn, language, entry);
    var accepts := SentenceCheck(entry, language);
    stop, after, next := PlayRound(words, lines, tally, pos, drawn, starts, screens + [screen],
                                   SentenceChecks(drawn, language), entry, accepts);
  }

  /**
   * `main` after argument parsing and loading: rounds until every key is
   * learned, the user quits, or `lines` runs out.  Every answer line is
   * judged by `is_answer_correct` for the entry of its round.
   */
  method Play(words: seq<Entry>, language: Language, lines: seq<string>) returns (o: Outcome<Screen>)
    ensures PlayedScramble(words, language, lines, o)
  {
    if |words| == 0 {
      return Outcome(NoWords, Tally({}, 0, 0), 0, [], [], [], false);
    }
    var tally := Tally({}, 0, 0);
    var pos := 0;
    var drawn: seq<Entry> := [];
    var starts: seq<nat> := [];
    var screens: seq<Screen> := [];
    SessionStart(words, lines);
    var word := ChooseWord(words, tally.used);
    while word.Some?
      invariant Between(words, language, lines, tally, pos, drawn, starts, screens)
      invariant word.None? ==> Keys(words) <= tally.used
      invariant word.Some? ==> word.value in words && word.value.en !in tally.used
      decreases |Keys(words) - tally.used|
    {
      var stop, after, next, screen := Turn(words, language, lines, tally, pos, drawn, starts, screens, word.value);
      if stop.Some? {
        return Outcome(stop.value, after, next, drawn + [word.value], starts + [pos], screens + [screen],
                       stop.value == UserQuit && (after.correct > 0 || after.incorrect > 0));
      }
      tally, pos, drawn, starts, screens := after, next, drawn + [word.value], starts + [pos], screens + [screen];
      word := ChooseWord(words, tally.used);
    }
    ScrambleWon(words, language, lines, tally, pos, drawn, starts, screens);
    o := Outcome(Won, tally, pos, drawn, starts, screens, tally.correct > 0 || tally.incorrect > 0);
  }
}
