/** The multiple-choice word drill (lrn.py). */
module WordQuiz {
  import opened Basics
  import opened Text
  import opened Numerals
  import opened Randomness
  import opened Vocabulary
  import opened Session

  /** `main` always asks `generate_options` for eight options. */
  const NumberOfOptions := 8

  /** `[word for word in words if word[key_to_use] != correct_option]`: exact, case-sensitive. */
  function DistractorPool(words: seq<Entry>, correctOption: string, language: Language): (r: seq<Entry>)
    ensures forall e :: e in r <==> e in words && KeyText(e, language) != correctOption
    ensures multiset(r) <= multiset(words)
    ensures forall e :: multiset(r)[e] == if KeyText(e, language) != correctOption then multiset(words)[e] else 0
  {
    if words == [] then []
    else
      var rest := DistractorPool(words[1..], correctOption, language);
      assert words == [words[0]] + words[1..];
      if KeyText(words[0], language) != correctOption then [words[0]] + rest else rest
  }

  /** `[word[key_to_use] for word in entries]` */
  function KeyTexts(entries: seq<Entry>, language: Language): (r: seq<string>)
    ensures |r| == |entries|
  {
    seq(|entries|, i requires 0 <= i < |entries| => KeyText(entries[i], language))
  }

  /** A text that no sampled distractor carries does not occur among their texts. */
  lemma {:induction false} AbsentFromKeyTexts(entries: seq<Entry>, pool: seq<Entry>, text: string, language: Language)
    requires multiset(entries) <= multiset(pool)
    requires forall e :: e in pool ==> KeyText(e, language) != text
    ensures multiset(KeyTexts(entries, language))[text] == 0
  {
    var texts := KeyTexts(entries, language);
    forall i | 0 <= i < |texts|
      ensures texts[i] != text
    {
      assert entries[i] in multiset(entries);
    }
    assert text !in texts;
  }

  /**
   * `generate_options`: the correct text plus `min(n - 1, |pool|)` distractor
   * texts sampled without replacement from the entries whose text differs,
   * shuffled.  A non-positive `n` makes `random.sample` raise `ValueError`,
   * caught, so only the correct text is offered.  `distractors` are the
   * sampled entries.
   */
  method GenerateOptions(correctWord: Entry, words: seq<Entry>, language: Language, numberOfOptions: int)
    returns (options: seq<string>, ghost distractors: seq<Entry>)
    ensures numberOfOptions >= 1 ==>
      |options| == 1 + Min(numberOfOptions - 1, |DistractorPool(words, KeyText(correctWord, language), language)|)
    ensures numberOfOptions < 1 ==> options == [KeyText(correctWord, language)]
    ensures multiset(options)[KeyText(correctWord, language)] == 1
    ensures multiset(distractors) <= multiset(DistractorPool(words, KeyText(correctWord, language), language))
    ensures multiset(options) == multiset([KeyText(correctWord, language)] + KeyTexts(distractors, language))
  {
    var correctOption := KeyText(correctWord, language);
    var available := DistractorPool(words, correctOption, language);
    var numIncorrect;
    if |available| < numberOfOptions - 1 {
      numIncorrect := |available|;
    } else {
      numIncorrect := numberOfOptions - 1;
    }
    var sampled := Sample(available, numIncorrect);
    var incorrect := if sampled.Some? then sampled.value else [];
    assert sampled.None? <==> numberOfOptions < 1;
    distractors := incorrect;
    AbsentFromKeyTexts(incorrect, available, correctOption, language);
    var texts := KeyTexts(incorrect, language);
    var listed := [correctOption] + texts;
    assert multiset(listed) == multiset{correctOption} + multiset(texts);
    options := ShuffleList(listed);
    if numberOfOptions < 1 {
      assert listed == [correctOption];
      assert options[0] in multiset(options);
      assert options == [correctOption];
    } else {
      assert |options| == 1 + numIncorrect;
    }
  }

  /**
   * `is_answer_correct`: an input that is one of "1".."n" selects that option,
   * which is lowered and compared; any other input is compared as text.
   */
  function IsAnswerCorrect(userInput: string, correctEn: string, correctUa: string,
                           language: Language, options: seq<string>): (r: bool)
    ensures forall k :: 1 <= k <= |options| && userInput == NatToString(k) ==>
      (r <==> Lower(options[k - 1]) == InLanguage(correctEn, correctUa, language))
    ensures (forall k :: 1 <= k <= |options| ==> userInput != NatToString(k)) ==>
      (r <==> userInput == InLanguage(correctEn, correctUa, language))
  {
    OptionNumeralsMember(userInput, |options|);
    var correctAnswer := InLanguage(correctEn, correctUa, language);
    if userInput in OptionNumerals(|options|) then
      var k := ParseDecimal(userInput);
      Lower(options[k - 1]) == correctAnswer
    else
      userInput == correctAnswer
  }

  /** "0" and numerals past the last option are not choices: they are compared as plain text. */
  lemma OutOfRangeNumeral(k: nat, correctEn: string, correctUa: string, language: Language, options: seq<string>)
    requires k == 0 || k > |options|
    ensures IsAnswerCorrect(NatToString(k), correctEn, correctUa, language, options)
            <==> NatToString(k) == InLanguage(correctEn, correctUa, language)
  {
    forall j | 1 <= j <= |options|
      ensures NatToString(k) != NatToString(j)
    {
      if NatToString(k) == NatToString(j) {
        NatToStringInjective(k, j);
      }
    }
  }

  /** With options ["cat", "dog"] and the answer "dog", typing "2" is correct. */
  lemma ChoosingByNumber()
    ensures IsAnswerCorrect("2", "dog", "пес", En, ["cat", "dog"])
    ensures !IsAnswerCorrect("1", "dog", "пес", En, ["cat", "dog"])
  {
    assert NatToString(2) == "2";
    assert NatToString(1) == "1";
    assert Lower("dog") == "dog";
    assert Lower("cat")[0] == 'c';
  }

  /**
   * The distractor filter is case-sensitive while the check lowers the chosen
   * option: "cat" survives as a distractor of "Cat", and then both options
   * are accepted.
   */
  lemma CaseVariantDistractor()
    ensures DistractorPool([Entry("Cat", "кіт", None, None), Entry("cat", "кішка", None, None)], "Cat", En)
            == [Entry("cat", "кішка", None, None)]
    ensures IsAnswerCorrect("1", "cat", "кіт", En, ["Cat", "cat"])
    ensures IsAnswerCorrect("2", "cat", "кіт", En, ["Cat", "cat"])
  {
    assert NatToString(2) == "2";
    assert NatToString(1) == "1";
    assert Lower("Cat") == "cat";
    assert Lower("cat") == "cat";
    assert "Cat" != "cat";
  }

  /** What one round shows: the question text and the numbered options. */
  datatype Screen = Screen(prompt: string, options: seq<string>)

  /**
   * The non-answer options are the texts of `distractors`, entries sampled
   * without replacement from the distractor pool.
   */
  predicate SampledDistractors(distractors: seq<Entry>, options: seq<string>, word: Entry, words: seq<Entry>,
                               language: Language)
  {
    && multiset(distractors) <= multiset(DistractorPool(words, KeyText(word, language), language))
    && multiset(options) == multiset([KeyText(word, language)] + KeyTexts(distractors, language))
  }

  /**
   * A round's screen for `word`: its question, and its answer exactly once
   * among as many options as the pool allows, the others sampled from the pool.
   */
  ghost predicate ShowsChoices(screen: Screen, word: Entry, words: seq<Entry>, language: Language)
  {
    && screen.prompt == Prompt(word, language)
    && multiset(screen.options)[KeyText(word, language)] == 1
    && |screen.options| == 1 + Min(NumberOfOptions - 1, |DistractorPool(words, KeyText(word, language), language)|)
    && exists distractors :: SampledDistractors(distractors, screen.options, word, words, language)
  }

  /**
   * The check the inner loop applies to an answer line: `is_answer_correct`
   * with both stored texts lowered, as `main` passes them.
   */
  function AnswerCheck(word: Entry, language: Language, options: seq<string>): string -> bool
  {
    var correctEn, correctUa := Lower(word.en), Lower(word.ua);
    (userInput: string) => IsAnswerCorrect(userInput, correctEn, correctUa, language, options)
  }

  /**
   * With the stored answers lowered by `main`, typing the number of an option
   * accepts it exactly when that option matches the answer up to case; any
   * line that is not an option number must equal the lowered answer.
   */
  lemma AnswerCheckMeaning(word: Entry, language: Language, options: seq<string>)
    ensures forall k :: 1 <= k <= |options| ==>
      (AnswerCheck(word, language, options)(NatToString(k)) <==> Lower(options[k - 1]) == Lower(KeyText(word, language)))
    ensures forall userInput :: userInput !in OptionNumerals(|options|) ==>
      (AnswerCheck(word, language, options)(userInput) <==> userInput == Lower(KeyText(word, language)))
  {
    assert InLanguage(Lower(word.en), Lower(word.ua), language) == Lower(KeyText(word, language));
    forall userInput | userInput !in OptionNumerals(|options|)
      ensures AnswerCheck(word, language, options)(userInput) <==> userInput == Lower(KeyText(word, language))
    {
      OptionNumeralsMember(userInput, |options|);
    }
  }

  /** The answer check of every round: round `r` judged `drawn[r]` against the options of `screens[r]`. */
  function Checks(drawn: seq<Entry>, screens: seq<Screen>, language: Language): seq<string -> bool>
    requires |drawn| == |screens|
  {
    seq(|drawn|, r requires 0 <= r < |drawn| => AnswerCheck(drawn[r], language, screens[r].options))
  }

  lemma ChecksSnoc(drawn: seq<Entry>, screens: seq<Screen>, language: Language, word: Entry, screen: Screen)
    requires |drawn| == |screens|
    ensures Checks(drawn + [word], screens + [screen], language)
            == Checks(drawn, screens, language) + [AnswerCheck(word, language, screen.options)]
  {
    var d, s := drawn + [word], screens + [screen];
    assert forall r :: 0 <= r < |drawn| ==> d[r] == drawn[r] && s[r] == screens[r];
  }

  /** Every round's screen so far shows its entry's choices. */
  ghost predicate AllShowChoices(screens: seq<Screen>, drawn: seq<Entry>, words: seq<Entry>, language: Language)
  {
    |screens| == |drawn| && forall i :: 0 <= i < |screens| ==> ShowsChoices(screens[i], drawn[i], words, language)
  }

  lemma AllShowChoicesSnoc(screens: seq<Screen>, drawn: seq<Entry>, words: seq<Entry>, language: Language,
                           screen: Screen, word: Entry)
    requires AllShowChoices(screens, drawn, words, language)
    requires ShowsChoices(screen, word, words, language)
    ensures AllShowChoices(screens + [screen], drawn + [word], words, language)
  {
    var s, d := screens + [screen], drawn + [word];
    forall i | 0 <= i < |s|
      ensures ShowsChoices(s[i], d[i], words, language)
    {
      if i < |screens| {
        assert s[i] == screens[i] && d[i] == drawn[i];
      }
    }
  }

  /** One round's display: the question in the other language and eight numbered options. */
  method PresentRound(word: Entry, words: seq<Entry>, language: Language) returns (screen: Screen)
    ensures ShowsChoices(screen, word, words, language)
  {
    var options, distractors := GenerateOptions(word, words, language, NumberOfOptions);
    screen := Screen(Prompt(word, language), options);
    assert SampledDistractors(distractors, screen.options, word, words, language);
  }

  /**
   * What a run of `main` guarantees: `Played`, with each round's answers
   * judged by `AnswerCheck` for its entry and options, and every round's
   * screen showing its entry's choices.
   */
  ghost predicate PlayedQuiz(words: seq<Entry>, language: Language, lines: seq<string>, o: Outcome<Screen>)
  {
    AllShowChoices(o.screens, o.drawn, words, language) && Played(words, lines, o, Checks(o.drawn, o.screens, language))
  }

  /** The state of `main` at the top of its outer loop, with the screens shown so far. */
  ghost predicate Between(words: seq<Entry>, language: Language, lines: seq<string>, tally: Tally, pos: nat,
                          drawn: seq<Entry>, starts: seq<nat>, screens: seq<Screen>)
  {
    && AllShowChoices(screens, drawn, words, language)
    && Progress(words, lines, tally, pos, drawn, starts, Checks(drawn, screens, language))
  }

  /** `choose_word` returning `None` ends the session as a win. */
  lemma QuizWon(words: seq<Entry>, language: Language, lines: seq<string>, tally: Tally, pos: nat,
                drawn: seq<Entry>, starts: seq<nat>, screens: seq<Screen>)
    requires Between(words, language, lines, tally, pos, drawn, starts, screens)
    requires |words| > 0 && Keys(words) <= tally.used
    ensures PlayedQuiz(words, language, lines, Outcome(Won, tally, pos, drawn, starts, screens,
                                                       tally.correct > 0 || tally.incorrect > 0))
  {
    SessionWon(words, lines, tally, pos, drawn, starts, Checks(drawn, screens, language), screens);
  }

  /**
   * One pass of `main`'s outer loop for the drawn `entry`: show its screen,
   * then read its round, judged by `AnswerCheck` for that screen.
   */
  method Turn(words: seq<Entry>, language: Language, lines: seq<string>, tally: Tally, pos: nat,
              drawn: seq<Entry>, starts: seq<nat>, screens: seq<Screen>, entry: Entry)
    returns (stop: Option<Ending>, after: Tally, next: nat, screen: Screen)
    requires Between(words, language, lines, tally, pos, drawn, starts, screens)
    requires entry in words && entry.en !in tally.used
    ensures stop.Some? ==>
      PlayedQuiz(words, language, lines, Outcome(stop.value, after, next, drawn + [entry], starts + [pos], screens + [screen],
                                                 stop.value == UserQuit && (after.correct > 0 || after.incorrect > 0)))
    ensures stop.None? ==> Between(words, language, lines, after, next, drawn + [entry], starts + [pos], screens + [screen])
    ensures stop.None? ==> |Keys(words) - after.used| < |Keys(words) - tally.used|
  {
    screen := PresentRound(entry, words, language);
    AllShowChoicesSnoc(screens, drawn, words, language, screen, entry);
    ChecksSnoc(drawn, screens, language, entry, screen);
    var accepts := AnswerCheck(entry, language, screen.options);
    stop, after, next := PlayRound(words, lines, tally, pos, drawn, starts, screens + [screen],
                                   Checks(drawn, screens, language), entry, accepts);
  }

  /**
   * `main` after argument parsing and loading: rounds until every key is
   * learned, the user quits, or `lines` runs out.  Every answer line is
   * judged by `is_answer_correct` for the entry and the options of its round.
   */
  method Play(words: seq<Entry>, language: Language, lines: seq<string>) returns (o: Outcome<Screen>)
    ensures PlayedQuiz(words, language, lines, o)
  {
    if |words| == 0 {
      return Outcome(NoWords, Tally({}, 0, 0), 0, [], [], [], false);
    }
    var tally := Tally({}, 0, 0);
    var pos := 0;
    var drawn: seq<Entry> := [];
    var starts: seq<nat> := [];
    var screens: seq<Screen> := [];
    SessionStart(words, lines);
    var word := ChooseWord(words, tally.used);
    while word.Some?
      invariant Between(words, language, lines, tally, pos, drawn, starts, screens)
      invariant word.None? ==> Keys(words) <= tally.used
      invariant word.Some? ==> word.value in words && word.value.en !in tally.used
      decreases |Keys(words) - tally.used|
    {
      var stop, after, next, screen := Turn(words, language, lines, tally, pos, drawn, starts, screens, word.value);
      if stop.Some? {
        return Outcome(stop.value, after, next, drawn + [word.value], starts + [pos], screens + [screen],
                       stop.value == UserQuit && (after.correct > 0 || after.incorrect > 0));
      }
      tally, pos, drawn, starts, screens := after, next, drawn + [word.value], starts + [pos], screens + [screen];
      word := ChooseWord(words, tally.used);
    }
    QuizWon(words, language, lines, tally, pos, drawn, starts, screens);
    o := Outcome(Won, tally, pos, drawn, starts, screens, tally.correct > 0 || tally.incorrect > 0);
  }
}
