# lrn — a verified model of the two vocabulary drills

`lrn` is a terminal program for learning English–Ukrainian vocabulary. It loads a bank of entries
(`en`, `ua`, and for sentences optional `times` and `type` tags), then runs rounds until every
entry's English key has been answered correctly, the learner types `q`, or input ends. There are two
scripts:

- **`lrn.py`, the word drill.** Each round shows the entry in the other language and eight numbered
  options: the answer plus up to seven random distractors, shuffled. The learner answers with an
  option number or with the word itself.
- **`speech-demo.py`, the sentence drill.** Each round highlights the entry's tense and sentence type,
  shows the translation, and shows the answer sentence with its words shuffled. The learner must type
  the whole sentence.

In both scripts `s` repeats the word aloud, and a wrong answer is counted and the same entry is asked
again. A correct answer marks the entry's English key as used.

The model consists of these modules:

| module | contents |
|---|---|
| `Basics` | `Option` and `Min` |
| `Text` | lower-casing, whitespace, `str.split` and `" ".join` |
| `Numerals` | `str(n)` and `int(s)` for option numbers |
| `Randomness` | `random.shuffle` and `random.sample`, with the random draws left nondeterministic |
| `Vocabulary` | entries and `choose_word` |
| `Session` | the round/retry state machine the two `main` functions share |
| `WordQuiz` | `lrn.py` |
| `SentenceQuiz` | `speech-demo.py` |

How the source is represented:

- **`main` becomes `Play`.** It is a method per script, with the local state as variables and loop
  invariants.
- **Input.** The keyboard is a sequence of raw lines.
- **The run's result.** It is an `Outcome`, holding:
  - why the session ended;
  - the final counts and how many lines were read;
  - the entries drawn, the line each round started at, and what each round showed;
  - whether the counts were printed.
- **The guarantee.** `Session.Played` states what every run guarantees, whatever the random draws:
  - the counts match the lines read;
  - reading stops at the first `q`;
  - no key is drawn twice;
  - a win means every key is used;
  - the counts are printed exactly when the source prints them;
  - each round's lines are judged by that round's own answer check. Every line of a round before its
    last is `s` or a rejected answer. A finished round's last line is accepted, a round cut short
    holds no accepted line, and no line past the last one read is used.

Three behaviours of the code that are easy to miss:

- **Where lowering happens.** In `lrn.py`, `is_answer_correct` does not lower a typed word itself. It
  relies on `main` having lowered both the input and the stored answers (lrn.py:139-142). Only the
  chosen option is lowered inside the function.
- **Distractors are not always distinct from the answer.** The filter is exact and case-sensitive
  (lrn.py:39). A distractor may be a case variant of the answer, and choosing it by number is
  accepted (`WordQuiz.CaseVariantDistractor`). Two distractors may also share a text.
- **When the counts are printed.** The final counts appear only when at least one answer was checked
  (lrn.py:146-148, 165-167). They are not printed unconditionally.

## Model

| member | source | states |
|---|---|---|
| `Vocabulary.Available` | lrn.py:26 | the filtered list holds exactly the bank's entries whose key is not used, each as often as in the bank |
| `Vocabulary.AvailableEmpty` | lrn.py:26-29 | the filtered list is empty exactly when every key of the bank is already used |
| `Vocabulary.ChooseWord` | lrn.py:24-30 | `None` exactly when every key is used; otherwise an entry of the bank whose key is unused (speech-demo.py:25-31 is the same function) |
| `Vocabulary.Prompt` | lrn.py:130 | the question shows `ua` when the answer is `en` and `en` when the answer is `ua` (also speech-demo.py:139) |
| `Randomness.Shuffle` | lrn.py:53 | `random.shuffle` leaves the array a permutation of its old contents |
| `Randomness.ShuffleList` | speech-demo.py:38 | shuffling a list yields a permutation of it, of the same length |
| `Randomness.Sample` | lrn.py:47-50 | `random.sample` raises `ValueError` exactly when `k` is negative or exceeds the population; otherwise it returns `k` elements drawn without replacement (a sub-multiset) |
| `WordQuiz.DistractorPool` | lrn.py:34-39 | an entry is a candidate distractor exactly when it is in the bank and its answer-language text differs from the answer, compared exactly; each such entry appears as often as in the bank, so duplicates in the bank add options |
| `WordQuiz.GenerateOptions` | lrn.py:32-54 | there are `1 + min(n-1, pool size)` options, or only the answer when `n < 1` (the `ValueError` branch); the answer occurs exactly once; the rest are the texts of pool entries drawn without replacement, all in a shuffled order |
| `WordQuiz.PresentRound` | lrn.py:130-136 | a round's screen shows the question and eight options (fewer when the bank is small): the answer exactly once, and besides it the texts of distractors sampled without replacement from the distractor pool |
| `Numerals.ParseNatToString` | lrn.py:88-90 | `int(str(n)) == n`, so typing option number `k` selects `options[k-1]` |
| `Numerals.NatToStringInjective` | lrn.py:88 | distinct option positions have distinct numerals |
| `Numerals.OptionNumeralsMember` | lrn.py:88 | a string is among `[str(i+1) for i in range(len(options))]` exactly when it is the numeral of a position `1..len(options)`, and `int` recovers that position |
| `WordQuiz.IsAnswerCorrect` | lrn.py:86-97 | the numeral of a position `k` is correct exactly when option `k`, lowered, equals the expected text; any other input is correct exactly when it equals the expected text, with no lowering inside the function |
| `WordQuiz.OutOfRangeNumeral` | lrn.py:95-97 | `"0"` or a number past the last option is not an option number and is compared as text |
| `WordQuiz.ChoosingByNumber` | lrn.py:88-92 | with options `["cat", "dog"]` and answer `dog`, `"2"` is accepted and `"1"` is rejected |
| `WordQuiz.CaseVariantDistractor` | lrn.py:39 | the entry `cat` stays a distractor for the answer `Cat`; both option numbers are then accepted |
| `WordQuiz.Play` | lrn.py:118-167 | a run of `main` ends as `Session.Played` describes, with every answer line judged by `is_answer_correct` for its round's entry and options; every round showed its entry's question with the answer exactly once among its options and sampled distractors |
| `WordQuiz.Turn` | lrn.py:125-162 | one pass of the outer loop shows the drawn entry's choices, then either ends the session as `Play` promises or returns to the loop's top with fewer unused keys |
| `WordQuiz.QuizWon` | lrn.py:125-128 | `choose_word` finding nothing ends the run as a win that `Play` promises |
| `WordQuiz.AnswerCheckMeaning` | lrn.py:141-153 | with the stored answers lowered by `main`, typing the number `k` of an option accepts it exactly when option `k` matches the answer up to case; any line that is not an option number is accepted exactly when it equals the lowered answer |
| `Numerals.NatToString` | lrn.py:88 | `str(n)` is a non-empty string of digits, with a leading `0` only for `n = 0` |
| `Numerals.ParseDecimal` | lrn.py:90 | a digit string without a leading zero is the numeral `str` prints for its `int` value |
| `Numerals.OptionNumerals` | lrn.py:88 | `[str(i+1) for i in range(n)]` has one numeral per option |
| `Text.Join` | speech-demo.py:39 | `" ".join` of no words is empty; otherwise the text starts with the first word, followed by a space when there are more words |
| `Text.Lower` | lrn.py:139 | lowering keeps the length of a string |
| `Text.LowerIdempotent` | lrn.py:139-142 | lowering twice is lowering once, so lowering the stored answers before the check changes nothing |
| `Text.TokenLength` | speech-demo.py:37 | the first word of a string ends at its first whitespace character |
| `Text.Split` | speech-demo.py:37 | `str.split()` yields only non-empty words without whitespace, and no character is lost: the words put back together are the text with its whitespace removed |
| `Text.SplitJoin` | speech-demo.py:37-39 | splitting `" ".join(words)` gives back the same words, in the same order |
| `Text.JoinSingleSpaced` | speech-demo.py:39 | the joined text has no leading or trailing whitespace and single plain spaces between words |
| `Text.SplitOfToken` | speech-demo.py:37 | a single word splits into itself |
| `SentenceQuiz.GenerateOptions` | speech-demo.py:33-39 | the scrambled sentence holds exactly the answer's words, as many times each, single-spaced; a sentence of at most one word is shown unscrambled |
| `SentenceQuiz.IsAnswerCorrect` | speech-demo.py:71-74 | the expected sentence of the selected language is always accepted; an accepted line is as long as it, which rests on `Text.Lower` keeping lengths (see "Left out") |
| `SentenceQuiz.SentenceCheckMeaning` | speech-demo.py:151-163 | with the stored answers lowered by `main`, an answer is accepted exactly when it equals the whole expected sentence up to case |
| `SentenceQuiz.SentenceCheckIgnoresCase` | speech-demo.py:74 | an answer and its lower-case form get the same verdict |
| `SentenceQuiz.SentenceCheckAcceptsAnswer` | speech-demo.py:71-74 | the expected sentence, in its own case or lowered, is accepted |
| `SentenceQuiz.WordOrderMatters` | speech-demo.py:74 | for the sentence `I go`, the answer `i GO` is accepted and the right words in the wrong order (`go I`) are rejected |
| `SentenceQuiz.HighlightTimes` | speech-demo.py:108-124 | `Past`, `Present` or `Future` is highlighted exactly when the lowered `times` tag (`Unknown` when absent) names it; at most one is |
| `SentenceQuiz.HighlightType` | speech-demo.py:109-131 | `Affirmation`, `Question` or `Negation` is highlighted exactly when the lowered `type` tag (`Unknown` when absent) names it; at most one is |
| `SentenceQuiz.MissingTagHighlightsNothing` | speech-demo.py:108-109 | an entry without a `times` or `type` tag highlights nothing in that row |
| `SentenceQuiz.HighlightIgnoresCase` | speech-demo.py:119-131 | the highlight does not depend on the case of the tag |
| `SentenceQuiz.PresentRound` | speech-demo.py:107-145 | a round's screen highlights the entry's tags, shows its question, and shows its answer's words scrambled |
| `SentenceQuiz.Play` | speech-demo.py:95-177 | a run of `main` ends as `Session.Played` describes, with every answer line judged by `is_answer_correct` for its round's entry; every round showed its entry's highlights, question and scrambled sentence |
| `SentenceQuiz.Turn` | speech-demo.py:102-172 | one pass of the outer loop shows the drawn entry's screen, then either ends the session as `Play` promises or returns to the loop's top with fewer unused keys |
| `SentenceQuiz.ScrambleWon` | speech-demo.py:102-105 | `choose_word` finding nothing ends the run as a win that `Play` promises |
| `Session.Classify` | lrn.py:139-150 | a line is `q` or `s` exactly when its lower-case form is; any other line is an answer, lowered |
| `Session.ClassifyIgnoresCase` | lrn.py:139 | a line and its lower-case form are the same command (`Q` quits) |
| `Session.Validated` | lrn.py:150-162 | at most one count per line read: only lines other than `q` and `s` reach the answer check |
| `Session.Step` | lrn.py:144-162 | one inner-loop pass: `q` ends the session; `s` changes nothing; an accepted answer adds the key to `used_words` and counts it correct; a rejected one counts it incorrect |
| `Session.RemainingShrinks` | lrn.py:156 | using an unused key makes the set of remaining keys smaller, so the outer loop ends |
| `Session.StepKeepsConsistent` | lrn.py:156-157 | `used_words` stays within the bank's keys, and `correct_count` equals its size |
| `Session.ConsistentBound` | lrn.py:156-157 | `correct_count` never exceeds the number of distinct keys, and equals it exactly when every key is used |
| `Session.SessionStart` | lrn.py:118-120 | the session starts with nothing used, counted, read or drawn |
| `Session.RoundCompleted` | lrn.py:124-158 | a round answered correctly returns to the top of the outer loop with one more key used and one entry more drawn |
| `Session.RoundStopped` | lrn.py:144-149 | a round cut short by `q` or by the end of input, with only `s` or rejected answers before it, ends the session as `Session.Played` describes, and after a `q` the counts are printed exactly when some answer has been checked |
| `Session.SessionWon` | lrn.py:125-127 | when `choose_word` finds nothing left, every key has been learned, and the counts are then printed (lines 165-167) exactly when an answer was checked |
| `Session.Round` | lrn.py:137-162 | the inner loop reads lines until an accepted answer, a `q`, or the end of input; every earlier line was `s` or a rejected answer, and the counts grow by one per checked line |
| `Session.PlayRound` | lrn.py:137-162 | reading one entry's round either ends the session as `Session.Played` describes or returns to the top of the outer loop with fewer unused keys and the round's lines judged by its check |
| `Session.RoundsSolvedSnoc` | lrn.py:150-159 | a round whose earlier lines are `s` or rejected answers and whose last line is accepted extends the record of solved rounds |
| `Session.StoppedJudged` | lrn.py:144-149 | a round cut short by `q` or the end of input, with no accepted line, leaves every earlier round solved |
| `Session.WonJudged` | lrn.py:125-128 | in a won session every drawn round was solved, and the last line read is the accepted answer of the last round |
| `Session.Played` | lrn.py:118-167 | what a whole run of `main` guarantees: counts match the lines read; reading stops at the first `q`; no key is drawn twice; a win means every key is used and no bank means no line read; counts are printed exactly as the source prints them; every round's lines are judged by its own check, with no extra lines |

## Left out

- `load_words` is not modelled: JSON file reading and its error messages are I/O. `Play` receives the
  loaded bank, and an empty bank ends as `NoWords`.
- `speak_word` is not modelled: it runs an external speech program. It has no effect on the session
  state.
- `clear_terminal`, argument parsing, all printed text and the ANSI colour codes are left out. The
  model keeps the screens' content (`Screen`) and whether the final counts are printed.
- `input()` is modelled as a finite sequence of lines. Running out of lines, which Python reports
  with `EOFError`, ends the session as `InputEnded`, with no counts printed.
- The concrete pseudo-random generator is not modelled. Every random choice is nondeterministic.
- `Randomness.Sample` models only CPython's pool algorithm. The set-based branch it uses for small
  samples of large populations draws the same distributions.
- `Text.Lower`: covers ASCII letters and the Cyrillic capitals U+0400–U+042F and U+0490 only. Other
  characters are left unchanged, unlike Python's full Unicode `str.lower`.
- `SentenceQuiz.IsAnswerCorrect`: its clause that an accepted line is as long as the expected sentence
  holds for this `Text.Lower`, which keeps lengths. Python's `str.lower` can lengthen a string
  (`"İ".lower()` has two code points), so the clause is not a promise of the Python code.
- `Text.IsSpace` lists the code points Python's `str.split()` treats as whitespace. Whether a
  character is whitespace is decided by that list, not by Unicode tables.
- Entries that lack `en` or `ua`, or that hold a non-string `times` or `type` tag, are not modelled.
  In Python these raise `KeyError` or `AttributeError`.
- The `ValueError` branch of `int(user_input)` inside `is_answer_correct` (lrn.py:93-94) cannot be
  reached, because the input is already known to be a numeral. It is not modelled as a separate
  path.
- The `tsv_to_json` conversion scripts are not part of this model.
