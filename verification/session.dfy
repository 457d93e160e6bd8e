/**
 * The round/retry state machine of `main`, shared by both quiz scripts: the
 * tally (`used_words`, `correct_count`, `incorrect_count`), how one input line
 * moves it, and the inner loop that repeats the same entry until it is
 * answered correctly.
 */
module Session {
  import opened Basics
  import opened Text
  import opened Vocabulary

  /** What one input line asks for, after `input(...).lower()`. */
  datatype Command = Quit | Speak | Answer(text: string)

  /** A one-character line whose lower-case form is `c`. */
  predicate IsLetter(line: string, c: char)
  {
    |line| == 1 && LowerChar(line[0]) == c
  }

  /** `user_input = input(...).lower()`, then the `'q'` test, then the `'s'` test. */
  function Classify(line: string): (command: Command)
    ensures command == Quit <==> Lower(line) == "q"
    ensures command == Speak <==> Lower(line) == "s"
    ensures command.Answer? ==> command.text == Lower(line)
  {
    assert IsLetter(line, 'q') <==> Lower(line) == "q" by {
      if |line| == 1 { assert Lower(line)[0] == LowerChar(line[0]); }
    }
    assert IsLetter(line, 's') <==> Lower(line) == "s" by {
      if |line| == 1 { assert Lower(line)[0] == LowerChar(line[0]); }
    }
    if IsLetter(line, 'q') then Quit else if IsLetter(line, 's') then Speak else Answer(Lower(line))
  }

  /** Commands ignore case: a line and its lower-case form mean the same. */
  lemma ClassifyIgnoresCase(line: string)
    ensures Classify(Lower(line)) == Classify(line)
    ensures Classify(line).Answer? ==> Lower(Classify(line).text) == Classify(line).text
  {
    LowerIdempotent(line);
  }

  /** The number of the first `n` lines that reach the answer check (neither `q` nor `s`). */
  function Validated(lines: seq<string>, n: nat): (count: nat)
    requires n <= |lines|
    ensures count <= n
  {
    if n == 0 then 0
    else Validated(lines, n - 1) + (if Classify(lines[n - 1]).Answer? then 1 else 0)
  }

  /** The mutable state of `main`: `used_words`, `correct_count`, `incorrect_count`. */
  datatype Tally = Tally(used: set<string>, correct: nat, incorrect: nat)

  /** `used_words` only holds keys of the bank, one per correct answer. */
  predicate Consistent(tally: Tally, words: seq<Entry>)
  {
    tally.used <= Keys(words) && tally.correct == |tally.used|
  }

  /** What `main` does after one line: leave, repeat the prompt, or draw the next entry. */
  datatype Reaction = EndSession | SpeakAgain | Retry | NextRound

  /**
   * One pass of the inner loop for the entry `word` on `command`; `accepted`
   * is the answer check's verdict and only matters for an answer.
   */
  function Step(tally: Tally, word: Entry, command: Command, accepted: bool): (r: (Reaction, Tally))
    ensures r.0 == EndSession <==> command == Quit
    ensures r.0 == NextRound <==> command.Answer? && accepted
    ensures !command.Answer? ==> r.1 == tally
    ensures r.1.correct + r.1.incorrect == tally.correct + tally.incorrect + (if command.Answer? then 1 else 0)
    ensures r.0 == NextRound ==>
      r.1.used == tally.used + {word.en} && r.1.correct == tally.correct + 1 && r.1.incorrect == tally.incorrect
    ensures r.0 != NextRound ==> r.1.used == tally.used && r.1.correct == tally.correct
  {
    match command
    case Quit => (EndSession, tally)
    case Speak => (SpeakAgain, tally)
    case Answer(_) =>
      if accepted then (NextRound, Tally(tally.used + {word.en}, tally.correct + 1, tally.incorrect))
      else (Retry, tally.(incorrect := tally.incorrect + 1))
  }

  /** Taking an unused key out of the remaining ones shrinks them: the outer loop's measure. */
  lemma RemainingShrinks(keys: set<string>, used: set<string>, k: string)
    requires k in keys && k !in used
    ensures |keys - (used + {k})| < |keys - used|
  {
    assert keys - (used + {k}) == (keys - used) - {k};
  }

  /** A correct answer for an unused entry of the bank keeps the tally consistent. */
  lemma StepKeepsConsistent(tally: Tally, words: seq<Entry>, word: Entry, command: Command, accepted: bool)
    requires Consistent(tally, words) && word in words && word.en !in tally.used
    ensures Consistent(Step(tally, word, command, accepted).1, words)
  {
  }

  /** The number of correct answers never exceeds the number of distinct keys. */
  lemma ConsistentBound(tally: Tally, words: seq<Entry>)
    requires Consistent(tally, words)
    ensures tally.correct <= |Keys(words)|
    ensures tally.correct == |Keys(words)| <==> tally.used == Keys(words)
  {
    var keys := Keys(words);
    assert keys == tally.used + (keys - tally.used);
    assert |keys| == |tally.used| + |keys - tally.used|;
    if tally.used != keys {
      var k :| k in keys && k !in tally.used;
      assert k in keys - tally.used;
    }
  }

  /** How a session ends. */
  datatype Ending =
    | NoWords     // the bank is empty: `main` returns before the first round
    | Won         // `choose_word` returned `None`: every key is used
    | UserQuit    // a `q` line
    | InputEnded  // no line left to read (`input()` would raise `EOFError`)

  /**
   * The end state of `main`: why it ended, the tally, how many input lines
   * it read, the entries it drew (in order) with the index of the first line
   * read for each and what each round showed, and whether the final counts
   * were printed.
   */
  datatype Outcome<S> = Outcome(ending: Ending, tally: Tally, consumed: nat,
                                drawn: seq<Entry>, starts: seq<nat>, screens: seq<S>, tallyPrinted: bool)

  /** No key is drawn twice. */
  predicate DistinctKeys(drawn: seq<Entry>)
  {
    forall i, j :: 0 <= i < j < |drawn| ==> drawn[i].en != drawn[j].en
  }

  /** The tally is consistent and counts every validated line read. */
  predicate Counted<S>(words: seq<Entry>, lines: seq<string>, o: Outcome<S>)
    requires o.consumed <= |lines|
  {
    && Consistent(o.tally, words)
    && (o.ending == Won ==> o.tally.used == Keys(words))
    && o.tally.correct + o.tally.incorrect == Validated(lines, o.consumed)
  }

  /** The session reads up to the first `q` and no further; it ends early only when input runs out. */
  predicate StoppedAtFirstQuit<S>(lines: seq<string>, o: Outcome<S>)
    requires o.consumed <= |lines|
  {
    && (forall i :: 0 <= i < o.consumed && Classify(lines[i]) == Quit ==>
          o.ending == UserQuit && i == o.consumed - 1)
    && (o.ending == UserQuit ==> 0 < o.consumed && Classify(lines[o.consumed - 1]) == Quit)
    && (o.ending == InputEnded ==> o.consumed == |lines|)
  }

  /**
   * Entries come from the bank without repeating a key: one per correct
   * answer, plus the unfinished round when the session did not end by a win.
   */
  predicate DrawnOnce<S>(words: seq<Entry>, o: Outcome<S>)
  {
    && (forall i :: 0 <= i < |o.drawn| ==> o.drawn[i] in words)
    && DistinctKeys(o.drawn)
    && |o.drawn| == o.tally.correct + (if o.ending == UserQuit || o.ending == InputEnded then 1 else 0)
    && o.tally.used == Keys(o.drawn[..o.tally.correct])
    && |o.screens| == |o.drawn|
  }

  /** The counts are printed exactly when the session ends by winning or quitting after a validated line. */
  predicate Reported<S>(lines: seq<string>, o: Outcome<S>)
    requires o.consumed <= |lines|
  {
    o.tallyPrinted <==> (o.ending == Won || o.ending == UserQuit) && Validated(lines, o.consumed) > 0
  }

  /** The line after the last one of round `r`: where the next round starts, or `end` after the last round. */
  function RoundEnd(starts: seq<nat>, r: nat, end: nat): nat
    requires r < |starts|
  {
    if r + 1 < |starts| then starts[r + 1] else end
  }

  /**
   * Rounds that began on lines `starts` and were all solved, the last one on
   * line `end - 1`: in round `r`, every line but the last was `s` or an
   * answer `checks[r]` rejected, and the last was an answer `checks[r]`
   * accepted.
   */
  predicate RoundsSolved(lines: seq<string>, starts: seq<nat>, end: nat, checks: seq<string -> bool>)
  {
    && |checks| == |starts|
    && end <= |lines|
    && (if |starts| == 0 then end == 0 else starts[0] == 0)
    && (forall r {:trigger RoundEnd(starts, r, end)} :: 0 <= r < |starts| ==> starts[r] < RoundEnd(starts, r, end) <= end)
    && (forall r, i :: 0 <= r < |starts| && starts[r] <= i < RoundEnd(starts, r, end) - 1 ==>
          Retried(lines[i], checks[r]))
    && (forall r {:trigger RoundEnd(starts, r, end)} :: 0 <= r < |starts| ==> Solved(lines[RoundEnd(starts, r, end) - 1], checks[r]))
  }

  /**
   * The round a session ended in, begun on line `start`: every line but the
   * last was `s` or an answer `check` rejected; a `q` needs a line of its own.
   */
  predicate RoundCutShort<S>(lines: seq<string>, o: Outcome<S>, start: nat, check: string -> bool)
    requires o.consumed <= |lines|
  {
    && start <= o.consumed
    && (forall i :: start <= i < o.consumed - 1 ==> Retried(lines[i], check))
    && (o.ending == UserQuit ==> start < o.consumed)
    && (o.ending == InputEnded && start < o.consumed ==> Retried(lines[o.consumed - 1], check))
  }

  /**
   * Every line read was judged by the answer check of the round it belongs
   * to (`checks[r]` for the `r`-th drawn entry): the finished rounds were
   * solved, the unfinished one was cut short, and a win ends on the line
   * that solved the last round.
   */
  predicate Judged<S>(lines: seq<string>, o: Outcome<S>, checks: seq<string -> bool>)
    requires o.consumed <= |lines|
  {
    && |o.starts| == |o.drawn| == |checks|
    && o.tally.correct <= |o.drawn|
    && (if o.tally.correct == |o.drawn| then RoundsSolved(lines, o.starts, o.consumed, checks)
        else
          && RoundsSolved(lines, o.starts[..o.tally.correct], o.starts[o.tally.correct], checks[..o.tally.correct])
          && RoundCutShort(lines, o, o.starts[o.tally.correct], checks[o.tally.correct]))
    && (o.ending == Won ==> 0 < |o.drawn| && 0 < o.consumed && Solved(lines[o.consumed - 1], checks[|o.drawn| - 1]))
  }

  /**
   * What every run of `main` guarantees, whatever the random draws, when the
   * `r`-th drawn entry's answers are judged by `checks[r]`.
   */
  predicate Played<S>(words: seq<Entry>, lines: seq<string>, o: Outcome<S>, checks: seq<string -> bool>)
  {
    && o.consumed <= |lines|
    && (o.ending == NoWords <==> |words| == 0)
    && (o.ending == NoWords ==> o.consumed == 0)
    && Counted(words, lines, o)
    && StoppedAtFirstQuit(lines, o)
    && DrawnOnce(words, o)
    && Reported(lines, o)
    && Judged(lines, o, checks)
  }

  /** A line after which the same entry is asked again: `s`, or an answer the check rejects. */
  predicate Retried(line: string, accepts: string -> bool)
  {
    var command := Classify(line);
    command == Speak || (command.Answer? && !accepts(command.text))
  }

  /** A line that solves the round: an answer the check accepts. */
  predicate Solved(line: string, accepts: string -> bool)
  {
    var command := Classify(line);
    command.Answer? && accepts(command.text)
  }

  /** Lines read so far: none of them `q`, every validated one counted. */
  predicate ReadSoFar(words: seq<Entry>, lines: seq<string>, tally: Tally, pos: nat)
  {
    && pos <= |lines|
    && Consistent(tally, words)
    && tally.correct + tally.incorrect == Validated(lines, pos)
    && (forall i :: 0 <= i < pos ==> Classify(lines[i]) != Quit)
  }

  /** Entries drawn so far: one per correct answer, from the bank, each with a fresh key. */
  predicate DrawnSoFar(words: seq<Entry>, tally: Tally, drawn: seq<Entry>)
  {
    && |drawn| == tally.correct
    && (forall i :: 0 <= i < |drawn| ==> drawn[i] in words)
    && DistinctKeys(drawn)
    && tally.used == Keys(drawn)
  }

  /** The state of `main` at the top of its outer loop. */
  predicate BetweenRounds(words: seq<Entry>, lines: seq<string>, tally: Tally, pos: nat, drawn: seq<Entry>)
  {
    ReadSoFar(words, lines, tally, pos) && DrawnSoFar(words, tally, drawn)
  }

  /**
   * The state of `main` at the top of its outer loop, with the first line
   * of each round so far and the answer check each round used.
   */
  predicate Progress(words: seq<Entry>, lines: seq<string>, tally: Tally, pos: nat, drawn: seq<Entry>,
                     starts: seq<nat>, checks: seq<string -> bool>)
  {
    BetweenRounds(words, lines, tally, pos, drawn) && |starts| == |drawn| && RoundsSolved(lines, starts, pos, checks)
  }

  /** The state of `main` before its first round: nothing read, nothing drawn, nothing used. */
  lemma SessionStart(words: seq<Entry>, lines: seq<string>)
    ensures Progress(words, lines, Tally({}, 0, 0), 0, [], [], [])
  {
    assert Keys([]) == {};
  }

  /** A drawn entry with an unused key of the bank extends what was drawn. */
  lemma DrawFresh(words: seq<Entry>, tally: Tally, drawn: seq<Entry>, word: Entry)
    requires DrawnSoFar(words, tally, drawn) && word in words && word.en !in tally.used
    ensures DistinctKeys(drawn + [word])
    ensures Keys(drawn + [word]) == tally.used + {word.en}
    ensures forall i :: 0 <= i < |drawn + [word]| ==> (drawn + [word])[i] in words
  {
    var d := drawn + [word];
    forall i | 0 <= i < |drawn|
      ensures d[i].en != word.en && d[i] in words
    {
      assert d[i] == drawn[i];
      assert drawn[i] in drawn;
    }
    assert forall e :: e in d <==> e in drawn || e == word;
  }

  /** The lines of a round answered correctly hold no `q` and are all counted. */
  lemma ReadAfterRound(words: seq<Entry>, lines: seq<string>, tally: Tally, pos: nat,
                       word: Entry, accepts: string -> bool, after: Tally, next: nat)
    requires ReadSoFar(words, lines, tally, pos)
    requires word in words && word.en !in tally.used
    requires pos < next <= |lines|
    requires after.correct + after.incorrect == Validated(lines, next)
    requires after.used == tally.used + {word.en} && after.correct == tally.correct + 1
    requires forall i :: pos <= i < next - 1 ==> Retried(lines[i], accepts)
    requires Solved(lines[next - 1], accepts)
    ensures ReadSoFar(words, lines, after, next)
  {
    forall i | 0 <= i < next
      ensures Classify(lines[i]) != Quit
    {
      if i < pos {
      } else if i < next - 1 {
        assert Retried(lines[i], accepts);
      } else {
        assert Solved(lines[i], accepts);
      }
    }
    assert word.en in Keys(words);
  }

  /** A round answered correctly leads back to the top of the outer loop with the remaining keys fewer. */
  lemma RoundCompleted(words: seq<Entry>, lines: seq<string>, tally: Tally, pos: nat, drawn: seq<Entry>,
                       word: Entry, accepts: string -> bool, after: Tally, next: nat)
    requires BetweenRounds(words, lines, tally, pos, drawn)
    requires word in words && word.en !in tally.used
    requires pos < next <= |lines|
    requires after.correct + after.incorrect == Validated(lines, next)
    requires after.used == tally.used + {word.en} && after.correct == tally.correct + 1
    requires forall i :: pos <= i < next - 1 ==> Retried(lines[i], accepts)
    requires Solved(lines[next - 1], accepts)
    ensures BetweenRounds(words, lines, after, next, drawn + [word])
    ensures |Keys(words) - after.used| < |Keys(words) - tally.used|
  {
    ReadAfterRound(words, lines, tally, pos, word, accepts, after, next);
    DrawFresh(words, tally, drawn, word);
    RemainingShrinks(Keys(words), tally.used, word.en);
  }

  /** Where a round cut short leaves the lines read. */
  lemma StoppedReading<S>(lines: seq<string>, pos: nat, o: Outcome<S>)
    requires pos <= o.consumed <= |lines|
    requires o.ending == UserQuit || o.ending == InputEnded
    requires forall i :: 0 <= i < pos ==> Classify(lines[i]) != Quit
    requires forall i :: pos <= i < o.consumed - 1 ==> Classify(lines[i]) != Quit
    requires o.ending == UserQuit ==> pos < o.consumed && Classify(lines[o.consumed - 1]) == Quit
    requires o.ending == InputEnded ==>
      o.consumed == |lines| && (pos < o.consumed ==> Classify(lines[o.consumed - 1]) != Quit)
    ensures StoppedAtFirstQuit(lines, o)
  {
    forall i | 0 <= i < o.consumed && Classify(lines[i]) == Quit
      ensures o.ending == UserQuit && i == o.consumed - 1
    {
      if i < pos {
        assert false;
      }
    }
  }

  /** What a round cut short leaves drawn: the finished rounds and the unfinished one. */
  lemma StoppedDrawn<S>(words: seq<Entry>, tally: Tally, drawn: seq<Entry>, word: Entry, o: Outcome<S>)
    requires DrawnSoFar(words, tally, drawn) && word in words && word.en !in tally.used
    requires o.ending == UserQuit || o.ending == InputEnded
    requires o.drawn == drawn + [word] && |o.screens| == |o.drawn|
    requires o.tally.used == tally.used && o.tally.correct == tally.correct
    ensures DrawnOnce(words, o)
  {
    DrawFresh(words, tally, drawn, word);
    assert o.drawn[..o.tally.correct] == drawn;
  }

  /** Adding a round solved on lines `pos..next` to rounds solved up to `pos`. */
  lemma RoundsSolvedSnoc(lines: seq<string>, starts: seq<nat>, pos: nat, checks: seq<string -> bool>,
                         accepts: string -> bool, next: nat)
    requires RoundsSolved(lines, starts, pos, checks)
    requires pos < next <= |lines|
    requires forall i :: pos <= i < next - 1 ==> Retried(lines[i], accepts)
    requires Solved(lines[next - 1], accepts)
    ensures RoundsSolved(lines, starts + [pos], next, checks + [accepts])
  {
    var s, c := starts + [pos], checks + [accepts];
    forall r | 0 <= r < |starts|
      ensures s[r] == starts[r] && c[r] == checks[r] && RoundEnd(s, r, next) == RoundEnd(starts, r, pos)
    {
    }
    assert RoundEnd(s, |starts|, next) == next;
  }

  /** The rounds of a session cut short: those solved before `pos`, then the one begun on line `pos`. */
  lemma StoppedJudged<S>(lines: seq<string>, starts: seq<nat>, pos: nat, checks: seq<string -> bool>,
                         accepts: string -> bool, o: Outcome<S>)
    requires RoundsSolved(lines, starts, pos, checks)
    requires o.ending == UserQuit || o.ending == InputEnded
    requires o.consumed <= |lines|
    requires o.starts == starts + [pos] && |o.drawn| == |o.starts| && o.tally.correct == |starts|
    requires RoundCutShort(lines, o, pos, accepts)
    ensures Judged(lines, o, checks + [accepts])
  {
    var c := checks + [accepts];
    assert o.starts[..o.tally.correct] == starts;
    assert c[..o.tally.correct] == checks;
  }

  /** A round cut short by `q` or by the end of input ends the session as `Played` says. */
  lemma RoundStopped<S>(words: seq<Entry>, lines: seq<string>, tally: Tally, pos: nat, drawn: seq<Entry>,
                        starts: seq<nat>, checks: seq<string -> bool>,
                        word: Entry, accepts: string -> bool, stop: Ending, after: Tally, next: nat, screens: seq<S>)
    requires BetweenRounds(words, lines, tally, pos, drawn)
    requires |starts| == |drawn| && RoundsSolved(lines, starts, pos, checks)
    requires |words| > 0 && word in words && word.en !in tally.used
    requires stop == UserQuit || stop == InputEnded
    requires pos <= next <= |lines|
    requires after.correct + after.incorrect == Validated(lines, next)
    requires after.used == tally.used && after.correct == tally.correct
    requires forall i :: pos <= i < next - 1 ==> Retried(lines[i], accepts)
    requires stop == UserQuit ==> pos < next && Classify(lines[next - 1]) == Quit
    requires stop == InputEnded ==> next == |lines| && (pos < next ==> Retried(lines[next - 1], accepts))
    requires |screens| == |drawn| + 1
    ensures Played(words, lines, Outcome(stop, after, next, drawn + [word], starts + [pos], screens,
                                         stop == UserQuit && (after.correct > 0 || after.incorrect > 0)),
                   checks + [accepts])
  {
    var o := Outcome(stop, after, next, drawn + [word], starts + [pos], screens,
                     stop == UserQuit && (after.correct > 0 || after.incorrect > 0));
    StoppedReading(lines, pos, o);
    StoppedDrawn(words, tally, drawn, word, o);
    StoppedJudged(lines, starts, pos, checks, accepts, o);
  }

  /** The rounds of a session won: all solved, the last one on the last line read. */
  lemma WonJudged<S>(lines: seq<string>, starts: seq<nat>, pos: nat, checks: seq<string -> bool>, o: Outcome<S>)
    requires RoundsSolved(lines, starts, pos, checks)
    requires o.ending == Won && o.consumed == pos && o.starts == starts
    requires |o.drawn| == |starts| == o.tally.correct && |starts| > 0
    ensures Judged(lines, o, checks)
  {
    assert RoundEnd(starts, |starts| - 1, pos) == pos;
  }

  /** `choose_word` returning `None` ends the session as a win. */
  lemma SessionWon<S>(words: seq<Entry>, lines: seq<string>, tally: Tally, pos: nat, drawn: seq<Entry>,
                      starts: seq<nat>, checks: seq<string -> bool>, screens: seq<S>)
    requires Progress(words, lines, tally, pos, drawn, starts, checks)
    requires |words| > 0 && Keys(words) <= tally.used
    requires |screens| == |drawn|
    ensures Played(words, lines, Outcome(Won, tally, pos, drawn, starts, screens, tally.correct > 0 || tally.incorrect > 0),
                   checks)
  {
    assert drawn[..tally.correct] == drawn;
    assert words[0].en in Keys(words);
    WonJudged(lines, starts, pos, checks, Outcome(Won, tally, pos, drawn, starts, screens, tally.correct > 0 || tally.incorrect > 0));
  }

  /**
   * The state inside the inner loop: lines `pos..next` read for `word`,
   * all of them counted; before the last, each asked for the same entry
   * again; the last one solved the round exactly when `solved`.
   */
  predicate RoundInvariant(word: Entry, tally: Tally, lines: seq<string>, pos: nat, accepts: string -> bool,
                           after: Tally, next: nat, solved: bool)
  {
    && pos <= next <= |lines|
    && after.correct + after.incorrect == Validated(lines, next)
    && after.incorrect >= tally.incorrect
    && (forall i :: pos <= i < next - 1 ==> Retried(lines[i], accepts))
    && (!solved ==> after.used == tally.used && after.correct == tally.correct)
    && (!solved && pos < next ==> Retried(lines[next - 1], accepts))
    && (solved ==>
          && pos < next && Solved(lines[next - 1], accepts)
          && after.used == tally.used + {word.en} && after.correct == tally.correct + 1)
  }

  /** Reading one more line in an unsolved round either quits or keeps `RoundInvariant`. */
  lemma RoundStep(word: Entry, tally: Tally, lines: seq<string>, pos: nat, accepts: string -> bool,
                  after: Tally, next: nat)
    requires RoundInvariant(word, tally, lines, pos, accepts, after, next, false)
    requires next < |lines|
    ensures var command := Classify(lines[next]);
            var r := Step(after, word, command, command.Answer? && accepts(command.text));
            && (r.0 == EndSession ==> r.1 == after && r.1.correct + r.1.incorrect == Validated(lines, next + 1))
            && (r.0 != EndSession ==> RoundInvariant(word, tally, lines, pos, accepts, r.1, next + 1, r.0 == NextRound))
  {
  }

  /**
   * The inner `while True` of `main` for one drawn entry: read lines from
   * `pos` until the entry is answered correctly (`stop == None`), a `q` line
   * is read, or the input runs out.  `accepts` is the script's answer check.
   * Every line before the last one read asked for the same entry again.
   */
  method Round(word: Entry, tally: Tally, lines: seq<string>, pos: nat, accepts: string -> bool)
    returns (stop: Option<Ending>, after: Tally, next: nat)
    requires pos <= |lines|
    requires tally.correct + tally.incorrect == Validated(lines, pos)
    ensures pos <= next <= |lines|
    ensures after.correct + after.incorrect == Validated(lines, next)
    ensures after.incorrect >= tally.incorrect
    ensures stop == None || stop == Some(UserQuit) || stop == Some(InputEnded)
    ensures forall i :: pos <= i < next - 1 ==> Retried(lines[i], accepts)
    ensures stop == None ==>
      && pos < next && Solved(lines[next - 1], accepts)
      && after.used == tally.used + {word.en} && after.correct == tally.correct + 1
    ensures stop == Some(UserQuit) ==>
      pos < next && Classify(lines[next - 1]) == Quit && after.used == tally.used && after.correct == tally.correct
    ensures stop == Some(InputEnded) ==>
      && next == |lines| && after.used == tally.used && after.correct == tally.correct
      && (pos < next ==> Retried(lines[next - 1], accepts))
  {
    after, next := tally, pos;
    var solved := false;
    while !solved
      invariant RoundInvariant(word, tally, lines, pos, accepts, after, next, solved)
      decreases |lines| - next, !solved
    {
      if next == |lines| {
        return Some(InputEnded), after, next;
      }
      var command := Classify(lines[next]);
      var accepted := command.Answer? && accepts(command.text);
      var r := Step(after, word, command, accepted);
      RoundStep(word, tally, lines, pos, accepts, after, next);
      after, next := r.1, next + 1;
      if r.0 == EndSession {
        return Some(UserQuit), after, next;
      }
      solved := r.0 == NextRound;
    }
    stop := None;
  }

  /**
   * One pass of `main`'s outer loop for a freshly drawn `word`, whose screen
   * is the last of `screens` and whose answers `accepts` judges: either the
   * session stops with the outcome `main` then reports, or the word is
   * learned on lines `pos..next` and the next round starts from a smaller set
   * of unlearned keys.
   */
  method PlayRound<S>(words: seq<Entry>, lines: seq<string>, tally: Tally, pos: nat, drawn: seq<Entry>,
                      starts: seq<nat>, screens: seq<S>, ghost checks: seq<string -> bool>,
                      word: Entry, accepts: string -> bool)
    returns (stop: Option<Ending>, after: Tally, next: nat)
    requires Progress(words, lines, tally, pos, drawn, starts, checks)
    requires word in words && word.en !in tally.used
    requires |screens| == |drawn| + 1
    ensures stop.Some? ==>
      Played(words, lines, Outcome(stop.value, after, next, drawn + [word], starts + [pos], screens,
                                   stop.value == UserQuit && (after.correct > 0 || after.incorrect > 0)),
             checks + [accepts])
    ensures stop.None? ==> Progress(words, lines, after, next, drawn + [word], starts + [pos], checks + [accepts])
    ensures stop.None? ==> |Keys(words) - after.used| < |Keys(words) - tally.used|
  {
    stop, after, next := Round(word, tally, lines, pos, accepts);
    if stop.Some? {
      RoundStopped(words, lines, tally, pos, drawn, starts, checks, word, accepts, stop.value, after, next, screens);
    } else {
      RoundCompleted(words, lines, tally, pos, drawn, word, accepts, after, next);
      RoundsSolvedSnoc(lines, starts, pos, checks, accepts, next);
    }
  }
}
