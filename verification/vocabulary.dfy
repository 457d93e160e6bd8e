/** The word bank and the draw of the next unused entry, shared by both quiz scripts. */
module Vocabulary {
  import opened Basics

  /** Which field the learner must produce (`--lang-ua` selects `Ua`, the default is `En`). */
  datatype Language = En | Ua

  /**
   * One object of the data file: the English and Ukrainian texts, and the
   * optional `times` and `type` tags the sentence drill highlights.
   */
  datatype Entry = Entry(en: string, ua: string, times: Option<string>, kind: Option<string>)

  /** `en if language == 'en' else ua`: the text of the selected language. */
  function InLanguage(en: string, ua: string, language: Language): string
  {
    if language == En then en else ua
  }

  /** `word[key_to_use]` with `key_to_use = 'en' if language == 'en' else 'ua'`: the expected answer. */
  function KeyText(word: Entry, language: Language): string
  {
    InLanguage(word.en, word.ua, language)
  }

  /** `word['ua'] if language == 'en' else word['en']`: the text the question shows. */
  function Prompt(word: Entry, language: Language): (p: string)
    ensures language == En ==> p == word.ua && KeyText(word, language) == word.en
    ensures language == Ua ==> p == word.en && KeyText(word, language) == word.ua
  {
    InLanguage(word.ua, word.en, language)
  }

  /** The `'en'` keys of the bank: what `used_words` can ever hold. */
  function Keys(words: seq<Entry>): set<string>
  {
    set e | e in words :: e.en
  }

  /** `[word for word in words if word['en'] not in used_words]` */
  function Available(words: seq<Entry>, used: set<string>): (r: seq<Entry>)
    ensures forall e :: e in r <==> e in words && e.en !in used
    ensures multiset(r) <= multiset(words)
    ensures forall e :: multiset(r)[e] == if e.en !in used then multiset(words)[e] else 0
  {
    if words == [] then []
    else
      var rest := Available(words[1..], used);
      assert words == [words[0]] + words[1..];
      if words[0].en !in used then [words[0]] + rest else rest
  }

  /**
   * `choose_word`: `None` exactly when every key is used; otherwise one entry,
   * drawn at random, whose key is not used yet.
   */
  method ChooseWord(words: seq<Entry>, used: set<string>) returns (word: Option<Entry>)
    ensures word.None? <==> Keys(words) <= used
    ensures word.Some? ==> word.value in words && word.value.en !in used
  {
    var available := Available(words, used);
    AvailableEmpty(words, used);
    if |available| == 0 {
      return None;
    }
    var i :| 0 <= i < |available|;
    word := Some(available[i]);
  }

  /** Once every key is used, nothing is left to draw; while one is not, something is. */
  lemma {:induction false} AvailableEmpty(words: seq<Entry>, used: set<string>)
    ensures |Available(words, used)| == 0 <==> Keys(words) <= used
  {
    var available := Available(words, used);
    if |available| > 0 {
      assert available[0] in available;
      assert available[0].en in Keys(words);
    } else {
      forall k | k in Keys(words)
        ensures k in used
      {
        var e :| e in words && e.en == k;
        assert e !in available;
      }
    }
  }
}
