/**
 * The dictionary/letter phoneme fallback (app/utils/phonemeConverter.ts): a
 * word is lowercased and stripped of punctuation, then either looked up in a
 * small dictionary of phoneme spellings or split into its characters, each
 * shown as itself.
 */
module PhonemeConverter {
  import opened Wrappers
  import opened Text

  /** One displayed phoneme: the uppercased phoneme, its display text and its index. */
  datatype PhonemeSegment = PhonemeSegment(phoneme: string, display: string, position: int)

  /** The characters the cleaning regular expression `[.,!?;:'"]` removes. */
  predicate IsPunctuation(c: char) {
    c == '.' || c == ',' || c == '!' || c == '?' || c == ';' || c == ':' || c == '\'' || c == '"'
  }

  predicate NoPunctuation(s: string) {
    forall i :: 0 <= i < |s| ==> !IsPunctuation(s[i])
  }

  /** `s` with every punctuation character removed, the rest kept in order. */
  function StripPunctuation(s: string): (r: string)
    ensures |r| <= |s|
    ensures NoPunctuation(r)
    ensures forall c :: c in r <==> c in s && !IsPunctuation(c)
  {
    if s == [] then []
    else (if IsPunctuation(s[0]) then [] else [s[0]]) + StripPunctuation(s[1..])
  }

  /** Removing punctuation from a string that has none changes nothing. */
  lemma {:induction false} StripPunctuationOfClean(s: string)
    requires NoPunctuation(s)
    ensures StripPunctuation(s) == s
    decreases |s|
  {
    if s != [] {
      StripPunctuationOfClean(s[1..]);
    }
  }

  /** Removing punctuation from a string made only of punctuation leaves nothing. */
  lemma {:induction false} StripAllPunctuation(s: string)
    requires forall i :: 0 <= i < |s| ==> IsPunctuation(s[i])
    ensures StripPunctuation(s) == []
    decreases |s|
  {
    if s != [] {
      StripAllPunctuation(s[1..]);
    }
  }

  /** Removing punctuation distributes over concatenation. */
  lemma {:induction false} StripPunctuationAppend(a: string, b: string)
    ensures StripPunctuation(a + b) == StripPunctuation(a) + StripPunctuation(b)
    decreases |a|
  {
    if a == [] {
      assert a + b == b;
    } else {
      assert (a + b)[0] == a[0];
      assert (a + b)[1..] == a[1..] + b;
      StripPunctuationAppend(a[1..], b);
    }
  }

  /**
   * The cleaning step of both functions: `toLowerCase()` and then the
   * punctuation removed. No punctuation and no uppercase ASCII letter is
   * left; every other character of the lowercased word is kept.
   */
  function Clean(word: string): (r: string)
    ensures NoPunctuation(r)
    ensures forall i :: 0 <= i < |r| ==> !IsAsciiUpper(r[i])
    ensures forall c :: c in r <==> c in Lower(word) && !IsPunctuation(c)
  {
    var lowered := Lower(word);
    assert forall c :: c in lowered ==> !IsAsciiUpper(c);
    StripPunctuation(lowered)
  }

  /** Cleaning a cleaned word changes nothing. */
  lemma CleanIdempotent(word: string)
    ensures Clean(Clean(word)) == Clean(word)
  {
    var w := Clean(word);
    assert Lower(w) == w;
    StripPunctuationOfClean(w);
  }

  /** A word made only of punctuation cleans to the empty word. */
  lemma {:induction false} AllPunctuationCleansToEmpty(word: string)
    requires forall i :: 0 <= i < |word| ==> IsPunctuation(word[i])
    ensures Clean(word) == []
  {
    var lowered := Lower(word);
    assert forall i :: 0 <= i < |lowered| ==> lowered[i] == word[i];
    StripAllPunctuation(lowered);
  }

  /** `BASIC_WORD_PHONEMES`: the phoneme spelling of each dictionary word, if it has one. */
  function BasicWordPhonemes(word: string): Option<seq<string>> {
    match word
    case "he" => Some(["h", "e"])
    case "waved" => Some(["w", "a", "v", "d"])
    case "a" => Some(["a"])
    case "wand" => Some(["w", "a", "n", "d"])
    case "and" => Some(["a", "n", "d"])
    case "magic" => Some(["m", "a", "g", "i", "c"])
    case "happened" => Some(["h", "a", "p", "p", "e", "n", "d"])
    case "the" => Some(["th", "e"])
    case "cat" => Some(["c", "a", "t"])
    case "dog" => Some(["d", "o", "g"])
    case "run" => Some(["r", "u", "n"])
    case "jump" => Some(["j", "u", "m", "p"])
    case "play" => Some(["p", "l", "ay"])
    case "book" => Some(["b", "oo", "k"])
    case "tree" => Some(["t", "r", "ee"])
    case "house" => Some(["h", "ou", "s", "e"])
    case "water" => Some(["w", "a", "t", "er"])
    case "happy" => Some(["h", "a", "p", "py"])
    case "ship" => Some(["sh", "i", "p"])
    case "fish" => Some(["f", "i", "sh"])
    case "chair" => Some(["ch", "ai", "r"])
    case "think" => Some(["th", "i", "n", "k"])
    case "this" => Some(["th", "i", "s"])
    case "that" => Some(["th", "a", "t"])
    case "when" => Some(["wh", "e", "n"])
    case "where" => Some(["wh", "e", "r", "e"])
    case "what" => Some(["wh", "a", "t"])
    case "who" => Some(["wh", "o"])
    case "why" => Some(["wh", "y"])
    case "how" => Some(["h", "ow"])
    case "now" => Some(["n", "ow"])
    case "cow" => Some(["c", "ow"])
    case "boy" => Some(["b", "oy"])
    case "toy" => Some(["t", "oy"])
    case "joy" => Some(["j", "oy"])
    case "day" => Some(["d", "ay"])
    case "way" => Some(["w", "ay"])
    case "say" => Some(["s", "ay"])
    case "stay" => Some(["st", "ay"])
    case "night" => Some(["n", "igh", "t"])
    case "light" => Some(["l", "igh", "t"])
    case "right" => Some(["r", "igh", "t"])
    case "sight" => Some(["s", "igh", "t"])
    case "might" => Some(["m", "igh", "t"])
    case "fight" => Some(["f", "igh", "t"])
    case "bright" => Some(["br", "igh", "t"])
    case "school" => Some(["sch", "oo", "l"])
    case "cool" => Some(["c", "oo", "l"])
    case "pool" => Some(["p", "oo", "l"])
    case "tool" => Some(["t", "oo", "l"])
    case "moon" => Some(["m", "oo", "n"])
    case "soon" => Some(["s", "oo", "n"])
    case "food" => Some(["f", "oo", "d"])
    case "good" => Some(["g", "oo", "d"])
    case "look" => Some(["l", "oo", "k"])
    case "took" => Some(["t", "oo", "k"])
    case "cook" => Some(["c", "oo", "k"])
    case "hook" => Some(["h", "oo", "k"])
    case _ => None
  }

  /**
   * `LETTER_TO_PHONEME`: each lowercase ASCII letter maps to itself; other
   * characters have no entry.
   */
  function LetterToPhoneme(c: char): (r: Option<string>)
    ensures r.Some? <==> IsAsciiLower(c)
  {
    if IsAsciiLower(c) then Some([c]) else None
  }

  /** `LETTER_TO_PHONEME[letter] || letter`. */
  function LetterDisplay(c: char): string {
    match LetterToPhoneme(c)
    case Some(p) => if p != "" then p else [c]
    case None => [c]
  }

  /** Whatever the character, the letter table shows it as itself. */
  lemma LetterDisplayIsLetter(c: char)
    ensures LetterDisplay(c) == [c]
  {
  }

  /** The display texts of the segments, in order. */
  function Displays(segments: seq<PhonemeSegment>): (r: seq<string>)
    ensures |r| == |segments|
    ensures forall i :: 0 <= i < |r| ==> r[i] == segments[i].display
  {
    seq(|segments|, i requires 0 <= i < |segments| => segments[i].display)
  }

  /**
   * `getWordPhonemesFromCMU`: on a dictionary hit, one segment per entry
   * (phoneme uppercased, display verbatim, position the index); otherwise one
   * segment per character of the cleaned word.
   */
  function FromCMU(word: string): (r: seq<PhonemeSegment>)
    ensures forall i :: 0 <= i < |r| ==> r[i].position == i && r[i].phoneme == Upper(r[i].display)
    ensures BasicWordPhonemes(Clean(word)).Some? ==> Displays(r) == BasicWordPhonemes(Clean(word)).value
    ensures BasicWordPhonemes(Clean(word)).None? ==>
      |r| == |Clean(word)| && forall i :: 0 <= i < |r| ==> r[i].display == [Clean(word)[i]]
  {
    var w := Clean(word);
    if BasicWordPhonemes(w).Some? then
      var entry := BasicWordPhonemes(w).value;
      seq(|entry|, i requires 0 <= i < |entry| => PhonemeSegment(Upper(entry[i]), entry[i], i))
    else
      seq(|w|, i requires 0 <= i < |w| =>
        LetterDisplayIsLetter(w[i]);
        PhonemeSegment(Upper([w[i]]), LetterDisplay(w[i]), i))
  }

  /** `getWordPhonemesAsStrings`: the dictionary entry verbatim, or the display of each character. */
  function AsStrings(word: string): (r: seq<string>)
    ensures BasicWordPhonemes(Clean(word)).Some? ==> r == BasicWordPhonemes(Clean(word)).value
  {
    var w := Clean(word);
    if BasicWordPhonemes(w).Some? then BasicWordPhonemes(w).value
    else seq(|w|, i requires 0 <= i < |w| => LetterDisplay(w[i]))
  }

  /** For every word, the strings are exactly the display texts of the segments. */
  lemma AsStringsAreDisplays(word: string)
    ensures AsStrings(word) == Displays(FromCMU(word))
  {
    var w := Clean(word);
    if BasicWordPhonemes(w).None? {
      forall i | 0 <= i < |w|
        ensures AsStrings(word)[i] == Displays(FromCMU(word))[i]
      {
        LetterDisplayIsLetter(w[i]);
      }
    }
  }

  /** On a dictionary miss the strings spell the cleaned word, one character each. */
  lemma {:induction false} MissSpellsCleanWord(word: string)
    requires BasicWordPhonemes(Clean(word)).None?
    ensures Concat(AsStrings(word)) == Clean(word)
  {
    var w := Clean(word);
    var r := AsStrings(word);
    forall i | 0 <= i < |w| ensures r[i] == [w[i]] {
      LetterDisplayIsLetter(w[i]);
    }
    ConcatOfCharacters(w, r);
  }

  /** Joining the one-character strings of `s` gives back `s`. */
  lemma {:induction false} ConcatOfCharacters(s: string, parts: seq<string>)
    requires |parts| == |s|
    requires forall i :: 0 <= i < |s| ==> parts[i] == [s[i]]
    ensures Concat(parts) == s
    decreases |s|
  {
    if s != [] {
      ConcatOfCharacters(s[1..], parts[1..]);
      assert parts[0] == [s[0]];
    }
  }

  /** The empty word is not in the dictionary, so a word that cleans to nothing has no phonemes. */
  lemma EmptyWordHasNoPhonemes(word: string)
    requires Clean(word) == []
    ensures FromCMU(word) == [] && AsStrings(word) == []
  {
  }
}
