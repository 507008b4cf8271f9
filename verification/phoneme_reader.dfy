/**
 * The phoneme reader (app/components/PhonemeReader.tsx): a word is split into
 * grapheme/phoneme pairs for display, and a clicked phoneme is spoken with a
 * sound chosen from a fixed table. The phoneme library's output for the
 * cleaned word is an input: None stands for the library failing to load or
 * throwing.
 */
module PhonemeReader {
  import opened Wrappers
  import opened Text
  import opened GraphemeAlignment

  /**
   * The pairs the conversion effect stores for `word`: the aligned cleaned
   * word, or on the error path the word's letters, not lowercased, each under
   * its uppercase letter.
   */
  function Convert(word: string, phonemified: Option<string>): (r: seq<GraphemePhoneme>)
    ensures phonemified.Some? ==> Spelled(r) == CleanWord(word)
    ensures phonemified.None? ==> Spelled(r) == KeepLetters(word)
    ensures forall i, j :: 0 <= i < j < |r| ==> r[i].position < r[j].position
  {
    match phonemified
    case None => ErrorPairs(word)
    case Some(phonemes) =>
      var w := CleanWord(word);
      var ph := ParsePhonemes(phonemes);
      AlignSpellsWord(w, ph);
      Align(w, ph)
  }

  /** The main path and the error path spell the same letters, differing only in case. */
  lemma PathsSpellSameLetters(word: string, phonemes: string)
    ensures Spelled(Convert(word, Some(phonemes))) == Lower(Spelled(Convert(word, None)))
  {
    CleanWordIsLowerOfLetters(word);
  }

  /** A request to the speech synthesiser: the text and the rate in tenths. */
  datatype Utterance = Utterance(text: string, rateTenths: int)

  /** The sound spoken for each known phoneme. */
  const PhonemeSounds: map<string, string> := map[
    "SH" := "shhhh", "CH" := "chhhh", "TH" := "thhhh", "DH" := "thhhh", "ZH" := "zhhhh",
    "NG" := "nnnng", "P" := "pah", "B" := "bah", "T" := "tah", "D" := "dah", "K" := "kah",
    "G" := "gah", "F" := "fffff", "V" := "vvvvv", "S" := "sssss", "Z" := "zzzzz", "H" := "hhhh",
    "M" := "mmmm", "N" := "nnnn", "L" := "lllll", "R" := "rrrr", "W" := "wwww", "Y" := "yyyy",
    "JH" := "jah",
    "IH" := "ih", "IY" := "eee", "EH" := "eh", "EY" := "ay", "AE" := "ah", "AA" := "ahhh",
    "AH" := "uh", "AO" := "awww", "OW" := "oh", "UH" := "uh", "UW" := "ooo", "ER" := "errr",
    "AY" := "eye", "AW" := "ow", "OY" := "oy"
  ]

  /** The plosives, spoken a little faster. */
  predicate IsPlosive(phoneme: string) {
    phoneme == "P" || phoneme == "B" || phoneme == "T" || phoneme == "D" || phoneme == "K" || phoneme == "G" || phoneme == "JH"
  }

  /** Every table sound is non-empty, so whether the table sound is used depends on membership alone. */
  lemma SoundsNonEmpty()
    ensures forall k :: k in PhonemeSounds ==> PhonemeSounds[k] != ""
  {
  }

  /** Every plosive has a table sound. */
  lemma PlosivesHaveSounds(phoneme: string)
    requires IsPlosive(phoneme)
    ensures phoneme in PhonemeSounds
  {
  }

  /**
   * `speakPhoneme`: the table sound at rate 0.4 (0.6 for plosives), or the
   * lowercased phoneme name at rate 0.3 when the table has no entry.
   */
  function SpeakPhoneme(phoneme: string): (u: Utterance)
    ensures phoneme in PhonemeSounds ==> u.text == PhonemeSounds[phoneme] && u.rateTenths == (if IsPlosive(phoneme) then 6 else 4)
    ensures phoneme !in PhonemeSounds ==> u.text == Lower(phoneme) && u.rateTenths == 3
    ensures u.rateTenths == 6 <==> IsPlosive(phoneme)
  {
    if phoneme in PhonemeSounds && PhonemeSounds[phoneme] != "" then
      Utterance(PhonemeSounds[phoneme], if IsPlosive(phoneme) then 6 else 4)
    else
      Utterance(Lower(phoneme), 3)
  }
}
