/**
 * The audio phoneme reader (app/components/AudioPhonemeReader.tsx): the same
 * grapheme/phoneme pairs as the phoneme reader, plus a cache of audio files
 * for the phonemes shown, built from a fixed phoneme-to-file table, and a
 * playback choice between the cached file and speech.
 *
 * An audio element is modelled by the URL it loads; creating one is assumed
 * not to throw.
 */
module AudioPhonemeReader {
  import opened Wrappers
  import opened Text
  import opened GraphemeAlignment
  import PhonemeReader

  /**
   * `phonemeToAudioFile`: the audio file for each ARPAbet symbol, with `J` as
   * an alternative spelling of `JH` and each vowel and diphthong also listed
   * with stress marks 0, 1 and 2. The 85 keys are one to three characters
   * long and are matched here character by character.
   */
  function AudioFile(phoneme: string): Option<string> {
    if |phoneme| == 1 then AudioFile1(phoneme[0])
    else if |phoneme| == 2 then AudioFile2(phoneme[0], phoneme[1])
    else if |phoneme| == 3 then AudioFile3(phoneme[0], phoneme[1], phoneme[2])
    else None
  }

  /** The one-letter consonant keys. */
  function AudioFile1(a: char): Option<string> {
    match a
    case 'P' => Some("p.wav") case 'B' => Some("b.wav") case 'T' => Some("t.wav") case 'D' => Some("d.wav")
    case 'K' => Some("k.wav") case 'G' => Some("g.wav") case 'F' => Some("f.wav") case 'V' => Some("v.wav")
    case 'S' => Some("s.wav") case 'Z' => Some("z.wav") case 'M' => Some("m.wav") case 'N' => Some("n.wav")
    case 'L' => Some("l.wav") case 'R' => Some("r.wav") case 'W' => Some("w.wav") case 'Y' => Some("y.wav")
    case 'H' => Some("h.wav") case 'J' => Some("j.wav")
    case _ => None
  }

  /** The two-letter keys: consonants, `JH` and the bare vowels and diphthongs. */
  function AudioFile2(a: char, b: char): Option<string> {
    match (a, b)
    case ('S', 'H') => Some("sh.wav") case ('C', 'H') => Some("ch.wav") case ('T', 'H') => Some("th.wav")
    case ('D', 'H') => Some("dh.wav") case ('Z', 'H') => Some("zh.wav") case ('N', 'G') => Some("ng.wav")
    case ('J', 'H') => Some("j.wav") case ('I', 'H') => Some("ih.wav") case ('E', 'H') => Some("eh.wav")
    case ('A', 'E') => Some("ae.wav") case ('A', 'H') => Some("ah.wav") case ('A', 'O') => Some("ao.wav")
    case ('U', 'H') => Some("uh.wav") case ('I', 'Y') => Some("iy.wav") case ('E', 'Y') => Some("ey.wav")
    case ('A', 'A') => Some("aa.wav") case ('O', 'W') => Some("ow.wav") case ('U', 'W') => Some("uw.wav")
    case ('E', 'R') => Some("er.wav") case ('A', 'Y') => Some("ay.wav") case ('A', 'W') => Some("aw.wav")
    case ('O', 'Y') => Some("oy.wav")
    case _ => None
  }

  /** The stress-marked vowels and diphthongs. */
  function AudioFile3(a: char, b: char, c: char): Option<string> {
    match (a, b, c)
    case ('I', 'H', '0') => Some("ih.wav") case ('I', 'H', '1') => Some("ih.wav")
    case ('I', 'H', '2') => Some("ih.wav") case ('E', 'H', '0') => Some("eh.wav")
    case ('E', 'H', '1') => Some("eh.wav") case ('E', 'H', '2') => Some("eh.wav")
    case ('A', 'E', '0') => Some("ae.wav") case ('A', 'E', '1') => Some("ae.wav")
    case ('A', 'E', '2') => Some("ae.wav") case ('A', 'H', '0') => Some("ah.wav")
    case ('A', 'H', '1') => Some("ah.wav") case ('A', 'H', '2') => Some("ah.wav")
    case ('A', 'O', '0') => Some("ao.wav") case ('A', 'O', '1') => Some("ao.wav")
    case ('A', 'O', '2') => Some("ao.wav") case ('U', 'H', '0') => Some("uh.wav")
    case ('U', 'H', '1') => Some("uh.wav") case ('U', 'H', '2') => Some("uh.wav")
    case ('I', 'Y', '0') => Some("iy.wav") case ('I', 'Y', '1') => Some("iy.wav")
    case ('I', 'Y', '2') => Some("iy.wav") case ('E', 'Y', '0') => Some("ey.wav")
    case ('E', 'Y', '1') => Some("ey.wav") case ('E', 'Y', '2') => Some("ey.wav")
    case ('A', 'A', '0') => Some("aa.wav") case ('A', 'A', '1') => Some("aa.wav")
    case ('A', 'A', '2') => Some("aa.wav") case ('O', 'W', '0') => Some("ow.wav")
    case ('O', 'W', '1') => Some("ow.wav") case ('O', 'W', '2') => Some("ow.wav")
    case ('U', 'W', '0') => Some("uw.wav") case ('U', 'W', '1') => Some("uw.wav")
    case ('U', 'W', '2') => Some("uw.wav") case ('E', 'R', '0') => Some("er.wav")
    case ('E', 'R', '1') => Some("er.wav") case ('E', 'R', '2') => Some("er.wav")
    case ('A', 'Y', '0') => Some("ay.wav") case ('A', 'Y', '1') => Some("ay.wav")
    case ('A', 'Y', '2') => Some("ay.wav") case ('A', 'W', '0') => Some("aw.wav")
    case ('A', 'W', '1') => Some("aw.wav") case ('A', 'W', '2') => Some("aw.wav")
    case ('O', 'Y', '0') => Some("oy.wav") case ('O', 'Y', '1') => Some("oy.wav")
    case ('O', 'Y', '2') => Some("oy.wav")
    case _ => None
  }

  const AudioDirectory: string := "/audio/phonemes/"

  /** The vowel and diphthong symbols that carry stress marks. */
  const StressedSymbols: seq<string> :=
    ["IH", "EH", "AE", "AH", "AO", "UH", "IY", "EY", "AA", "OW", "UW", "ER", "AY", "AW", "OY"]

  /** A stress mark 0, 1 or 2 on a vowel or diphthong selects the same file as the bare symbol. */
  lemma StressMarksShareFile(v: string, mark: char)
    requires v in StressedSymbols && mark in "012"
    ensures AudioFile(v).Some? && AudioFile(v + [mark]) == AudioFile(v)
  {
    var k := v + [mark];
    assert |v| == 2 && |k| == 3 && k[0] == v[0] && k[1] == v[1] && k[2] == mark;
  }

  /** `JH` and its alternative spelling `J` play the same file. */
  lemma AffricateSpellingsShareFile()
    ensures AudioFile("JH") == AudioFile("J") == Some("j.wav")
  {
  }

  /** The cache `preloadAudioFiles` builds: every mapped phoneme of the list, loading its file. */
  function AudioCache(phonemes: seq<string>): (cache: map<string, string>)
    ensures forall p :: p in cache <==> p in phonemes && AudioFile(p).Some?
    ensures forall p :: p in cache ==> cache[p] == AudioDirectory + AudioFile(p).value
  {
    map p | p in phonemes && AudioFile(p).Some? :: AudioDirectory + AudioFile(p).value
  }

  /**
   * `preloadAudioFiles`: walk the phonemes, adding an audio element for each
   * one the table maps; unmapped phonemes are skipped. The keys are exactly
   * the mapped phonemes of the list.
   */
  method PreloadAudioFiles(phonemes: seq<string>) returns (cache: map<string, string>)
    ensures forall p :: p in cache <==> p in phonemes && AudioFile(p).Some?
    ensures forall p :: p in cache ==> cache[p] == AudioDirectory + AudioFile(p).value
    ensures cache == AudioCache(phonemes)
  {
    cache := map[];
    for i := 0 to |phonemes|
      invariant forall p :: p in cache <==> p in phonemes[..i] && AudioFile(p).Some?
      invariant forall p :: p in cache ==> cache[p] == AudioDirectory + AudioFile(p).value
    {
      var phoneme := phonemes[i];
      assert phonemes[..i + 1] == phonemes[..i] + [phoneme];
      if AudioFile(phoneme).Some? {
        cache := cache[phoneme := AudioDirectory + AudioFile(phoneme).value];
      }
    }
    assert phonemes[..|phonemes|] == phonemes;
  }

  /** The phonemes of the pairs, in order. */
  function PhonemesOf(pairs: seq<GraphemePhoneme>): (r: seq<string>)
    ensures |r| == |pairs|
    ensures forall i :: 0 <= i < |pairs| ==> r[i] == pairs[i].phoneme
  {
    seq(|pairs|, i requires 0 <= i < |pairs| => pairs[i].phoneme)
  }

  /** The component state after the conversion effect: the pairs and the audio cache for their phonemes. */
  datatype AudioState = AudioState(pairs: seq<GraphemePhoneme>, cache: map<string, string>)

  /**
   * The conversion effect: the same pairs as the phoneme reader (the code is
   * duplicated there), then the audio of the pairs' phonemes preloaded.
   */
  function Convert(word: string, phonemified: Option<string>): (r: AudioState)
    ensures phonemified.Some? ==> Spelled(r.pairs) == CleanWord(word)
    ensures phonemified.None? ==> Spelled(r.pairs) == KeepLetters(word)
    ensures r.cache == AudioCache(PhonemesOf(r.pairs))
  {
    var pairs := PhonemeReader.Convert(word, phonemified);
    AudioState(pairs, AudioCache(PhonemesOf(pairs)))
  }

  /** What playback does: play a file, or speak a text at a rate in tenths. */
  datatype Playback = PlayFile(url: string) | Speak(text: string, rateTenths: int)

  /** The short speech table of the fallback. */
  const FallbackSounds: map<string, string> :=
    map["SH" := "shh", "IH" := "ih", "P" := "puh", "K" := "kuh", "AE" := "ah", "T" := "tuh"]

  /** `fallbackToSpeechSynthesis`: the table sound, or the lowercased phoneme, at rate 0.4. */
  function FallbackSpeech(phoneme: string): (r: Playback)
    ensures r.Speak? && r.rateTenths == 4
    ensures phoneme in FallbackSounds ==> r.text == FallbackSounds[phoneme]
    ensures phoneme !in FallbackSounds ==> r.text == Lower(phoneme)
  {
    Speak(if phoneme in FallbackSounds && FallbackSounds[phoneme] != "" then FallbackSounds[phoneme] else Lower(phoneme), 4)
  }

  /**
   * `playPhoneme`: play the cached file if there is one, falling back to
   * speech when playing fails (`playFails`); without a cached file, speak.
   */
  function PlayPhoneme(cache: map<string, string>, phoneme: string, playFails: bool): (r: seq<Playback>)
    ensures 1 <= |r| <= 2
    ensures r[|r| - 1].Speak? ==> r[|r| - 1] == FallbackSpeech(phoneme)
    ensures r[0].PlayFile? <==> phoneme in cache
    ensures phoneme in cache ==> r[0] == PlayFile(cache[phoneme]) && (|r| == 2 <==> playFails)
    ensures phoneme !in cache ==> r == [FallbackSpeech(phoneme)]
  {
    if phoneme in cache then
      if playFails then [PlayFile(cache[phoneme]), FallbackSpeech(phoneme)] else [PlayFile(cache[phoneme])]
    else [FallbackSpeech(phoneme)]
  }

  /**
   * After the conversion effect, clicking a pair whose phoneme has a file
   * plays that file from the phoneme directory; any other phoneme is spoken.
   */
  lemma ClickedPairPlaysItsFile(word: string, phonemified: Option<string>, k: int)
    requires 0 <= k < |Convert(word, phonemified).pairs|
    ensures var s := Convert(word, phonemified);
      var ph := s.pairs[k].phoneme;
      PlayPhoneme(s.cache, ph, false) ==
        if AudioFile(ph).Some? then [PlayFile(AudioDirectory + AudioFile(ph).value)] else [FallbackSpeech(ph)]
  {
    var s := Convert(word, phonemified);
    assert PhonemesOf(s.pairs)[k] == s.pairs[k].phoneme;
  }
}
