/**
 * The grapheme/phoneme alignment shared by the two phoneme readers
 * (app/components/PhonemeReader.tsx and app/components/AudioPhonemeReader.tsx
 * hold the same code): a word is cleaned to its ASCII letters, the phoneme
 * string is split on spaces, and a two-pointer loop walks the letters,
 * taking a fixed digraph or a single letter per phoneme; letters left over
 * get their own uppercase letter as phoneme.
 */
module GraphemeAlignment {
  import opened Text

  /** One highlighted unit: its letters, the phoneme shown under it, and where it starts in the word. */
  datatype GraphemePhoneme = GraphemePhoneme(grapheme: string, phoneme: string, position: int)

  // ----- Cleaning and parsing -----

  /** `s.replace(/[^a-zA-Z]/g, '')`. */
  function KeepLetters(s: string): (r: string)
    ensures forall i :: 0 <= i < |r| ==> IsAsciiLetter(r[i])
    ensures (forall i :: 0 <= i < |s| ==> !IsAsciiUpper(s[i])) ==> forall i :: 0 <= i < |r| ==> !IsAsciiUpper(r[i])
    ensures |r| <= |s|
    decreases |s|
  {
    if s == [] then []
    else (if IsAsciiLetter(s[0]) then [s[0]] else []) + KeepLetters(s[1..])
  }

  /** The word the main path aligns: lowercased, then only ASCII letters kept. */
  function CleanWord(word: string): (r: string)
    ensures forall i :: 0 <= i < |r| ==> IsAsciiLower(r[i])
  {
    KeepLetters(Lower(word))
  }

  /** Lowercasing before or after dropping non-letters gives the same word. */
  lemma {:induction false} CleanWordIsLowerOfLetters(word: string)
    ensures CleanWord(word) == Lower(KeepLetters(word))
    decreases |word|
  {
    if word != [] {
      var lw := Lower(word);
      var tail := word[1..];
      assert lw[1..] == Lower(tail);
      CleanWordIsLowerOfLetters(tail);
      var head := if IsAsciiLetter(word[0]) then [word[0]] else [];
      assert KeepLetters(word) == head + KeepLetters(tail);
      assert KeepLetters(lw) == (if IsAsciiLetter(lw[0]) then [lw[0]] else []) + KeepLetters(lw[1..]);
      assert Lower(head) == (if IsAsciiLetter(lw[0]) then [lw[0]] else []);
      LowerAppend(head, KeepLetters(tail));
    }
  }

  /** Lowercasing distributes over concatenation. */
  lemma LowerAppend(a: string, b: string)
    ensures Lower(a + b) == Lower(a) + Lower(b)
  {
  }

  /** Cleaning an already clean word changes nothing. */
  lemma {:induction false} CleanWordIdempotent(word: string)
    ensures CleanWord(CleanWord(word)) == CleanWord(word)
  {
    var c := CleanWord(word);
    assert Lower(c) == c;
    KeepLettersOfLetters(c);
  }

  lemma {:induction false} KeepLettersOfLetters(s: string)
    requires forall i :: 0 <= i < |s| ==> IsAsciiLetter(s[i])
    ensures KeepLetters(s) == s
    decreases |s|
  {
    if s != [] {
      KeepLettersOfLetters(s[1..]);
    }
  }

  /** `.filter(p => p.trim() !== '' && p !== '-')`. */
  function KeepPhonemes(parts: seq<string>): (r: seq<string>)
    ensures forall p :: p in r <==> p in parts && HasNonWhitespace(p) && p != "-"
    ensures IsSubsequence(r, parts)
    ensures forall p :: multiset(r)[p] == if HasNonWhitespace(p) && p != "-" then multiset(parts)[p] else 0
    decreases |parts|
  {
    if parts == [] then []
    else
      assert parts == [parts[0]] + parts[1..];
      if HasNonWhitespace(parts[0]) && parts[0] != "-" then [parts[0]] + KeepPhonemes(parts[1..])
      else KeepPhonemes(parts[1..])
  }

  /** Filtering distributes over concatenation: the pieces are judged one at a time, in order. */
  lemma {:induction false} KeepPhonemesAppend(a: seq<string>, b: seq<string>)
    ensures KeepPhonemes(a + b) == KeepPhonemes(a) + KeepPhonemes(b)
    decreases |a|
  {
    if a != [] {
      ConsAppend(a, b);
      var ab := a + b;
      KeepPhonemesAppend(a[1..], b);
      var fa, fb := KeepPhonemes(a[1..]), KeepPhonemes(b);
      if HasNonWhitespace(a[0]) && a[0] != "-" {
        assert KeepPhonemes(ab) == [a[0]] + KeepPhonemes(ab[1..]);
        assert KeepPhonemes(a) == [a[0]] + fa;
        AppendAssociative([a[0]], fa, fb);
      } else {
        assert KeepPhonemes(ab) == KeepPhonemes(ab[1..]);
        assert KeepPhonemes(a) == fa;
      }
    } else {
      assert a + b == b;
    }
  }

  /** A single piece is kept exactly when it is not blank and not a dash. */
  lemma KeepOnePhoneme(piece: string)
    ensures KeepPhonemes([piece]) == if HasNonWhitespace(piece) && piece != "-" then [piece] else []
  {
    assert [piece][1..] == [];
  }

  /** The phoneme list: the string split on single spaces, blank pieces and dashes dropped. */
  function ParsePhonemes(s: string): (r: seq<string>)
    ensures forall p :: p in r ==> p != [] && ' ' !in p && p != "-" && HasNonWhitespace(p)
    ensures IsSubsequence(r, Split(s, ' '))
    ensures r == KeepPhonemes(Split(s, ' '))
  {
    var parts := Split(s, ' ');
    var r := KeepPhonemes(parts);
    assert forall p :: p in r ==> ' ' !in p by {
      forall p | p in r ensures ' ' !in p {
        var i :| 0 <= i < |parts| && parts[i] == p;
      }
    }
    r
  }

  /** Words separated by single spaces, none blank or a dash, parse back to themselves. */
  lemma ParseJoinedPhonemes(ps: seq<string>)
    requires |ps| >= 1
    requires forall i :: 0 <= i < |ps| ==> ' ' !in ps[i] && HasNonWhitespace(ps[i]) && ps[i] != "-"
    ensures ParsePhonemes(Join(ps, ' ')) == ps
  {
    SplitJoin(ps, ' ');
    KeepAllPhonemes(ps);
  }

  lemma {:induction false} KeepAllPhonemes(ps: seq<string>)
    requires forall i :: 0 <= i < |ps| ==> HasNonWhitespace(ps[i]) && ps[i] != "-"
    ensures KeepPhonemes(ps) == ps
    decreases |ps|
  {
    if ps != [] {
      KeepAllPhonemes(ps[1..]);
    }
  }

  // ----- Alignment -----

  /** The keys of the digraph table, as their two letters: sh, ch, th, ph, wh, ck, ng, qu. */
  predicate DigraphLetters(a: char, b: char) {
    (b == 'h' && (a == 's' || a == 'c' || a == 't' || a == 'p' || a == 'w')) ||
    (a == 'c' && b == 'k') || (a == 'n' && b == 'g') || (a == 'q' && b == 'u')
  }

  /** Whether `d` is a key of the digraph table. */
  predicate IsDigraph(d: string) {
    |d| == 2 && DigraphLetters(d[0], d[1])
  }

  /** A two-letter grapheme starts at `g`: a next letter exists and the lowercased pair is in the table. */
  predicate DigraphAt(w: string, g: int) {
    0 <= g && g + 1 < |w| && DigraphLetters(LowerChar(w[g]), LowerChar(w[g + 1]))
  }

  /** The leftover loop (and the no-phoneme fallback) from letter `g`: each letter with its uppercase letter. */
  function Letters(w: string, g: nat): seq<GraphemePhoneme>
    decreases |w| - g
  {
    if g < |w| then [GraphemePhoneme([w[g]], [UpperChar(w[g])], g)] + Letters(w, g + 1) else []
  }

  /**
   * The main loop from letter `g` and phoneme `p`, followed by the leftover
   * loop once either side runs out.
   */
  function MainPairs(w: string, ph: seq<string>, g: nat, p: nat): seq<GraphemePhoneme>
    decreases |w| - g
  {
    if g < |w| && p < |ph| then
      if DigraphAt(w, g) then [GraphemePhoneme([w[g], w[g + 1]], ph[p], g)] + MainPairs(w, ph, g + 2, p + 1)
      else [GraphemePhoneme([w[g]], ph[p], g)] + MainPairs(w, ph, g + 1, p + 1)
    else Letters(w, g)
  }

  /** The pairs of a cleaned word and its phoneme list: the main loops when both are non-empty, else the fallback. */
  function Align(w: string, ph: seq<string>): seq<GraphemePhoneme> {
    if |ph| > 0 && |w| > 0 then MainPairs(w, ph, 0, 0) else Letters(w, 0)
  }

  /** The number of pairs the main loop makes before either side runs out. */
  function MainCount(w: string, ph: seq<string>, g: nat, p: nat): nat
    decreases |w| - g
  {
    if g < |w| && p < |ph| then 1 + MainCount(w, ph, if DigraphAt(w, g) then g + 2 else g + 1, p + 1) else 0
  }

  /**
   * The main loop makes at most as many pairs as there are in all, uses no
   * more phonemes than there are, and makes every pair when phonemes are
   * left over.
   */
  lemma {:induction false} MainCountBounds(w: string, ph: seq<string>, g: nat, p: nat)
    ensures MainCount(w, ph, g, p) <= |MainPairs(w, ph, g, p)|
    ensures MainCount(w, ph, g, p) > 0 ==> p + MainCount(w, ph, g, p) <= |ph|
    ensures p + MainCount(w, ph, g, p) < |ph| ==> MainCount(w, ph, g, p) == |MainPairs(w, ph, g, p)|
    decreases |w| - g
  {
    if g < |w| && p < |ph| {
      var g' := if DigraphAt(w, g) then g + 2 else g + 1;
      MainCountBounds(w, ph, g', p + 1);
      assert MainPairs(w, ph, g, p)[1..] == MainPairs(w, ph, g', p + 1);
    } else {
      assert p < |ph| ==> MainPairs(w, ph, g, p) == Letters(w, g) == [];
    }
  }

  /** Where the main loop goes on after the pair at letter `g`. */
  function NextLetter(w: string, g: nat): nat {
    if DigraphAt(w, g) then g + 2 else g + 1
  }

  /** One step of the main loop: the first pair takes phoneme `p` at letter `g`, the rest go on from the next letter. */
  lemma MainPairsStep(w: string, ph: seq<string>, g: nat, p: nat)
    requires g < |w| && p < |ph|
    ensures var ps := MainPairs(w, ph, g, p);
      |ps| >= 1 && ps[0].phoneme == ph[p] && ps[0].position == g &&
      ps[1..] == MainPairs(w, ph, NextLetter(w, g), p + 1)
    ensures MainCount(w, ph, g, p) == 1 + MainCount(w, ph, NextLetter(w, g), p + 1)
  {
  }

  /** Past the first pair, the main loop's pairs are those of the loop from the next letter and phoneme. */
  lemma MainPairsShift(w: string, ph: seq<string>, g: nat, p: nat, k: nat)
    requires g < |w| && p < |ph| && 1 <= k < |MainPairs(w, ph, g, p)|
    ensures MainPairs(w, ph, g, p)[k] == MainPairs(w, ph, NextLetter(w, g), p + 1)[k - 1]
  {
    MainPairsStep(w, ph, g, p);
    assert MainPairs(w, ph, g, p)[1..][k - 1] == MainPairs(w, ph, g, p)[k];
  }

  /** The graphemes, written one after another. */
  function Spelled(ps: seq<GraphemePhoneme>): string
    decreases |ps|
  {
    if ps == [] then [] else ps[0].grapheme + Spelled(ps[1..])
  }

  /**
   * The pairs cover `w` from offset `g` to its end without gaps or overlap:
   * each pair starts where the previous one ended, and its grapheme is the
   * one or two letters found there.
   */
  ghost predicate Tiles(ps: seq<GraphemePhoneme>, w: string, g: int)
    decreases |ps|
  {
    if ps == [] then g == |w|
    else
      var n := |ps[0].grapheme|;
      && 0 <= g && 1 <= n <= 2 && g + n <= |w|
      && ps[0].position == g && ps[0].grapheme == w[g..g + n]
      && Tiles(ps[1..], w, g + n)
  }

  lemma {:induction false} LettersTile(w: string, g: nat)
    requires g <= |w|
    ensures Tiles(Letters(w, g), w, g)
    decreases |w| - g
  {
    if g < |w| {
      LettersTile(w, g + 1);
      assert Letters(w, g)[1..] == Letters(w, g + 1);
    }
  }

  lemma {:induction false} MainPairsTile(w: string, ph: seq<string>, g: nat, p: nat)
    requires g <= |w|
    ensures Tiles(MainPairs(w, ph, g, p), w, g)
    decreases |w| - g
  {
    if g < |w| && p < |ph| {
      var g' := NextLetter(w, g);
      var first := GraphemePhoneme(w[g..g'], ph[p], g);
      var rest := MainPairs(w, ph, g', p + 1);
      assert MainPairs(w, ph, g, p) == [first] + rest by {
        if DigraphAt(w, g) {
          assert w[g..g'] == [w[g], w[g + 1]];
        } else {
          assert w[g..g'] == [w[g]];
        }
      }
      MainPairsTile(w, ph, g', p + 1);
      assert ([first] + rest)[1..] == rest;
    } else {
      LettersTile(w, g);
    }
  }

  /** What tiling means: the graphemes spell the rest of the word, and positions are increasing start offsets. */
  lemma {:induction false} TilesFacts(ps: seq<GraphemePhoneme>, w: string, g: int)
    requires Tiles(ps, w, g)
    ensures 0 <= g <= |w| && Spelled(ps) == w[g..]
    ensures forall i :: 0 <= i < |ps| ==> ps[i].position == g + |Spelled(ps[..i])|
    ensures forall i :: 0 <= i < |ps| ==> g <= ps[i].position < |w|
    ensures forall i, j :: 0 <= i < j < |ps| ==> ps[i].position < ps[j].position
    decreases |ps|
  {
    if ps != [] {
      var n := |ps[0].grapheme|;
      var rest := ps[1..];
      TilesFacts(rest, w, g + n);
      assert w[g..] == w[g..g + n] + w[g + n..];
      forall i | 0 <= i < |ps|
        ensures ps[i].position == g + |Spelled(ps[..i])|
      {
        if i > 0 {
          assert ps[..i][1..] == rest[..i - 1];
          assert ps[i] == rest[i - 1];
        }
      }
      forall i, j | 0 <= i < j < |ps|
        ensures ps[i].position < ps[j].position
      {
        assert ps[j] == rest[j - 1];
        if i > 0 {
          assert ps[i] == rest[i - 1];
        }
      }
    }
  }

  /**
   * The alignment is a tiling of the whole word in every branch: the
   * graphemes concatenate back to the word, and each position is the start
   * offset of its grapheme, strictly increasing and inside the word.
   */
  lemma AlignSpellsWord(w: string, ph: seq<string>)
    ensures Tiles(Align(w, ph), w, 0)
    ensures Spelled(Align(w, ph)) == w
    ensures forall i :: 0 <= i < |Align(w, ph)| ==>
              Align(w, ph)[i].position == |Spelled(Align(w, ph)[..i])| && Align(w, ph)[i].position < |w|
    ensures forall i, j :: 0 <= i < j < |Align(w, ph)| ==> Align(w, ph)[i].position < Align(w, ph)[j].position
  {
    if |ph| > 0 && |w| > 0 {
      MainPairsTile(w, ph, 0, 0);
    } else {
      LettersTile(w, 0);
    }
    TilesFacts(Align(w, ph), w, 0);
  }

  /** The k-th pair of the main loop carries phoneme `p + k`: phonemes are consumed in order, one per pair. */
  lemma MainPairsPhonemes(w: string, ph: seq<string>, g: nat, p: nat)
    ensures forall k :: 0 <= k < MainCount(w, ph, g, p) ==>
              k < |MainPairs(w, ph, g, p)| && p + k < |ph| && MainPairs(w, ph, g, p)[k].phoneme == ph[p + k]
  {
    MainCountBounds(w, ph, g, p);
    forall k | 0 <= k < MainCount(w, ph, g, p)
      ensures MainPairs(w, ph, g, p)[k].phoneme == ph[p + k]
    {
      MainPairPhoneme(w, ph, g, p, k);
    }
  }

  lemma {:induction false} MainPairPhoneme(w: string, ph: seq<string>, g: nat, p: nat, k: nat)
    requires k < MainCount(w, ph, g, p)
    ensures k < |MainPairs(w, ph, g, p)| && p + k < |ph| && MainPairs(w, ph, g, p)[k].phoneme == ph[p + k]
    decreases k
  {
    MainPairsStep(w, ph, g, p);
    MainCountBounds(w, ph, g, p);
    if k > 0 {
      var g' := NextLetter(w, g);
      MainPairPhoneme(w, ph, g', p + 1, k - 1);
      MainPairsShift(w, ph, g, p, k);
    }
  }

  /**
   * A main-loop pair is two letters exactly when a table digraph starts at
   * its position; the phoneme is never consulted.
   */
  lemma {:induction false} MainPairsDigraphs(w: string, ph: seq<string>, g: nat, p: nat)
    ensures forall k :: 0 <= k < MainCount(w, ph, g, p) ==>
              k < |MainPairs(w, ph, g, p)| &&
              (|MainPairs(w, ph, g, p)[k].grapheme| == 2 <==> DigraphAt(w, MainPairs(w, ph, g, p)[k].position))
    decreases |w| - g
  {
    var ps := MainPairs(w, ph, g, p);
    MainCountBounds(w, ph, g, p);
    if g < |w| && p < |ph| {
      var g' := NextLetter(w, g);
      MainPairsStep(w, ph, g, p);
      MainPairsDigraphs(w, ph, g', p + 1);
      var rest := MainPairs(w, ph, g', p + 1);
      forall k | 1 <= k < MainCount(w, ph, g, p)
        ensures |ps[k].grapheme| == 2 <==> DigraphAt(w, ps[k].position)
      {
        MainPairsShift(w, ph, g, p, k);
      }
    }
  }

  /** After the main loop, each remaining pair is one letter under its uppercase letter. */
  lemma {:induction false} LeftoverPairs(w: string, ph: seq<string>, g: nat, p: nat)
    ensures forall k :: MainCount(w, ph, g, p) <= k < |MainPairs(w, ph, g, p)| ==>
              && |MainPairs(w, ph, g, p)[k].grapheme| == 1
              && MainPairs(w, ph, g, p)[k].phoneme == [UpperChar(MainPairs(w, ph, g, p)[k].grapheme[0])]
    decreases |w| - g
  {
    var ps := MainPairs(w, ph, g, p);
    if g < |w| && p < |ph| {
      var g' := NextLetter(w, g);
      MainPairsStep(w, ph, g, p);
      LeftoverPairs(w, ph, g', p + 1);
      forall k | MainCount(w, ph, g, p) <= k < |ps|
        ensures |ps[k].grapheme| == 1 && ps[k].phoneme == [UpperChar(ps[k].grapheme[0])]
      {
        MainPairsShift(w, ph, g, p, k);
      }
    } else {
      LettersPhonemes(w, g);
    }
  }

  lemma {:induction false} LettersPhonemes(w: string, g: nat)
    ensures |Letters(w, g)| == if g < |w| then |w| - g else 0
    ensures forall k :: 0 <= k < |Letters(w, g)| ==>
              Letters(w, g)[k] == GraphemePhoneme([w[g + k]], [UpperChar(w[g + k])], g + k)
    decreases |w| - g
  {
    if g < |w| {
      LettersPhonemes(w, g + 1);
      var ls := Letters(w, g);
      forall k | 1 <= k < |ls| ensures ls[k] == Letters(w, g + 1)[k - 1] { }
    }
  }

  /** With no phonemes, or for an empty word, each letter is its own pair under its uppercase letter. */
  lemma FallbackIsLetterByLetter(w: string, ph: seq<string>)
    requires |ph| == 0 || |w| == 0
    ensures |Align(w, ph)| == |w|
    ensures forall i :: 0 <= i < |w| ==> Align(w, ph)[i] == GraphemePhoneme([w[i]], [UpperChar(w[i])], i)
  {
    LettersPhonemes(w, 0);
  }

  /** The graphemes and positions: the alignment without its phonemes. */
  function Shape(ps: seq<GraphemePhoneme>): seq<(string, int)>
    decreases |ps|
  {
    if ps == [] then [] else [(ps[0].grapheme, ps[0].position)] + Shape(ps[1..])
  }

  /** Which graphemes are cut depends only on the letters and the number of phonemes, never on the phonemes. */
  lemma {:induction false} ShapeIgnoresPhonemes(w: string, ph1: seq<string>, ph2: seq<string>, g: nat, p: nat)
    requires |ph1| == |ph2|
    ensures Shape(MainPairs(w, ph1, g, p)) == Shape(MainPairs(w, ph2, g, p))
    decreases |w| - g
  {
    if g < |w| && p < |ph1| {
      var g' := if DigraphAt(w, g) then g + 2 else g + 1;
      ShapeIgnoresPhonemes(w, ph1, ph2, g', p + 1);
      assert MainPairs(w, ph1, g, p)[1..] == MainPairs(w, ph1, g', p + 1);
      assert MainPairs(w, ph2, g, p)[1..] == MainPairs(w, ph2, g', p + 1);
    }
  }

  /** One step of the first loop, with the digraph test written as the loop writes it. */
  lemma MainPairsUnfold(w: string, ph: seq<string>, g: nat, p: nat)
    requires g < |w| && p < |ph|
    ensures var next := if g + 1 < |w| then [w[g + 1]] else "";
      if next != "" && IsDigraph(Lower([w[g]] + next)) then
        MainPairs(w, ph, g, p) == [GraphemePhoneme([w[g]] + next, ph[p], g)] + MainPairs(w, ph, g + 2, p + 1)
      else
        MainPairs(w, ph, g, p) == [GraphemePhoneme([w[g]], ph[p], g)] + MainPairs(w, ph, g + 1, p + 1)
  {
    if g + 1 < |w| {
      var d := Lower([w[g]] + [w[g + 1]]);
      assert |d| == 2 && d[0] == LowerChar(w[g]) && d[1] == LowerChar(w[g + 1]);
      assert IsDigraph(d) == DigraphAt(w, g);
      assert [w[g]] + [w[g + 1]] == [w[g], w[g + 1]];
    }
  }

  /**
   * The first alignment loop: pair a digraph or a letter with each phoneme
   * while both last. The pairs made and the unconsumed rest of the
   * alignment together give the whole alignment.
   */
  method PairWhileBothLast(cleanWord: string, phonemeArray: seq<string>)
      returns (pairs: seq<GraphemePhoneme>, graphemeIndex: nat, phonemeIndex: nat)
    ensures graphemeIndex <= |cleanWord|
    ensures graphemeIndex == |cleanWord| || phonemeIndex == |phonemeArray|
    ensures pairs + MainPairs(cleanWord, phonemeArray, graphemeIndex, phonemeIndex) == Align(cleanWord, phonemeArray)
  {
    pairs := [];
    graphemeIndex := 0;
    phonemeIndex := 0;
    while graphemeIndex < |cleanWord| && phonemeIndex < |phonemeArray|
      invariant graphemeIndex <= |cleanWord| && phonemeIndex <= |phonemeArray|
      invariant pairs + MainPairs(cleanWord, phonemeArray, graphemeIndex, phonemeIndex) == Align(cleanWord, phonemeArray)
      decreases |cleanWord| - graphemeIndex
    {
      var currentGrapheme := cleanWord[graphemeIndex];
      var currentPhoneme := phonemeArray[phonemeIndex];
      var nextGrapheme := if graphemeIndex + 1 < |cleanWord| then [cleanWord[graphemeIndex + 1]] else "";
      var digraph := [currentGrapheme] + nextGrapheme;
      MainPairsUnfold(cleanWord, phonemeArray, graphemeIndex, phonemeIndex);
      var pair: GraphemePhoneme;
      if nextGrapheme != "" && IsDigraph(Lower(digraph)) {
        pair := GraphemePhoneme(digraph, currentPhoneme, graphemeIndex);
        graphemeIndex := graphemeIndex + 2;
      } else {
        pair := GraphemePhoneme([currentGrapheme], currentPhoneme, graphemeIndex);
        graphemeIndex := graphemeIndex + 1;
      }
      phonemeIndex := phonemeIndex + 1;
      AppendAssociative(pairs, [pair], MainPairs(cleanWord, phonemeArray, graphemeIndex, phonemeIndex));
      pairs := pairs + [pair];
    }
  }

  /**
   * `convertToPhonemes`' alignment: the first loop, then each leftover
   * letter under its uppercase letter; the fallback loop instead when either
   * input is empty.
   */
  method AlignPairs(cleanWord: string, phonemeArray: seq<string>) returns (pairs: seq<GraphemePhoneme>)
    ensures pairs == Align(cleanWord, phonemeArray)
  {
    if |phonemeArray| > 0 && |cleanWord| > 0 {
      var graphemeIndex, phonemeIndex;
      pairs, graphemeIndex, phonemeIndex := PairWhileBothLast(cleanWord, phonemeArray);
      assert MainPairs(cleanWord, phonemeArray, graphemeIndex, phonemeIndex) == Letters(cleanWord, graphemeIndex);
      while graphemeIndex < |cleanWord|
        invariant graphemeIndex <= |cleanWord|
        invariant pairs + Letters(cleanWord, graphemeIndex) == Align(cleanWord, phonemeArray)
        decreases |cleanWord| - graphemeIndex
      {
        var pair := GraphemePhoneme([cleanWord[graphemeIndex]], [UpperChar(cleanWord[graphemeIndex])], graphemeIndex);
        assert Letters(cleanWord, graphemeIndex) == [pair] + Letters(cleanWord, graphemeIndex + 1);
        AppendAssociative(pairs, [pair], Letters(cleanWord, graphemeIndex + 1));
        pairs := pairs + [pair];
        graphemeIndex := graphemeIndex + 1;
      }
    } else {
      pairs := [];
      for i := 0 to |cleanWord|
        invariant pairs + Letters(cleanWord, i) == Letters(cleanWord, 0)
      {
        var pair := GraphemePhoneme([cleanWord[i]], [UpperChar(cleanWord[i])], i);
        assert Letters(cleanWord, i) == [pair] + Letters(cleanWord, i + 1);
        AppendAssociative(pairs, [pair], Letters(cleanWord, i + 1));
        pairs := pairs + [pair];
      }
    }
  }

  /**
   * The error path (the phoneme library failed): the word's letters, not
   * lowercased, each paired with its uppercase letter.
   */
  function ErrorPairs(word: string): (r: seq<GraphemePhoneme>)
    ensures Spelled(r) == KeepLetters(word)
    ensures |r| == |KeepLetters(word)|
    ensures forall i :: 0 <= i < |r| ==>
              r[i] == GraphemePhoneme([KeepLetters(word)[i]], [UpperChar(KeepLetters(word)[i])], i)
  {
    var letters := KeepLetters(word);
    LettersTile(letters, 0);
    TilesFacts(Letters(letters, 0), letters, 0);
    LettersPhonemes(letters, 0);
    Letters(letters, 0)
  }
}
