/**
 * The paginated karaoke reader (app/components/PaginatedKaraokeReader.tsx):
 * the text is cut into word tokens and pages of eight words; on the page
 * being read, each word has a progress value set by its slider, an active-word
 * pointer marks the boundary between finished and unfinished words, and the
 * reader remembers which pages were completed.
 *
 * The component's state hooks become the fields of class Reader; each event
 * handler becomes a method that applies the handler and then the effects the
 * resulting state change triggers (the page-reset effect runs only when the
 * page index or the page list actually changes).
 */
module PaginatedReader {
  import opened Text
  import Catalog

  datatype Page = Page(words: seq<string>, pageNumber: int)

  /** How a word is highlighted. */
  datatype WordStatus = Completed | Active | Current | Pending

  const WordsPerPage: int := Catalog.readerConfig.wordsPerPage

  function Min(a: int, b: int): int { if a <= b then a else b }

  /**
   * The pages the pagination loop produces from offset `i` on: each takes the
   * next `n` words (fewer at the end, as `slice` does) and is numbered
   * `floor(i / n) + 1`.
   */
  function PagesFrom(words: seq<string>, n: int, i: nat): seq<Page>
    requires n > 0
    decreases |words| - i
  {
    if i >= |words| then []
    else [Page(words[i..Min(i + n, |words|)], i / n + 1)] + PagesFrom(words, n, i + n)
  }

  function Pages(words: seq<string>, n: int): seq<Page>
    requires n > 0
  {
    PagesFrom(words, n, 0)
  }

  /** All the words of the pages, page after page. */
  function PageWords(pages: seq<Page>): seq<string> {
    if pages == [] then [] else pages[0].words + PageWords(pages[1..])
  }

  lemma MulPositive(a: int, n: int)
    requires n > 0 && a > 0
    ensures a * n >= n
  {
  }

  lemma MulNegative(a: int, n: int)
    requires n > 0 && a < 0
    ensures a * n <= -n
  {
  }

  lemma DivOfMultiple(k: nat, n: int)
    requires n > 0
    ensures (k * n) / n == k
  {
    var q, r := (k * n) / n, (k * n) % n;
    assert k * n == q * n + r;
    var a := k - q;
    assert a * n == k * n - q * n;
    if a > 0 { MulPositive(a, n); } else if a < 0 { MulNegative(a, n); }
  }

  /** Flattening the pages gives back the word list, from offset `i` on. */
  lemma {:induction false} PagesFromKeepWords(words: seq<string>, n: int, i: nat)
    requires n > 0 && i <= |words|
    ensures PageWords(PagesFrom(words, n, i)) == words[i..]
    decreases |words| - i
  {
    if i < |words| {
      var j := Min(i + n, |words|);
      var rest := PagesFrom(words, n, i + n);
      assert PagesFrom(words, n, i)[1..] == rest;
      if i + n <= |words| {
        PagesFromKeepWords(words, n, i + n);
      } else {
        assert rest == [];
      }
      assert words[i..] == words[i..j] + words[j..];
    }
  }

  /** Page sizes and numbers from offset `m * n` on. */
  lemma {:induction false} PagesFromShape(words: seq<string>, n: int, m: nat)
    requires n > 0
    ensures var ps := PagesFrom(words, n, m * n);
      && (forall k :: 0 <= k < |ps| ==> ps[k].pageNumber == m + k + 1)
      && (forall k :: 0 <= k < |ps| - 1 ==> |ps[k].words| == n)
      && (|ps| > 0 ==> 1 <= |ps[|ps| - 1].words| <= n)
    decreases |words| - m * n
  {
    var ps := PagesFrom(words, n, m * n);
    if m * n < |words| {
      DivOfMultiple(m, n);
      assert m * n + n == (m + 1) * n;
      var rest := PagesFrom(words, n, (m + 1) * n);
      assert ps == [ps[0]] + rest;
      PagesFromShape(words, n, m + 1);
      if rest == [] {
        assert (m + 1) * n >= |words|;
      } else {
        assert (m + 1) * n < |words|;
      }
    }
  }

  /**
   * The pagination loop of the tokenising effect: pages of `wordsPerPage`
   * consecutive words, every page full except possibly the last, numbered
   * from 1, which together hold exactly the given words.
   */
  method Paginate(words: seq<string>, wordsPerPage: int) returns (pages: seq<Page>)
    requires wordsPerPage > 0
    ensures pages == Pages(words, wordsPerPage)
    ensures PageWords(pages) == words
    ensures forall k :: 0 <= k < |pages| ==> pages[k].pageNumber == k + 1
    ensures forall k :: 0 <= k < |pages| - 1 ==> |pages[k].words| == wordsPerPage
    ensures |pages| > 0 ==> 1 <= |pages[|pages| - 1].words| <= wordsPerPage
    ensures words == [] <==> pages == []
  {
    var n := wordsPerPage;
    pages := [];
    var i := 0;
    while i < |words|
      invariant 0 <= i
      invariant pages + PagesFrom(words, n, i) == PagesFrom(words, n, 0)
      decreases |words| - i
    {
      var pageWords := words[i..Min(i + n, |words|)];
      pages := pages + [Page(pageWords, i / n + 1)];
      i := i + n;
    }
    assert PagesFrom(words, n, i) == [];
    PagesFromKeepWords(words, n, 0);
    PagesFromShape(words, n, 0);
  }

  /** Every word of a page starts at progress 0. */
  function Zeros(count: int): (m: map<int, int>)
    ensures forall i :: i in m <==> 0 <= i < count
    ensures forall i :: i in m ==> m[i] == 0
    decreases count
  {
    if count <= 0 then map[] else Zeros(count - 1)[count - 1 := 0]
  }

  /** The slider value `progress` moves the last word of the page to 100: the page is completed. */
  function CompletesPage(active: int, count: int, wordIndex: int, progress: int): (r: bool)
    ensures r <==> progress == 100 && wordIndex == count - 1
  {
    progress == 100 && !(wordIndex == active && wordIndex < count - 1) && wordIndex == count - 1
  }

  /**
   * The active-word pointer after the slider of word `wordIndex` is set to
   * `progress` on a page of `count` words. The handler may assign the
   * pointer twice; the pre-advance assignment, issued second, wins.
   */
  function NextActive(active: int, count: int, wordIndex: int, progress: int): (r: int)
    ensures progress == 100 && wordIndex == active && wordIndex < count - 1 ==> r == active + 1
    ensures progress == 100 && wordIndex == count - 1 && wordIndex != active + 1 ==> r == count
    ensures progress > 0 && wordIndex == active + 1 ==> r == wordIndex
    ensures progress <= 0 ==> r == active
    ensures progress != 100 && wordIndex != active + 1 ==> r == active
    ensures (progress == 100 && wordIndex != active + 1 && wordIndex != count - 1 &&
             !(wordIndex == active && wordIndex < count - 1)) ==> r == active
    ensures 0 <= active <= count && wordIndex <= count ==> active <= r <= count
  {
    var afterCompletion :=
      if progress == 100 then
        if wordIndex == active && wordIndex < count - 1 then wordIndex + 1
        else if wordIndex == count - 1 then count
        else active
      else active;
    if progress > 0 && wordIndex == active + 1 then wordIndex else afterCompletion
  }

  /** When both branches fire, the page is marked completed although the pointer stops short of the end. */
  lemma BothAssignmentsLaterWins()
    ensures CompletesPage(1, 3, 2, 100) && NextActive(1, 3, 2, 100) == 2
  {
  }

  /**
   * The UI shows a slider only under the active word, so every call has
   * `wordIndex == active`; the pre-advance branch can then never fire and the
   * pointer moves by one, jumps to the end from the last word, or stays.
   */
  lemma SliderOnActiveWord(active: int, count: int, progress: int)
    requires 0 <= active <= count
    ensures var r := NextActive(active, count, active, progress);
      && (progress == 100 && active < count - 1 ==> r == active + 1)
      && (progress == 100 && active == count - 1 ==> r == count)
      && (progress != 100 || active >= count ==> r == active)
  {
  }

  /** The pointer after a sequence of slider events `(wordIndex, progress)` on one page. */
  function ActiveAfter(active: int, count: int, events: seq<(int, int)>): int
    decreases |events|
  {
    if events == [] then active
    else ActiveAfter(NextActive(active, count, events[0].0, events[0].1), count, events[1..])
  }

  /** Over any sequence of events on words of the page, the pointer never decreases and never passes the end. */
  lemma {:induction false} ActiveMonotone(active: int, count: int, events: seq<(int, int)>)
    requires 0 <= active <= count
    requires forall e :: e in events ==> e.0 <= count
    ensures active <= ActiveAfter(active, count, events) <= count
    decreases |events|
  {
    if events != [] {
      var next := NextActive(active, count, events[0].0, events[0].1);
      assert events[0] in events;
      assert forall e :: e in events[1..] ==> e in events;
      ActiveMonotone(next, count, events[1..]);
    }
  }

  /** Once the page is complete, no event on a word of the page moves the pointer again. */
  lemma {:induction false} CompletionAbsorbing(count: int, events: seq<(int, int)>)
    requires 0 <= count
    requires forall e :: e in events ==> e.0 < count
    ensures ActiveAfter(count, count, events) == count
    decreases |events|
  {
    if events != [] {
      assert events[0] in events;
      assert forall e :: e in events[1..] ==> e in events;
      CompletionAbsorbing(count, events[1..]);
    }
  }

  /** Reading through the UI: the slider of the active word is set to each value in turn. */
  function ActiveAfterReading(active: int, count: int, values: seq<int>): int
    decreases |values|
  {
    if values == [] then active
    else ActiveAfterReading(NextActive(active, count, active, values[0]), count, values[1..])
  }

  /** Pushing the active word's slider to 100, `m` times, finishes `m` words (and no more than the page holds). */
  lemma {:induction false} ReadingWordByWord(active: int, count: int, m: nat)
    requires 0 <= active <= count
    ensures ActiveAfterReading(active, count, seq(m, _ => 100)) == Min(active + m, count)
    decreases m
  {
    var values := seq(m, _ => 100);
    if m > 0 {
      var next := NextActive(active, count, active, 100);
      assert values[1..] == seq(m - 1, _ => 100);
      ReadingWordByWord(next, count, m - 1);
    }
  }

  class Reader {
    /** The `text` property of the component. */
    var text: string
    var pages: seq<Page>
    var currentPageIndex: int
    /** Slider value per word index of the current page. */
    var wordProgress: map<int, int>
    var currentActiveWord: int
    var completedPages: set<int>

    ghost predicate Valid()
      reads this
    {
      Paginated() && (HasCurrentPage() ==> currentActiveWord <= WordCount())
    }

    /** The pages are those of the text and the indices are not negative. */
    ghost predicate Paginated()
      reads this
    {
      && pages == Pages(Tokens(text), WordsPerPage)
      && 0 <= currentPageIndex
      && 0 <= currentActiveWord
    }

    predicate HasCurrentPage()
      reads this
    {
      0 <= currentPageIndex < |pages|
    }

    function WordCount(): int
      reads this
    {
      if HasCurrentPage() then |pages[currentPageIndex].words| else 0
    }

    /** Mounting with `text`: tokenise and paginate, then show the first page with every slider at 0. */
    constructor (text: string)
      ensures Valid()
      ensures this.text == text && pages == Pages(Tokens(text), WordsPerPage)
      ensures currentPageIndex == 0 && currentActiveWord == 0 && completedPages == {}
      ensures wordProgress == if pages == [] then map[] else Zeros(|pages[0].words|)
    {
      var ps := Paginate(Tokens(text), WordsPerPage);
      this.text := text;
      pages := ps;
      currentPageIndex := 0;
      currentActiveWord := 0;
      completedPages := {};
      wordProgress := if ps == [] then map[] else Zeros(|ps[0].words|);
    }

    /** The page-reset effect: on entering an existing page, all its sliders go to 0 and the pointer to its first word. */
    method EnterCurrentPage()
      requires Paginated()
      modifies this
      ensures Valid()
      ensures text == old(text) && pages == old(pages) && currentPageIndex == old(currentPageIndex)
      ensures completedPages == old(completedPages)
      ensures HasCurrentPage() ==> wordProgress == Zeros(WordCount()) && currentActiveWord == 0
      ensures !HasCurrentPage() ==> wordProgress == old(wordProgress) && currentActiveWord == old(currentActiveWord)
    {
      if |pages| > 0 && currentPageIndex < |pages| {
        wordProgress := Zeros(|pages[currentPageIndex].words|);
        currentActiveWord := 0;
      }
    }

    /**
     * A new `text` property: the tokenising effect re-paginates and zeroes the
     * sliders for page 0, then the page-reset effect runs for the (unchanged)
     * page index. Neither the index nor the completed pages are reset.
     */
    method SetText(newText: string)
      requires Valid()
      modifies this
      ensures Valid()
      ensures text == newText && pages == Pages(Tokens(newText), WordsPerPage)
      ensures currentPageIndex == old(currentPageIndex) && completedPages == old(completedPages)
      ensures newText == old(text) ==> wordProgress == old(wordProgress) && currentActiveWord == old(currentActiveWord)
      ensures newText != old(text) && HasCurrentPage() ==> wordProgress == Zeros(WordCount()) && currentActiveWord == 0
      ensures newText != old(text) && !HasCurrentPage() ==>
                currentActiveWord == old(currentActiveWord) &&
                wordProgress == if pages == [] then old(wordProgress) else Zeros(|pages[0].words|)
    {
      if newText != text {
        var ps := Paginate(Tokens(newText), WordsPerPage);
        text := newText;
        pages := ps;
        if |ps| > 0 {
          wordProgress := Zeros(|ps[0].words|);
        }
        EnterCurrentPage();
      }
    }

    /**
     * `handleWordSliderChange`: store the value, then (when there is a current
     * page) move the pointer and record page completion.
     */
    method SetWordProgress(wordIndex: int, progress: int)
      requires Valid()
      modifies this
      ensures wordIndex <= old(WordCount()) ==> Valid()
      ensures text == old(text) && pages == old(pages) && currentPageIndex == old(currentPageIndex)
      ensures wordProgress == old(wordProgress)[wordIndex := progress]
      ensures currentActiveWord ==
                if old(HasCurrentPage())
                then NextActive(old(currentActiveWord), old(WordCount()), wordIndex, progress)
                else old(currentActiveWord)
      ensures completedPages ==
                if old(HasCurrentPage()) && CompletesPage(old(currentActiveWord), old(WordCount()), wordIndex, progress)
                then old(completedPages) + {currentPageIndex}
                else old(completedPages)
      ensures old(completedPages) <= completedPages
    {
      wordProgress := wordProgress[wordIndex := progress];
      if !HasCurrentPage() {
        return;
      }
      var count := |pages[currentPageIndex].words|;
      var active := currentActiveWord;
      if progress == 100 {
        if wordIndex == active && wordIndex < count - 1 {
          currentActiveWord := wordIndex + 1;
        } else if wordIndex == count - 1 {
          currentActiveWord := count;
          completedPages := completedPages + {currentPageIndex};
        }
      }
      if progress > 0 && wordIndex == active + 1 {
        currentActiveWord := wordIndex;
      }
    }

    /** The page index moved: run the page-reset effect if it changed. */
    method MoveTo(index: int)
      requires Valid() && 0 <= index
      modifies this
      ensures Valid()
      ensures text == old(text) && pages == old(pages) && completedPages == old(completedPages)
      ensures currentPageIndex == index
      ensures index != old(currentPageIndex) && HasCurrentPage() ==>
                wordProgress == Zeros(WordCount()) && currentActiveWord == 0
      ensures index == old(currentPageIndex) || !HasCurrentPage() ==>
                wordProgress == old(wordProgress) && currentActiveWord == old(currentActiveWord)
    {
      var changed := index != currentPageIndex;
      currentPageIndex := index;
      if changed {
        EnterCurrentPage();
      }
    }

    /** `nextPage`: forward one page unless on the last. */
    method NextPage()
      requires Valid()
      modifies this
      ensures Valid()
      ensures text == old(text) && pages == old(pages) && completedPages == old(completedPages)
      ensures currentPageIndex == if old(currentPageIndex) < |pages| - 1 then old(currentPageIndex) + 1 else old(currentPageIndex)
      ensures currentPageIndex != old(currentPageIndex) ==> wordProgress == Zeros(WordCount()) && currentActiveWord == 0
      ensures currentPageIndex == old(currentPageIndex) ==>
                wordProgress == old(wordProgress) && currentActiveWord == old(currentActiveWord)
    {
      if currentPageIndex < |pages| - 1 {
        MoveTo(currentPageIndex + 1);
      }
    }

    /** `prevPage`: back one page unless on the first. */
    method PrevPage()
      requires Valid()
      modifies this
      ensures Valid()
      ensures text == old(text) && pages == old(pages) && completedPages == old(completedPages)
      ensures currentPageIndex == if old(currentPageIndex) > 0 then old(currentPageIndex) - 1 else old(currentPageIndex)
      ensures currentPageIndex != old(currentPageIndex) && HasCurrentPage() ==>
                wordProgress == Zeros(WordCount()) && currentActiveWord == 0
      ensures currentPageIndex == old(currentPageIndex) || !HasCurrentPage() ==>
                wordProgress == old(wordProgress) && currentActiveWord == old(currentActiveWord)
    {
      if currentPageIndex > 0 {
        MoveTo(currentPageIndex - 1);
      }
    }

    /** `goToPage`: jump to an existing page; other indices are ignored. */
    method GoToPage(pageIndex: int)
      requires Valid()
      modifies this
      ensures Valid()
      ensures text == old(text) && pages == old(pages) && completedPages == old(completedPages)
      ensures currentPageIndex == if 0 <= pageIndex < |pages| then pageIndex else old(currentPageIndex)
      ensures currentPageIndex != old(currentPageIndex) ==> wordProgress == Zeros(WordCount()) && currentActiveWord == 0
      ensures currentPageIndex == old(currentPageIndex) ==>
                wordProgress == old(wordProgress) && currentActiveWord == old(currentActiveWord)
    {
      if pageIndex >= 0 && pageIndex < |pages| {
        MoveTo(pageIndex);
      }
    }

    /** The stored slider value of a word, 0 when none is stored (`wordProgress[i] || 0`). */
    function ProgressOf(wordIndex: int): int
      reads this
    {
      if wordIndex in wordProgress then wordProgress[wordIndex] else 0
    }

    /**
     * `getWordStatus`: words before the pointer are completed whatever their
     * stored value; the word at the pointer is active once its slider has
     * moved, current before; later words are pending.
     */
    function Status(wordIndex: int): (s: WordStatus)
      reads this
      ensures s == Completed <==> wordIndex < currentActiveWord
      ensures s == Pending <==> wordIndex > currentActiveWord
      ensures s == Active <==> wordIndex == currentActiveWord && ProgressOf(wordIndex) > 0
      ensures s == Current <==> wordIndex == currentActiveWord && ProgressOf(wordIndex) <= 0
    {
      var progress := ProgressOf(wordIndex);
      if wordIndex < currentActiveWord then Completed
      else if wordIndex == currentActiveWord then (if progress > 0 then Active else Current)
      else Pending
    }

    /** At most one word is highlighted as active or current. */
    lemma OneHighlightedWord(i: int, j: int)
      requires Status(i) in {Active, Current} && Status(j) in {Active, Current}
      ensures i == j == currentActiveWord
    {
    }

    /** `shouldShowSlider`: only the word at the pointer has a slider. */
    predicate ShowsSlider(wordIndex: int)
      reads this
    {
      wordIndex == currentActiveWord
    }

    /** `isCurrentPageCompleted`: there is a current page and the pointer is at (or past) its end. */
    function IsCurrentPageCompleted(): (r: bool)
      reads this
      ensures r <==> HasCurrentPage() && currentActiveWord >= |pages[currentPageIndex].words|
      ensures r && Valid() ==> currentActiveWord == WordCount()
    {
      0 <= currentPageIndex < |pages| && currentActiveWord >= |pages[currentPageIndex].words|
    }

    /** The Next button: the page is completed and it is not the last page. */
    function ShowsNextButton(): (r: bool)
      reads this
      ensures r ==> IsCurrentPageCompleted() && currentPageIndex + 1 < |pages|
    {
      IsCurrentPageCompleted() && currentPageIndex < |pages| - 1
    }

    /** The Previous button: any page after the first. */
    predicate ShowsPrevButton()
      reads this
    {
      currentPageIndex > 0
    }

    /** The story-complete banner: the last page is completed. */
    function ShowsStoryComplete(): (r: bool)
      reads this
      ensures r ==> IsCurrentPageCompleted() && currentPageIndex == |pages| - 1
    {
      currentPageIndex == |pages| - 1 && IsCurrentPageCompleted()
    }
  }
}
