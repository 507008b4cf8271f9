/**
 * The reading-journey dashboard (app/components/ReadingProgress.tsx): the
 * completion percentage of each story from the stored slider values, which
 * stories show progress or count as completed, the totals across the
 * catalogue, and the Clear All button.
 *
 * Stories here are read page by page (`story.pages[].text`), so a story is an
 * id and the text of each page. Percentages use JavaScript's `Math.round`
 * (round half up) on the exact quotient.
 */
module ReadingProgressView {
  import opened Wrappers
  import opened Text
  import opened ProgressStore

  /** A story as the dashboard reads it: its id and the text of each page. */
  datatype PagedStory = PagedStory(id: string, pages: seq<string>)

  datatype TotalStats = TotalStats(
    totalStories: int,
    startedStories: int,
    completedStories: int,
    totalPages: int,
    /** None stands for NaN: entries are stored but the catalogue is empty. */
    averageProgress: Option<int>)

  /** The key the Clear All button removes. */
  const DashboardKey: string := "kidReader_progress"

  /** The number of word tokens of every page, added up. */
  function TotalWords(pages: seq<string>): (n: int)
    ensures n >= 0
    decreases |pages|
  {
    if pages == [] then 0 else TotalWords(pages[..|pages| - 1]) + |Tokens(pages[|pages| - 1])|
  }

  /** `progress.wordProgress[pageIndex] || {}`. */
  function PageProgress(wordProgress: map<int, map<int, int>>, pageIndex: int): map<int, int> {
    if pageIndex in wordProgress then wordProgress[pageIndex] else map[]
  }

  /** A word counts as done when its stored value is exactly 100. */
  predicate WordDone(pageProgress: map<int, int>, wordIndex: int) {
    wordIndex in pageProgress && pageProgress[wordIndex] == 100
  }

  /** The done words among the first `count` words of a page. */
  function CompletedOnPage(count: int, pageProgress: map<int, int>): (n: int)
    ensures 0 <= n <= if count < 0 then 0 else count
    decreases count
  {
    if count <= 0 then 0
    else CompletedOnPage(count - 1, pageProgress) + if WordDone(pageProgress, count - 1) then 1 else 0
  }

  /** The done words over all pages; stored indices beyond a page's words are never looked at. */
  function CompletedWords(pages: seq<string>, wordProgress: map<int, map<int, int>>): (n: int)
    ensures 0 <= n <= TotalWords(pages)
    decreases |pages|
  {
    if pages == [] then 0
    else
      var k := |pages| - 1;
      CompletedWords(pages[..k], wordProgress) + CompletedOnPage(|Tokens(pages[k])|, PageProgress(wordProgress, k))
  }

  lemma MulLess(k: int, a: int, b: int)
    requires k > 0 && k * a < k * b
    ensures a < b
  {
  }

  lemma RoundedQuotientFacts(c: int, t: int, r: int)
    requires t > 0 && r == (200 * c + t) / (2 * t)
    ensures 2 * t * r <= 200 * c + t < 2 * t * r + 2 * t
    ensures 0 <= c <= t ==> 0 <= r <= 100
    ensures 0 <= c <= t ==> (r == 100 <==> 200 * c >= 199 * t)
  {
    assert 2 * t * r <= 200 * c + t < 2 * t * r + 2 * t;
    if 0 <= c <= t {
      assert 200 * c + t < 2 * t * 101;
      MulLess(2 * t, r, 101);
      if 200 * c >= 199 * t {
        assert 2 * t * 99 < 200 * c + t;
        MulLess(2 * t, 99, r + 1);
      } else {
        assert 2 * t * r < 2 * t * 100;
        MulLess(2 * t, r, 100);
      }
    }
  }

  /**
   * `Math.round(c / t * 100)` for a positive total, else 0: the integer
   * nearest to 100·c/t, halves rounded up.
   */
  function RoundPercent(c: int, t: int): (r: int)
    ensures t <= 0 ==> r == 0
    ensures t > 0 ==> 2 * t * r <= 200 * c + t < 2 * t * r + 2 * t
    ensures t > 0 && 0 <= c <= t ==> 0 <= r <= 100
    ensures t > 0 && 0 <= c <= t ==> (r == 100 <==> 200 * c >= 199 * t)
  {
    if t > 0 then
      var r := (200 * c + t) / (2 * t);
      RoundedQuotientFacts(c, t, r);
      r
    else 0
  }

  /** One word short of the whole story still shows 100% once the story has 200 words or more. */
  lemma OneWordShort(t: int)
    requires t > 0
    ensures RoundPercent(t - 1, t) == 100 <==> t >= 200
    ensures RoundPercent(199, 200) == 100
  {
  }

  /** `getStoryProgressPercentage` for a story and the record stored for it, if any. */
  function Percentage(story: PagedStory, record: Option<ReadingProgress>): (r: int)
    ensures record.None? ==> r == 0
    ensures TotalWords(story.pages) == 0 ==> r == 0
    ensures 0 <= r <= 100
  {
    if record.None? then 0
    else RoundPercent(CompletedWords(story.pages, record.value.wordProgress), TotalWords(story.pages))
  }

  /**
   * `getStoryProgressPercentage`: for each page, count its words and its
   * words stored as exactly 100, then round the ratio.
   */
  method StoryProgressPercentage(story: PagedStory, storyProgress: seq<Entry>) returns (pct: int)
    ensures pct == Percentage(story, Get(storyProgress, story.id))
  {
    var progress := Get(storyProgress, story.id);
    if progress.None? {
      return 0;
    }
    var totalWords := 0;
    var completedWords := 0;
    var pages := story.pages;
    for pageIndex := 0 to |pages|
      invariant totalWords == TotalWords(pages[..pageIndex])
      invariant completedWords == CompletedWords(pages[..pageIndex], progress.value.wordProgress)
    {
      assert pages[..pageIndex + 1][..pageIndex] == pages[..pageIndex];
      var words := Tokens(pages[pageIndex]);
      totalWords := totalWords + |words|;
      var pageProgress := PageProgress(progress.value.wordProgress, pageIndex);
      var before := completedWords;
      for wordIndex := 0 to |words|
        invariant completedWords == before + CompletedOnPage(wordIndex, pageProgress)
      {
        if wordIndex in pageProgress && pageProgress[wordIndex] == 100 {
          completedWords := completedWords + 1;
        }
      }
    }
    assert pages[..|pages|] == pages;
    pct := if totalWords > 0 then (200 * completedWords + totalWords) / (2 * totalWords) else 0;
  }

  /** Every word of every page stored as 100. */
  predicate AllWordsDone(pages: seq<string>, wordProgress: map<int, map<int, int>>) {
    forall p, w :: 0 <= p < |pages| && 0 <= w < |Tokens(pages[p])| ==> WordDone(PageProgress(wordProgress, p), w)
  }

  lemma {:induction false} PageAllDone(count: int, pageProgress: map<int, int>)
    requires forall w :: 0 <= w < count ==> WordDone(pageProgress, w)
    ensures CompletedOnPage(count, pageProgress) == if count < 0 then 0 else count
    decreases count
  {
    if count > 0 {
      PageAllDone(count - 1, pageProgress);
    }
  }

  lemma {:induction false} AllDoneCountsEveryWord(pages: seq<string>, wordProgress: map<int, map<int, int>>)
    requires AllWordsDone(pages, wordProgress)
    ensures CompletedWords(pages, wordProgress) == TotalWords(pages)
    decreases |pages|
  {
    if pages != [] {
      var k := |pages| - 1;
      var pre := pages[..k];
      assert AllWordsDone(pre, wordProgress) by {
        forall p, w | 0 <= p < |pre| && 0 <= w < |Tokens(pre[p])|
          ensures WordDone(PageProgress(wordProgress, p), w)
        {
          assert pre[p] == pages[p];
        }
      }
      AllDoneCountsEveryWord(pre, wordProgress);
      PageAllDone(|Tokens(pages[k])|, PageProgress(wordProgress, k));
    }
  }

  /** A stored story whose every word is at 100 shows 100% (unless it has no words at all, which shows 0%). */
  lemma AllWordsDoneIsComplete(story: PagedStory, record: ReadingProgress)
    requires AllWordsDone(story.pages, record.wordProgress)
    ensures TotalWords(story.pages) > 0 ==> Percentage(story, Some(record)) == 100
  {
    AllDoneCountsEveryWord(story.pages, record.wordProgress);
  }

  /** `hasProgress`: a record is stored and the percentage is positive. */
  predicate HasProgress(story: PagedStory, storyProgress: seq<Entry>) {
    story.id in Keys(storyProgress) && Percentage(story, Get(storyProgress, story.id)) > 0
  }

  /** `isCompleted`: the percentage is exactly 100. */
  predicate IsCompleted(story: PagedStory, storyProgress: seq<Entry>) {
    Percentage(story, Get(storyProgress, story.id)) == 100
  }

  /** A completed story always has progress (and so a stored record). */
  lemma CompletedHasProgress(story: PagedStory, storyProgress: seq<Entry>)
    requires IsCompleted(story, storyProgress)
    ensures HasProgress(story, storyProgress)
  {
  }

  /** `storiesWithProgress`: the catalogue filtered by HasProgress, in catalogue order. */
  function StoriesWithProgress(catalog: seq<PagedStory>, storyProgress: seq<Entry>): (r: seq<PagedStory>)
    ensures forall s :: s in r <==> s in catalog && HasProgress(s, storyProgress)
    ensures IsSubsequence(r, catalog)
    ensures forall s :: multiset(r)[s] == if HasProgress(s, storyProgress) then multiset(catalog)[s] else 0
    decreases |catalog|
  {
    if catalog == [] then []
    else
      assert catalog == [catalog[0]] + catalog[1..];
      if HasProgress(catalog[0], storyProgress) then [catalog[0]] + StoriesWithProgress(catalog[1..], storyProgress)
      else StoriesWithProgress(catalog[1..], storyProgress)
  }

  /** Filtering distributes over concatenation: each story is judged on its own, in catalogue order. */
  lemma {:induction false} StoriesWithProgressAppend(a: seq<PagedStory>, b: seq<PagedStory>, storyProgress: seq<Entry>)
    ensures StoriesWithProgress(a + b, storyProgress) == StoriesWithProgress(a, storyProgress) + StoriesWithProgress(b, storyProgress)
    decreases |a|
  {
    if a != [] {
      ConsAppend(a, b);
      var ab := a + b;
      StoriesWithProgressAppend(a[1..], b, storyProgress);
      var fa, fb := StoriesWithProgress(a[1..], storyProgress), StoriesWithProgress(b, storyProgress);
      if HasProgress(a[0], storyProgress) {
        assert StoriesWithProgress(ab, storyProgress) == [a[0]] + StoriesWithProgress(ab[1..], storyProgress);
        assert StoriesWithProgress(a, storyProgress) == [a[0]] + fa;
        AppendAssociative([a[0]], fa, fb);
      } else {
        assert StoriesWithProgress(ab, storyProgress) == StoriesWithProgress(ab[1..], storyProgress);
        assert StoriesWithProgress(a, storyProgress) == fa;
      }
    } else {
      assert a + b == b;
    }
  }

  /** The number of catalogue stories showing 100%: `stories.filter(isCompleted).length`. */
  function CompletedStories(catalog: seq<PagedStory>, storyProgress: seq<Entry>): (n: int)
    ensures 0 <= n <= |catalog|
    ensures |catalog| == 1 ==> n == if IsCompleted(catalog[0], storyProgress) then 1 else 0
    decreases |catalog|
  {
    if catalog == [] then 0
    else (if IsCompleted(catalog[0], storyProgress) then 1 else 0) + CompletedStories(catalog[1..], storyProgress)
  }

  /** The count over two parts of a catalogue is the sum of the parts' counts. */
  lemma {:induction false} CompletedStoriesAppend(a: seq<PagedStory>, b: seq<PagedStory>, storyProgress: seq<Entry>)
    ensures CompletedStories(a + b, storyProgress) == CompletedStories(a, storyProgress) + CompletedStories(b, storyProgress)
    decreases |a|
  {
    if a != [] {
      var ab := a + b;
      assert ab != [] && ab[0] == a[0] && ab[1..] == a[1..] + b;
      CompletedStoriesAppend(a[1..], b, storyProgress);
      assert CompletedStories(ab, storyProgress) == (if IsCompleted(a[0], storyProgress) then 1 else 0) + CompletedStories(a[1..] + b, storyProgress);
      assert CompletedStories(a, storyProgress) == (if IsCompleted(a[0], storyProgress) then 1 else 0) + CompletedStories(a[1..], storyProgress);
    } else {
      assert a + b == b;
    }
  }

  /** The sum of the catalogue stories' percentages (the `reduce` of `getTotalStats`). */
  function PercentSum(catalog: seq<PagedStory>, storyProgress: seq<Entry>): (n: int)
    ensures 0 <= n <= 100 * |catalog|
    ensures |catalog| == 1 ==> n == Percentage(catalog[0], Get(storyProgress, catalog[0].id))
    decreases |catalog|
  {
    if catalog == [] then 0
    else Percentage(catalog[0], Get(storyProgress, catalog[0].id)) + PercentSum(catalog[1..], storyProgress)
  }

  /** The sum over two parts of a catalogue is the sum of the parts' sums. */
  lemma {:induction false} PercentSumAppend(a: seq<PagedStory>, b: seq<PagedStory>, storyProgress: seq<Entry>)
    ensures PercentSum(a + b, storyProgress) == PercentSum(a, storyProgress) + PercentSum(b, storyProgress)
    decreases |a|
  {
    if a != [] {
      var ab := a + b;
      assert ab != [] && ab[0] == a[0] && ab[1..] == a[1..] + b;
      PercentSumAppend(a[1..], b, storyProgress);
      assert PercentSum(ab, storyProgress) == Percentage(a[0], Get(storyProgress, a[0].id)) + PercentSum(a[1..] + b, storyProgress);
      assert PercentSum(a, storyProgress) == Percentage(a[0], Get(storyProgress, a[0].id)) + PercentSum(a[1..], storyProgress);
    } else {
      assert a + b == b;
    }
  }

  /** `Math.round(a / b)` for a positive divisor. */
  function RoundDiv(a: int, b: int): (r: int)
    requires b > 0
    ensures 2 * b * r <= 2 * a + b < 2 * b * r + 2 * b
  {
    (2 * a + b) / (2 * b)
  }

  lemma AverageInRange(sum: int, n: int)
    requires n > 0 && 0 <= sum <= 100 * n
    ensures 0 <= RoundDiv(sum, n) <= 100
  {
    var avg := RoundDiv(sum, n);
    assert 2 * n * avg < 2 * n * 101;
    MulLess(2 * n, avg, 101);
  }

  /**
   * `getTotalStats`. Started stories count every stored entry, whether or not
   * its id is in the catalogue; the average is taken over the whole catalogue
   * and is guarded by the number of entries, not by the catalogue size.
   */
  function Totals(catalog: seq<PagedStory>, storyProgress: seq<Entry>): (r: TotalStats)
    ensures r.totalStories == |catalog| && r.startedStories == |storyProgress|
    ensures 0 <= r.completedStories <= |catalog|
    ensures r.totalPages == PagesRead(storyProgress)
    ensures storyProgress == [] ==> r.averageProgress == Some(0)
    ensures storyProgress != [] && catalog == [] ==> r.averageProgress == None
    ensures r.averageProgress.Some? ==> 0 <= r.averageProgress.value <= 100
    ensures r.completedStories == CompletedStories(catalog, storyProgress)
    ensures storyProgress != [] && catalog != [] ==>
      r.averageProgress == Some(RoundDiv(PercentSum(catalog, storyProgress), |catalog|))
  {
    var average :=
      if |storyProgress| > 0 then
        if |catalog| > 0 then
          var sum := PercentSum(catalog, storyProgress);
          var avg := RoundDiv(sum, |catalog|);
          AverageInRange(sum, |catalog|);
          Some(avg)
        else None
      else Some(0);
    TotalStats(|catalog|, |storyProgress|, CompletedStories(catalog, storyProgress),
      PagesRead(storyProgress), average)
  }

  class ProgressDashboard {
    /** The progress records on display. */
    var storyProgress: seq<Entry>

    constructor ()
      ensures storyProgress == []
    {
      storyProgress := [];
    }

    /** The loading effect: when storage is usable, show everything the tracker stores. */
    method Load(store: LocalStorage)
      modifies this, store
      ensures store.available == old(store.available)
      ensures store.items == if store.available then Probed(old(store.items)) else old(store.items)
      ensures storyProgress == if store.available then StoredProgress(old(store.items)) else old(storyProgress)
    {
      var ok := IsAvailable(store);
      if ok {
        var all := GetAllProgress(store);
        storyProgress := all;
      }
    }

    /**
     * Clear All: after confirmation and when storage is usable, remove the
     * key `kidReader_progress` and empty the display. The tracker keeps its
     * data under a different key, so the stored progress survives.
     */
    method ClearAll(store: LocalStorage, confirmed: bool)
      modifies this, store
      ensures store.available == old(store.available)
      ensures StoredProgress(store.items) == StoredProgress(old(store.items))
      ensures storyProgress == if confirmed && store.available then [] else old(storyProgress)
      ensures store.items ==
                if !confirmed then old(store.items)
                else if store.available then Probed(old(store.items)) - {DashboardKey}
                else old(store.items)
    {
      if confirmed {
        var ok := IsAvailable(store);
        if ok {
          store.items := store.items - {DashboardKey};
          storyProgress := [];
        }
      }
    }

    /**
     * Clear All as evidently intended: through the tracker's own clear-all,
     * which removes the key the records are kept under, so nothing is
     * stored afterwards.
     */
    method ClearAllThroughTracker(store: LocalStorage, confirmed: bool)
      modifies this, store
      ensures store.available == old(store.available)
      ensures storyProgress == if confirmed && store.available then [] else old(storyProgress)
      ensures confirmed && store.available ==> StoredProgress(store.items) == []
      ensures !(confirmed && store.available) ==> StoredProgress(store.items) == StoredProgress(old(store.items))
    {
      if confirmed {
        var ok := IsAvailable(store);
        if ok {
          ClearAllProgress(store);
          storyProgress := [];
        }
      }
    }
  }

  /** After Clear All, loading the dashboard again brings back every stored record. */
  lemma ClearAllIsUndoneByReload(items: map<string, Value>)
    ensures StoredProgress(Probed(Probed(items) - {DashboardKey})) == StoredProgress(items)
  {
  }
}
