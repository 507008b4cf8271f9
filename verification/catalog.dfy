/**
 * The story catalogue and its helpers (app/data/stories.ts): the fixed list
 * of stories, the reader configuration, lookup by category and by id, the
 * category list offered to the learner, and the colour classes per difficulty.
 */
module Catalog {
  import opened Wrappers
  import opened Text

  datatype Difficulty = Easy | Medium | Hard

  datatype Story = Story(
    id: string,
    title: string,
    description: string,
    text: string,
    emoji: string,
    difficulty: Difficulty,
    category: string)

  datatype ReaderConfig = ReaderConfig(wordsPerPage: int, showReadPageButtonFromPage: int)

  /** Eight words per page; the read-page threshold is declared but no reader consults it. */
  const readerConfig: ReaderConfig := ReaderConfig(8, 1)

  /** The category name that stands for "every story". */
  const AllCategory: string := "All"

  const Stories: seq<Story> := [
    Story("magic-wand", "\U{2728} Magic Story", "A simple tale about magic and wonder",
      "He waved a wand and magic happened.", "\U{2728}", Easy, "Fantasy"),
    Story("brave-cat", "\U{1F431} The Brave Cat", "A courageous cat saves the day",
      "The brave cat climbed the tall tree. She rescued the little bird. Everyone cheered for the hero cat.",
      "\U{1F431}", Easy, "Adventure"),
    Story("rainbow-adventure", "\U{1F308} Rainbow Adventure", "Follow the colors to find treasure",
      "After the rain stopped, a beautiful rainbow appeared in the sky. Sarah followed the rainbow across the meadow. At the end, she found a pot of golden flowers.",
      "\U{1F308}", Medium, "Adventure"),
    Story("space-journey", "\U{1F680} Space Journey", "Explore the stars and planets",
      "Captain Luna started her spaceship engines. She flew past the moon and waved at the stars. On Mars, she met friendly aliens who shared space cookies with her.",
      "\U{1F680}", Medium, "Science Fiction"),
    Story("forest-friends", "\U{1F332} Forest Friends", "Animals working together in the forest",
      "In the deep green forest, all the animals were preparing for winter. The squirrels gathered nuts while the bears collected honey. The wise owl helped everyone make a plan to share their food.",
      "\U{1F332}", Hard, "Nature"),
    Story("underwater-world", "\U{1F420} Underwater World", "Discover the mysteries of the ocean",
      "Deep beneath the ocean waves, colorful fish swam through coral gardens. A young dolphin named Splash loved to explore the underwater caves. One day, she discovered a sunken treasure chest filled with pearls.",
      "\U{1F420}", Hard, "Adventure"),
    Story("dragon-friend", "\U{1F409} The Friendly Dragon", "A dragon who loves to help others",
      "In a castle high on a mountain lived a gentle dragon named Spark. Unlike other dragons, Spark loved to help people. When the village needed water, Spark used his fire to melt snow from the mountain peaks. The villagers learned that being different can be wonderful.",
      "\U{1F409}", Hard, "Fantasy"),
    Story("robot-helper", "\U{1F916} Robot Helper", "A robot learns about friendship",
      "Beep the robot was built to clean houses. But Beep wanted to do more than just clean. One day, Beep helped a lost puppy find its way home. From that day on, Beep discovered that helping others made his circuits sparkle with joy.",
      "\U{1F916}", Medium, "Science Fiction")
  ]

  /** The configuration pagination depends on is usable: a positive page size. */
  lemma ReaderConfigValid()
    ensures readerConfig.wordsPerPage > 0
  {
  }

  /** No two catalogue entries share an id. */
  lemma CatalogIdsDistinct()
    ensures forall i, j :: 0 <= i < j < |Stories| ==> Stories[i].id != Stories[j].id
  {
  }

  /** The stories of one category, in catalogue order (`stories.filter(...)`). */
  function FilterCategory(catalog: seq<Story>, category: string): (r: seq<Story>)
    ensures forall s :: s in r <==> s in catalog && s.category == category
    ensures IsSubsequence(r, catalog)
    ensures forall s :: multiset(r)[s] == if s.category == category then multiset(catalog)[s] else 0
    decreases |catalog|
  {
    if catalog == [] then []
    else
      assert catalog == [catalog[0]] + catalog[1..];
      if catalog[0].category == category then [catalog[0]] + FilterCategory(catalog[1..], category)
      else FilterCategory(catalog[1..], category)
  }

  /** Filtering distributes over concatenation: each story is judged on its own, in catalogue order. */
  lemma {:induction false} FilterCategoryAppend(a: seq<Story>, b: seq<Story>, category: string)
    ensures FilterCategory(a + b, category) == FilterCategory(a, category) + FilterCategory(b, category)
    decreases |a|
  {
    if a != [] {
      ConsAppend(a, b);
      var ab := a + b;
      FilterCategoryAppend(a[1..], b, category);
      var fa, fb := FilterCategory(a[1..], category), FilterCategory(b, category);
      if a[0].category == category {
        assert FilterCategory(ab, category) == [a[0]] + FilterCategory(ab[1..], category);
        assert FilterCategory(a, category) == [a[0]] + fa;
        AppendAssociative([a[0]], fa, fb);
      } else {
        assert FilterCategory(ab, category) == FilterCategory(ab[1..], category);
        assert FilterCategory(a, category) == fa;
      }
    } else {
      assert a + b == b;
    }
  }

  /** A single story is kept exactly when it is of the category. */
  lemma FilterOneStory(s: Story, category: string)
    ensures FilterCategory([s], category) == if s.category == category then [s] else []
  {
    assert [s][1..] == [];
  }

  /** `getStoriesByCategory`: the whole catalogue for "All", otherwise the stories of that category. */
  function StoriesByCategory(catalog: seq<Story>, category: string): (r: seq<Story>)
    ensures category == AllCategory ==> r == catalog
    ensures category != AllCategory ==> forall s :: s in r <==> s in catalog && s.category == category
    ensures category != AllCategory ==> IsSubsequence(r, catalog)
    ensures category != AllCategory ==>
      forall s :: multiset(r)[s] == if s.category == category then multiset(catalog)[s] else 0
  {
    if category == AllCategory then catalog else FilterCategory(catalog, category)
  }

  /** The position of the first story with the given id, or the catalogue length when there is none. */
  function IndexOfId(catalog: seq<Story>, id: string): (k: nat)
    ensures k <= |catalog|
    ensures forall j :: 0 <= j < k ==> catalog[j].id != id
    ensures k < |catalog| ==> catalog[k].id == id
    decreases |catalog|
  {
    if catalog == [] then 0
    else if catalog[0].id == id then 0
    else 1 + IndexOfId(catalog[1..], id)
  }

  /** `getStoryById`: the first story carrying `id`, or nothing. */
  function StoryById(catalog: seq<Story>, id: string): (r: Option<Story>)
    ensures r.None? <==> forall s :: s in catalog ==> s.id != id
    ensures r.Some? ==> exists k :: 0 <= k < |catalog| && catalog[k] == r.value && r.value.id == id &&
                          forall j :: 0 <= j < k ==> catalog[j].id != id
  {
    var k := IndexOfId(catalog, id);
    if k < |catalog| then Some(catalog[k]) else None
  }

  function Categories(catalog: seq<Story>): (r: seq<string>)
    ensures |r| == |catalog|
    ensures forall i :: 0 <= i < |catalog| ==> r[i] == catalog[i].category
  {
    seq(|catalog|, i requires 0 <= i < |catalog| => catalog[i].category)
  }

  /** The first position of `x` in `xs`. */
  function FirstIndex<T(==)>(xs: seq<T>, x: T): (k: nat)
    requires x in xs
    ensures k < |xs| && xs[k] == x
    ensures forall j :: 0 <= j < k ==> xs[j] != x
    decreases |xs|
  {
    if xs[0] == x then 0 else 1 + FirstIndex(xs[1..], x)
  }

  lemma FirstIndexOfPrefix<T>(xs: seq<T>, m: nat, x: T)
    requires m <= |xs| && x in xs[..m]
    ensures x in xs && FirstIndex(xs[..m], x) == FirstIndex(xs, x)
  {
    var a := FirstIndex(xs[..m], x);
    assert xs[a] == xs[..m][a] == x;
    var b := FirstIndex(xs, x);
    assert b <= a;
    assert b < m ==> xs[..m][b] == xs[b];
  }

  /** `Array.from(new Set(xs))`: each element once, where it first appears. */
  function Distinct(xs: seq<string>): (r: seq<string>)
    ensures forall i, j :: 0 <= i < j < |r| ==> r[i] != r[j]
    ensures forall x :: x in r <==> x in xs
    decreases |xs|
  {
    if xs == [] then []
    else
      var prev := Distinct(xs[..|xs| - 1]);
      var last := xs[|xs| - 1];
      assert forall x :: x in xs <==> x in xs[..|xs| - 1] || x == last by {
        assert xs == xs[..|xs| - 1] + [last];
      }
      if last in prev then prev else prev + [last]
  }

  /** Distinct keeps first-appearance order. */
  lemma {:induction false} DistinctFirstSeenOrder(xs: seq<string>)
    ensures forall i, j :: 0 <= i < j < |Distinct(xs)| ==>
              FirstIndex(xs, Distinct(xs)[i]) < FirstIndex(xs, Distinct(xs)[j])
    decreases |xs|
  {
    if xs != [] {
      var n := |xs|;
      var pre := xs[..n - 1];
      var prev := Distinct(pre);
      var r := Distinct(xs);
      DistinctFirstSeenOrder(pre);
      forall i, j | 0 <= i < j < |r|
        ensures FirstIndex(xs, r[i]) < FirstIndex(xs, r[j])
      {
        assert r[i] in pre;
        FirstIndexOfPrefix(xs, n - 1, r[i]);
        if j < |prev| {
          assert r[i] == prev[i] && r[j] == prev[j];
          FirstIndexOfPrefix(xs, n - 1, r[j]);
        } else {
          assert r[j] == xs[n - 1] && r[j] !in pre;
        }
      }
    }
  }

  /** `getAllCategories`: "All" followed by each category once, in first-appearance order. */
  function AllCategories(catalog: seq<Story>): (r: seq<string>)
    ensures |r| >= 1 && r[0] == AllCategory
    ensures forall c :: c in r[1..] <==> exists s :: s in catalog && s.category == c
    ensures forall i, j :: 1 <= i < j < |r| ==> r[i] != r[j]
  {
    var cats := Categories(catalog);
    assert forall c :: c in cats <==> exists s :: s in catalog && s.category == c by {
      forall c | c in cats ensures exists s :: s in catalog && s.category == c {
        var i :| 0 <= i < |cats| && cats[i] == c;
        assert catalog[i] in catalog;
      }
      forall s | s in catalog ensures s.category in cats {
        var i :| 0 <= i < |catalog| && catalog[i] == s;
        assert cats[i] == s.category;
      }
    }
    [AllCategory] + Distinct(cats)
  }

  /** The categories after "All" appear in the order the catalogue first uses them. */
  lemma AllCategoriesOrder(catalog: seq<Story>)
    ensures forall i, j :: 1 <= i < j < |AllCategories(catalog)| ==>
              FirstIndex(Categories(catalog), AllCategories(catalog)[i]) <
              FirstIndex(Categories(catalog), AllCategories(catalog)[j])
  {
    var cats := Categories(catalog);
    var r := AllCategories(catalog);
    DistinctFirstSeenOrder(cats);
    assert r[1..] == Distinct(cats);
    forall i, j | 1 <= i < j < |r|
      ensures FirstIndex(cats, r[i]) < FirstIndex(cats, r[j])
    {
      assert r[i] == Distinct(cats)[i - 1] && r[j] == Distinct(cats)[j - 1];
    }
  }

  /** `getDifficultyColor`: a light background and a dark text class of one hue per difficulty. */
  function DifficultyColor(d: Difficulty): string {
    match d
    case Easy => "bg-green-100 text-green-800"
    case Medium => "bg-yellow-100 text-yellow-800"
    case Hard => "bg-red-100 text-red-800"
  }

  /** Different difficulties are shown in different colours. */
  lemma DifficultyColorsDistinct(d1: Difficulty, d2: Difficulty)
    requires d1 != d2
    ensures DifficultyColor(d1) != DifficultyColor(d2)
  {
    match (d1, d2)
    case (Easy, _) => assert DifficultyColor(d1)[3] == 'g' != DifficultyColor(d2)[3];
    case (Medium, _) => assert DifficultyColor(d1)[3] == 'y' != DifficultyColor(d2)[3];
    case (Hard, _) => assert DifficultyColor(d1)[3] == 'r' != DifficultyColor(d2)[3];
  }
}
