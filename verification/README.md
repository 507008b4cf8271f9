# Kid-Reader, modelled in Dafny

Kid-Reader is a children's reading app. A story's text is cut into word
tokens and paginated eight words to a page. The child pushes a slider under
the active word to 100 to move on. Finishing the last word completes the page.
Progress is saved per story as one JSON object in `localStorage`. A dashboard
shows per-story percentages and totals. Two phoneme readers split a word into
grapheme/phoneme pairs and say each sound: by speech synthesis, or by a
preloaded audio file with speech as the fallback. A dictionary/letter
converter gives a word's phoneme spelling. A Node script generates one audio
file per phoneme with eSpeak, natively or through WSL.

Modules, one per file:

- `Wrappers`: `Option`.
- `Text`: the string operations the app uses.
  - Lowercasing and uppercasing of ASCII letters.
  - The word tokeniser `split(/(\s+)/).filter(w => w.trim().length > 0)`.
  - `split`/`join` on one character.
- `Catalog`: the story catalogue and its lookups (`app/data/stories.ts`).
- `PaginatedReader`: the karaoke reader (`app/components/PaginatedKaraokeReader.tsx`).
  - The pagination loop is a method.
  - The component is the class `Reader`. Its fields are the React state: pages, page index, sliders, active word and completed pages.
  - Its methods are the effects and handlers.
- `ProgressStore`: the progress tracker (`app/utils/progressTracker.ts`).
  - `localStorage` is the class `LocalStorage`.
  - The stored JSON object is an ordered list of entries, so insertion order and "first entry wins" are expressible.
  - The statistics loop is a method.
- `ReadingProgressView`: the dashboard (`app/components/ReadingProgress.tsx`).
  - The percentage loop is a method.
  - The component is the class `ProgressDashboard`.
- `GraphemeAlignment`: the word cleaning, the phoneme-list parsing and the alignment loops. `PhonemeReader.tsx` and `AudioPhonemeReader.tsx` contain this code twice, identically; it is modelled once.
- `PhonemeReader`: the conversion effect and `speakPhoneme` (`app/components/PhonemeReader.tsx`).
- `AudioPhonemeReader`: the audio table, the preload loop, `playPhoneme` and the speech fallback (`app/components/AudioPhonemeReader.tsx`).
- `PhonemeConverter`: `getWordPhonemesFromCMU` and `getWordPhonemesAsStrings` (`app/utils/phonemeConverter.ts`).
- `EspeakGenerator`: `scripts/generate-phonemes-espeak.js`.
  - The 39-entry table.
  - The WSL path rewrite and the installation check.
  - The command built for each phoneme, one generation attempt, and the counting loop.

The outside world enters as parameters. Each parameter below stands for one effect:

| parameter | stands for |
|---|---|
| `Option<string>` of the phonemes | the phoneme library's output, or its failure |
| `LocalStorage.available` | whether `localStorage` can be used |
| `writeFails` | a write that throws |
| `playFails` | a rejected `audio.play()` |
| `now` | the clock |
| `wslAnswers` and `nativeAnswers` | the two `--version` probes |
| the `files` set | the file system |
| `run` (a function from the command to its outcome) | `execSync` |

Integers are unbounded. `Math.round(c / t * 100)` is the exact integer nearest to 100·c/t, with halves rounded up.

Two notions of a completed story exist in the code, and both are modelled as written:

- The tracker's statistics count a story as completed when any of its pages is completed (`Math.max(...completedPages, -1) >= 0`, app/utils/progressTracker.ts lines 129-134).
- The dashboard counts a story as completed when its percentage is 100 (app/components/ReadingProgress.tsx lines 54-56).

## Model

| member | source | states |
|---|---|---|
| Catalog.ReaderConfigValid | app/data/stories.ts:16-19 | pages hold a positive number of words |
| Catalog.CatalogIdsDistinct | app/data/stories.ts:21-94 | no two catalogue stories share an id, so lookup by id is unambiguous |
| Catalog.FilterCategory | app/data/stories.ts:99 | exactly the stories of the category, each as often as in the catalogue, in catalogue order |
| Catalog.FilterCategoryAppend | app/data/stories.ts:99 | filtering a concatenation is filtering each part, in order |
| Catalog.FilterOneStory | app/data/stories.ts:99 | one story is kept exactly when its category matches |
| Catalog.StoriesByCategory | app/data/stories.ts:97-100 | "All" returns the catalogue unchanged; any other category returns exactly its stories, in order |
| Catalog.IndexOfId | app/data/stories.ts:103 | the first index holding the id, or the length when none does |
| Catalog.StoryById | app/data/stories.ts:102-104 | None iff no story has the id; otherwise a catalogue story with that id and no earlier one |
| Catalog.Distinct | app/data/stories.ts:107 | `Array.from(new Set(..))`: no repeats and the same members |
| Catalog.DistinctFirstSeenOrder | app/data/stories.ts:107 | the distinct values come in order of first appearance |
| Catalog.AllCategories | app/data/stories.ts:106-108 | "All" first, then every category of some story exactly once and nothing else |
| Catalog.AllCategoriesOrder | app/data/stories.ts:106-108 | categories are listed in order of first appearance in the catalogue |
| Catalog.DifficultyColorsDistinct | app/data/stories.ts:110-117 | the three difficulties get three different colour classes |
| Catalog.DifficultyColor | app/data/stories.ts:110-117 | the colour classes per difficulty: green, yellow and red background and text |
| Text.Lower | app/components/PhonemeReader.tsx:24 | same length, each character lowercased |
| Text.Upper | app/components/PhonemeReader.tsx:88 | same length, each character uppercased |
| Text.TokensWellFormed | app/components/PaginatedKaraokeReader.tsx:26 | no word token is empty or contains whitespace |
| Text.Tokens | app/components/PaginatedKaraokeReader.tsx:26 | the maximal runs of non-whitespace characters, in order (characterised by the lemmas below) |
| Text.TokensKeepText | app/components/PaginatedKaraokeReader.tsx:26 | the tokens concatenate to the text with its whitespace removed |
| Text.TokensOfWord | app/components/PaginatedKaraokeReader.tsx:26 | a non-empty run without whitespace is a single token |
| Text.TokensSplitAtWhitespace | app/components/PaginatedKaraokeReader.tsx:26 | a whitespace character separates the tokens before it from those after it |
| Text.Split | app/components/PhonemeReader.tsx:29 | at least one piece, and no piece contains the separator |
| Text.JoinSplit | app/components/PhonemeReader.tsx:29 | joining the pieces with the separator gives back the string |
| Text.SplitJoin | app/components/PhonemeReader.tsx:29 | splitting a join of separator-free pieces gives back the pieces |
| PaginatedReader.PagesFromKeepWords | app/components/PaginatedKaraokeReader.tsx:32-38 | the pages from any offset hold exactly the remaining words, in order |
| PaginatedReader.PagesFromShape | app/components/PaginatedKaraokeReader.tsx:32-38 | page numbers count up from the offset's page; all pages but the last are full |
| PaginatedReader.Paginate | app/components/PaginatedKaraokeReader.tsx:29-38 | the loop yields pages that flatten back to the words, numbered 1, 2, …, full except the last (which is non-empty), and none for no words |
| PaginatedReader.Zeros | app/components/PaginatedKaraokeReader.tsx:44-47 | a slider value of 0 for exactly the word indices of the page |
| PaginatedReader.CompletesPage | app/components/PaginatedKaraokeReader.tsx:99-102 | the page is marked completed iff the last word's slider is set to 100 |
| PaginatedReader.NextActive | app/components/PaginatedKaraokeReader.tsx:95-109 | the active pointer after a slider change: advance, jump to the end, pre-advance, or stay in every other case (including a 100 on a word that is not active, next or last); it never moves back or past the end |
| PaginatedReader.BothAssignmentsLaterWins | app/components/PaginatedKaraokeReader.tsx:99-109 | when both assignments fire, the page is completed while the pointer stops one short |
| PaginatedReader.SliderOnActiveWord | app/components/PaginatedKaraokeReader.tsx:95-103 | for the active word's own slider the pointer advances by one, jumps to the end, or stays |
| PaginatedReader.ActiveMonotone | app/components/PaginatedKaraokeReader.tsx:83-110 | over any events, the pointer never decreases and never passes the page end |
| PaginatedReader.CompletionAbsorbing | app/components/PaginatedKaraokeReader.tsx:83-110 | once at the end, no event on a word of the page moves the pointer |
| PaginatedReader.ReadingWordByWord | app/components/PaginatedKaraokeReader.tsx:83-110 | m pushes to 100 of the active slider finish min(active + m, count) words |
| PaginatedReader.Reader.constructor | app/components/PaginatedKaraokeReader.tsx:17-51 | mounting paginates the tokens and zeroes the first page's sliders, at page 0 and word 0 |
| PaginatedReader.Reader.EnterCurrentPage | app/components/PaginatedKaraokeReader.tsx:53-65 | on an existing page, every slider goes to 0 and the pointer to word 0; otherwise nothing changes |
| PaginatedReader.Reader.SetText | app/components/PaginatedKaraokeReader.tsx:24-65 | a new text re-paginates and resets the sliders, but not the page index or the completed pages |
| PaginatedReader.Reader.SetWordProgress | app/components/PaginatedKaraokeReader.tsx:83-110 | stores the value, moves the pointer as NextActive says, and only ever adds the current page to the completed set |
| PaginatedReader.Reader.MoveTo | app/components/PaginatedKaraokeReader.tsx:53-65 | a changed page index resets the page; the same index changes nothing |
| PaginatedReader.Reader.NextPage | app/components/PaginatedKaraokeReader.tsx:189-193 | forward one page unless on the last, resetting the new page; sliders and pointer are unchanged when the page does not move |
| PaginatedReader.Reader.PrevPage | app/components/PaginatedKaraokeReader.tsx:195-199 | back one page unless on the first, resetting the new page; sliders and pointer are unchanged when the page does not move or the new index is past the pages |
| PaginatedReader.Reader.GoToPage | app/components/PaginatedKaraokeReader.tsx:201-205 | jump only to an existing page index; other indices are ignored |
| PaginatedReader.Reader.Status | app/components/PaginatedKaraokeReader.tsx:216-226 | completed before the pointer, pending after, active or current at it depending on the stored value |
| PaginatedReader.Reader.OneHighlightedWord | app/components/PaginatedKaraokeReader.tsx:216-226 | at most one word is active or current: the one at the pointer |
| PaginatedReader.Reader.IsCurrentPageCompleted | app/components/PaginatedKaraokeReader.tsx:207-210 | the pointer has reached the end of an existing current page |
| PaginatedReader.Reader.ShowsNextButton | app/components/PaginatedKaraokeReader.tsx:352 | Next appears only on a completed page that is not the last |
| PaginatedReader.Reader.ShowsPrevButton | app/components/PaginatedKaraokeReader.tsx:335-336 | Previous appears on every page but the first |
| PaginatedReader.Reader.ShowsSlider | app/components/PaginatedKaraokeReader.tsx:212-214 | only the word at the pointer shows a slider |
| PaginatedReader.Reader.ShowsStoryComplete | app/components/PaginatedKaraokeReader.tsx:366 | the banner appears only when the last page is completed |
| ProgressStore.Get | app/utils/progressTracker.ts:56 | None iff the key is absent; otherwise the stored entry's record |
| ProgressStore.Put | app/utils/progressTracker.ts:40-43 | assignment adds one entry for a new key and keeps the length otherwise |
| ProgressStore.GetPut | app/utils/progressTracker.ts:40-56 | after assignment, the key reads the new record and every other key reads what it did before |
| ProgressStore.KeysPut | app/utils/progressTracker.ts:40-43 | assignment keeps the key order and appends a new key at the end |
| ProgressStore.Remove | app/utils/progressTracker.ts:82 | `delete`: the key reads nothing, the others are unchanged, and keys stay distinct |
| ProgressStore.PutKeepsKeysDistinct | app/utils/progressTracker.ts:40-43 | assignment keeps the keys distinct |
| ProgressStore.PutWhatWasRead | app/utils/progressTracker.ts:40-43 | writing back a record just read changes nothing |
| ProgressStore.Probed | app/utils/progressTracker.ts:24-28 | the availability probe removes only its own key and leaves the stored progress intact |
| ProgressStore.SavedItems | app/utils/progressTracker.ts:35-48 | a save writes the progress key and touches no other key but the probe's |
| ProgressStore.IsAvailable | app/utils/progressTracker.ts:21-32 | false outside a usable storage; otherwise true, with the probe key removed |
| ProgressStore.GetAllProgress | app/utils/progressTracker.ts:64-74 | the stored object, or empty when storage is unusable, nothing is stored or it does not parse |
| ProgressStore.GetProgress | app/utils/progressTracker.ts:51-61 | the record stored for the story, or None |
| ProgressStore.SaveProgress | app/utils/progressTracker.ts:35-48 | the story's entry becomes the record stamped with the time; a failed write leaves the stored object unchanged |
| ProgressStore.ClearStoryProgress | app/utils/progressTracker.ts:77-87 | deletes exactly the story's entry |
| ProgressStore.ClearAllProgress | app/utils/progressTracker.ts:90-98 | removes the progress key; nothing is stored afterwards |
| ProgressStore.SaveThenGet | app/utils/progressTracker.ts:35-61 | reading after a save gives the saved record with the new time stamp, and other stories are unaffected |
| ProgressStore.StrLessIrreflexive | app/utils/progressTracker.ts:137 | string `<` is irreflexive |
| ProgressStore.StrLessTransitive | app/utils/progressTracker.ts:137 | string `<` is transitive |
| ProgressStore.StrLessTotal | app/utils/progressTracker.ts:137 | of two different strings one is less |
| ProgressStore.Latest | app/utils/progressTracker.ts:136-140 | the running scan ends on an entry iff there is one |
| ProgressStore.StatsBounds | app/utils/progressTracker.ts:120-134 | completed stories are at most the started ones; pages read are never negative |
| ProgressStore.StatsOf | app/utils/progressTracker.ts:116-149 | the statistics of a stored object: entries, completed stories, pages read and the latest entry's story and time |
| ProgressStore.LatestIsFirstGreatest | app/utils/progressTracker.ts:136-140 | with non-empty stamps, the scan ends on the first entry with the greatest time stamp |
| ProgressStore.ComputeStats | app/utils/progressTracker.ts:117-149 | the loop's counters and most recent entry equal the statistics of the entries |
| ProgressStore.GetReadingStats | app/utils/progressTracker.ts:101-158 | zeros when storage is unusable, otherwise the statistics of the stored object |
| ReadingProgressView.TotalWords | app/components/ReadingProgress.tsx:35-37 | the word count over all pages is never negative |
| ReadingProgressView.CompletedOnPage | app/components/ReadingProgress.tsx:39-44 | the page's done words are between 0 and its word count |
| ReadingProgressView.PageAllDone | app/components/ReadingProgress.tsx:39-44 | a page whose every word is stored as 100 counts all its words |
| ReadingProgressView.CompletedWords | app/components/ReadingProgress.tsx:35-45 | the done words are between 0 and the total; stored indices past a page's end never count |
| ReadingProgressView.RoundPercent | app/components/ReadingProgress.tsx:47 | the nearest integer to 100·c/t, halves up, 0 for no words; within 0..100, and 100 iff 200c ≥ 199t |
| ReadingProgressView.OneWordShort | app/components/ReadingProgress.tsx:47 | one word short of the end shows 100% exactly when the story has 200 words or more |
| ReadingProgressView.Percentage | app/components/ReadingProgress.tsx:28-48 | 0 without a record or without words; always within 0..100 |
| ReadingProgressView.StoryProgressPercentage | app/components/ReadingProgress.tsx:28-48 | the page loop computes Percentage of the story's stored record |
| ReadingProgressView.AllDoneCountsEveryWord | app/components/ReadingProgress.tsx:35-45 | when every word is stored as 100, every word counts |
| ReadingProgressView.AllWordsDoneIsComplete | app/components/ReadingProgress.tsx:28-48 | a story with at least one word, every word at 100, shows 100% |
| ReadingProgressView.CompletedHasProgress | app/components/ReadingProgress.tsx:50-56 | a completed story always has progress |
| ReadingProgressView.HasProgress | app/components/ReadingProgress.tsx:50-52 | a record is stored and the percentage is positive |
| ReadingProgressView.IsCompleted | app/components/ReadingProgress.tsx:54-56 | the percentage is exactly 100 |
| ReadingProgressView.StoriesWithProgress | app/components/ReadingProgress.tsx:99 | exactly the catalogue stories with progress, each as often as in the catalogue, in catalogue order |
| ReadingProgressView.StoriesWithProgressAppend | app/components/ReadingProgress.tsx:99 | filtering a concatenation is filtering each part, in order |
| ReadingProgressView.CompletedStories | app/components/ReadingProgress.tsx:76 | between 0 and the catalogue size; one story counts 1 iff it is completed |
| ReadingProgressView.CompletedStoriesAppend | app/components/ReadingProgress.tsx:76 | the count over a concatenation is the sum of the parts' counts |
| ReadingProgressView.PercentSum | app/components/ReadingProgress.tsx:81-83 | between 0 and 100 per story; one story contributes its percentage |
| ReadingProgressView.PercentSumAppend | app/components/ReadingProgress.tsx:81-83 | the sum over a concatenation is the sum of the parts' sums |
| ReadingProgressView.RoundDiv | app/components/ReadingProgress.tsx:81-83 | `Math.round(a / b)`: the nearest integer, halves up |
| ReadingProgressView.AverageInRange | app/components/ReadingProgress.tsx:80-84 | the average percentage is within 0..100 |
| ReadingProgressView.Totals | app/components/ReadingProgress.tsx:73-87 | every stored entry counts as started; completed stories are CompletedStories; pages add up completed pages; the average is 0 with no entries, NaN (None) for an empty catalogue, and otherwise RoundDiv(PercentSum, catalogue size) |
| ReadingProgressView.ProgressDashboard.constructor | app/components/ReadingProgress.tsx:12 | the dashboard starts with no records |
| ReadingProgressView.ProgressDashboard.Load | app/components/ReadingProgress.tsx:20-26 | when storage is usable, the dashboard shows exactly what the tracker stores |
| ReadingProgressView.ProgressDashboard.ClearAll | app/components/ReadingProgress.tsx:89-96 | after confirmation the display empties, but the stored progress is unchanged (wrong key) |
| ReadingProgressView.ProgressDashboard.ClearAllThroughTracker | app/components/ReadingProgress.tsx:89-96 | the corrected Clear All: after confirmation nothing is stored |
| ReadingProgressView.ClearAllIsUndoneByReload | app/components/ReadingProgress.tsx:92 | reloading after Clear All brings back every stored record |
| GraphemeAlignment.KeepLetters | app/components/PhonemeReader.tsx:107 | only ASCII letters remain; lowercase input stays lowercase |
| GraphemeAlignment.KeepLettersOfLetters | app/components/PhonemeReader.tsx:24 | a word of letters only is kept whole |
| GraphemeAlignment.CleanWord | app/components/PhonemeReader.tsx:24 | the cleaned word is all lowercase ASCII letters |
| GraphemeAlignment.CleanWordIsLowerOfLetters | app/components/PhonemeReader.tsx:24 | the cleaned word is the lowercase of the letters-only word (the error path's word) |
| GraphemeAlignment.CleanWordIdempotent | app/components/PhonemeReader.tsx:24 | cleaning twice is cleaning once |
| GraphemeAlignment.KeepPhonemes | app/components/PhonemeReader.tsx:29 | exactly the pieces that are not blank and not "-", each as often as in the split, in order |
| GraphemeAlignment.KeepPhonemesAppend | app/components/PhonemeReader.tsx:29 | filtering a concatenation is filtering each part, in order |
| GraphemeAlignment.KeepOnePhoneme | app/components/PhonemeReader.tsx:29 | one piece is kept exactly when it is not blank and not "-" |
| GraphemeAlignment.KeepAllPhonemes | app/components/PhonemeReader.tsx:29 | a list of valid phonemes is kept whole |
| GraphemeAlignment.ParsePhonemes | app/components/PhonemeReader.tsx:29 | every phoneme is non-blank, has no space and is not "-"; the list is KeepPhonemes of the split on spaces |
| GraphemeAlignment.ParseJoinedPhonemes | app/components/PhonemeReader.tsx:29 | space-joined valid phonemes parse back to themselves |
| GraphemeAlignment.MainCountBounds | app/components/PhonemeReader.tsx:42-80 | the first loop uses no more phonemes than there are, and consumes every letter when phonemes are left over |
| GraphemeAlignment.MainPairsStep | app/components/PhonemeReader.tsx:42-80 | one iteration of the first loop: it pairs phoneme p with the grapheme at letter g, then goes on from the next letter and phoneme |
| GraphemeAlignment.MainPairsTile | app/components/PhonemeReader.tsx:42-91 | the loops' pairs tile the rest of the word |
| GraphemeAlignment.LettersTile | app/components/PhonemeReader.tsx:84-91 | the leftover loop's pairs tile the rest of the word |
| GraphemeAlignment.TilesFacts | app/components/PhonemeReader.tsx:32-101 | a tiling spells the word, and positions are strictly increasing start offsets inside it |
| GraphemeAlignment.AlignSpellsWord | app/components/PhonemeReader.tsx:32-101 | in every branch the graphemes spell the cleaned word, each position is its grapheme's start offset, and positions strictly increase |
| GraphemeAlignment.Align | app/components/PhonemeReader.tsx:32-101 | the pairs: the main loops when both the word and the phoneme list are non-empty, else letter by letter |
| GraphemeAlignment.MainPairsPhonemes | app/components/PhonemeReader.tsx:42-80 | the k-th pair of the first loop carries the k-th phoneme |
| GraphemeAlignment.MainPairPhoneme | app/components/PhonemeReader.tsx:42-80 | pointwise: pair k of the first loop exists and carries phoneme p + k |
| GraphemeAlignment.MainPairsDigraphs | app/components/PhonemeReader.tsx:46-70 | a first-loop pair has two letters iff a table digraph starts at its position |
| GraphemeAlignment.LeftoverPairs | app/components/PhonemeReader.tsx:84-91 | after the first loop, each pair is one letter under its uppercase letter |
| GraphemeAlignment.LettersPhonemes | app/components/PhonemeReader.tsx:84-101 | the letter-by-letter pairs: one per letter, at its index, under its uppercase letter |
| GraphemeAlignment.FallbackIsLetterByLetter | app/components/PhonemeReader.tsx:92-101 | with no phonemes or no letters, each letter is its own pair |
| GraphemeAlignment.ShapeIgnoresPhonemes | app/components/PhonemeReader.tsx:42-80 | the cut into graphemes depends on the letters and the number of phonemes only |
| GraphemeAlignment.PairWhileBothLast | app/components/PhonemeReader.tsx:39-80 | the first loop stops when either side runs out, and its pairs are the prefix of the alignment |
| GraphemeAlignment.AlignPairs | app/components/PhonemeReader.tsx:32-101 | the method's pairs are the alignment Align, which AlignSpellsWord and the lemmas above characterise |
| GraphemeAlignment.ErrorPairs | app/components/PhonemeReader.tsx:104-113 | the error path: one pair per letter of the unlowercased word, at its index, under its uppercase letter |
| PhonemeReader.Convert | app/components/PhonemeReader.tsx:17-117 | the pairs spell the cleaned word (or the letters on error) with strictly increasing positions |
| PhonemeReader.PathsSpellSameLetters | app/components/PhonemeReader.tsx:104-113 | the main and error paths spell the same letters up to case |
| PhonemeReader.SoundsNonEmpty | app/components/PhonemeReader.tsx:127-170 | every table sound is non-empty, so the table is used exactly for its keys |
| PhonemeReader.PlosivesHaveSounds | app/components/PhonemeReader.tsx:182 | every plosive has a table sound |
| PhonemeReader.SpeakPhoneme | app/components/PhonemeReader.tsx:122-196 | a table sound is spoken at rate 0.6 for a plosive and 0.4 otherwise; any other phoneme is spoken as its lowercased name at 0.3 |
| AudioPhonemeReader.StressMarksShareFile | app/components/AudioPhonemeReader.tsx:128-219 | each stressed vowel with mark 0, 1 or 2 plays the same file as the bare vowel |
| AudioPhonemeReader.AudioFile | app/components/AudioPhonemeReader.tsx:128-219 | the 85-key `phonemeToAudioFile` table, keys matched character by character |
| AudioPhonemeReader.AffricateSpellingsShareFile | app/components/AudioPhonemeReader.tsx:153-154 | "JH" and "J" both play j.wav |
| AudioPhonemeReader.AudioCache | app/components/AudioPhonemeReader.tsx:221-237 | the cache holds exactly the mapped phonemes of the list, each with its file under /audio/phonemes/ |
| AudioPhonemeReader.PreloadAudioFiles | app/components/AudioPhonemeReader.tsx:124-238 | the preload loop builds exactly AudioCache |
| AudioPhonemeReader.PhonemesOf | app/components/AudioPhonemeReader.tsx:103 | the pairs' phonemes, in order |
| AudioPhonemeReader.Convert | app/components/AudioPhonemeReader.tsx:17-122 | the same pairs as the phoneme reader, with the cache of their phonemes |
| AudioPhonemeReader.FallbackSpeech | app/components/AudioPhonemeReader.tsx:256-277 | the short-table sound, else the lowercased phoneme, at rate 0.4 |
| AudioPhonemeReader.PlayPhoneme | app/components/AudioPhonemeReader.tsx:240-254 | a cached phoneme plays its file, then speaks only if playing fails; an uncached one is spoken |
| AudioPhonemeReader.ClickedPairPlaysItsFile | app/components/AudioPhonemeReader.tsx:325-330 | clicking a pair plays its phoneme's file when the table has one, else speaks it |
| PhonemeConverter.StripPunctuation | app/utils/phonemeConverter.ts:81 | no punctuation is left and every other character is kept |
| PhonemeConverter.StripPunctuationOfClean | app/utils/phonemeConverter.ts:81 | removing punctuation from a clean string changes nothing |
| PhonemeConverter.StripAllPunctuation | app/utils/phonemeConverter.ts:81 | a string of punctuation strips to nothing |
| PhonemeConverter.StripPunctuationAppend | app/utils/phonemeConverter.ts:81 | stripping distributes over concatenation |
| PhonemeConverter.Clean | app/utils/phonemeConverter.ts:81 | no punctuation and no uppercase letter remain; every other character of the lowercased word is kept |
| PhonemeConverter.CleanIdempotent | app/utils/phonemeConverter.ts:81 | cleaning twice is cleaning once |
| PhonemeConverter.AllPunctuationCleansToEmpty | app/utils/phonemeConverter.ts:81 | a word of punctuation cleans to the empty word |
| PhonemeConverter.LetterToPhoneme | app/utils/phonemeConverter.ts:72-78 | an entry exists iff the character is a lowercase ASCII letter |
| PhonemeConverter.LetterDisplayIsLetter | app/utils/phonemeConverter.ts:96 | `LETTER_TO_PHONEME[c] \|\| c` is c itself for every character |
| PhonemeConverter.FromCMU | app/utils/phonemeConverter.ts:80-99 | positions are indices and phonemes are the uppercased displays; a hit displays the entry, a miss one character each |
| PhonemeConverter.BasicWordPhonemes | app/utils/phonemeConverter.ts:10-69 | the dictionary `BASIC_WORD_PHONEMES` |
| PhonemeConverter.AsStrings | app/utils/phonemeConverter.ts:102-112 | a hit returns the entry verbatim |
| PhonemeConverter.AsStringsAreDisplays | app/utils/phonemeConverter.ts:80-112 | for every word, the strings are exactly the segments' display texts |
| PhonemeConverter.MissSpellsCleanWord | app/utils/phonemeConverter.ts:110-111 | on a miss, the strings concatenate to the cleaned word |
| PhonemeConverter.EmptyWordHasNoPhonemes | app/utils/phonemeConverter.ts:80-112 | a word that cleans to nothing has no segments and no strings |
| EspeakGenerator.Slashes | scripts/generate-phonemes-espeak.js:95 | same length, each backslash replaced by a slash |
| EspeakGenerator.WindowsToWslPath | scripts/generate-phonemes-espeak.js:93-96 | no backslash remains; a leading drive X: becomes /mnt/host/x, otherwise only slashes change |
| EspeakGenerator.WslPathCharacters | scripts/generate-phonemes-espeak.js:93-96 | past the rewritten prefix, the characters are the input's with slashes fixed |
| EspeakGenerator.WindowsToWslPathIdempotent | scripts/generate-phonemes-espeak.js:93-96 | rewriting a rewritten path changes nothing |
| EspeakGenerator.CheckEspeakInstallation | scripts/generate-phonemes-espeak.js:63-82 | None iff neither probe answers; native only when WSL does not answer |
| EspeakGenerator.EspeakCommand | scripts/generate-phonemes-espeak.js:110-121 | WSL: `wsl espeak` on the rewritten path; native: `espeak` on the path as given |
| EspeakGenerator.WslCommandIsNativeOnRewrittenPath | scripts/generate-phonemes-espeak.js:110-121 | the WSL command is "wsl " followed by the native command on the rewritten path |
| EspeakGenerator.CommandEndsWithPhoneme | scripts/generate-phonemes-espeak.js:113-118 | every command ends with the phoneme written as `"[[…]]"` |
| EspeakGenerator.GeneratePhonemeAudio | scripts/generate-phonemes-espeak.js:98-136 | skips (no command) iff the file exists and not forced; true iff the command ran without throwing and the file exists |
| EspeakGenerator.GenerateTouchesOnlyItsFile | scripts/generate-phonemes-espeak.js:98-136 | an attempt changes no file but its own |
| EspeakGenerator.Count | scripts/generate-phonemes-espeak.js:158-164 | exactly one counter is incremented: generated iff true, skipped iff false with the file present |
| EspeakGenerator.TallySumsToEntries | scripts/generate-phonemes-espeak.js:155-165 | the three counters sum to the number of entries |
| EspeakGenerator.Tally | scripts/generate-phonemes-espeak.js:155-165 | the counters and files after attempting the entries in order |
| EspeakGenerator.AllPresentAllSkipped | scripts/generate-phonemes-espeak.js:155-165 | without force and with every file present, all entries are skipped and no command runs |
| EspeakGenerator.ForcedFailureOnExistingFileCountsAsSkipped | scripts/generate-phonemes-espeak.js:158-164 | a forced command that throws on a file still present counts as skipped, not failed |
| EspeakGenerator.GenerateEntries | scripts/generate-phonemes-espeak.js:155-165 | the loop's counters, commands and files equal the tally of the entries |
| EspeakGenerator.GenerateAllPhonemes | scripts/generate-phonemes-espeak.js:138-178 | nothing is counted iff no installation answers; otherwise the tally of the whole table, whose counters sum to 39 |

## Findings

| source | as written | input that shows it | evidently intended | confidence | as-written member | corrected member |
|---|---|---|---|---|---|---|
| app/components/ReadingProgress.tsx:92 | Clear All removes the key `kidReader_progress`, but the tracker stores progress under `kid-reader-progress` | any stored record, then Clear All confirmed, then a reload | Clear All empties the stored progress, as `ProgressTracker.clearAllProgress` does | high, not executed | ReadingProgressView.ClearAllIsUndoneByReload | ReadingProgressView.ProgressDashboard.ClearAllThroughTracker |

`ProgressDashboard.ClearAll` keeps the code as written. `ClearAllThroughTracker` is the corrected version beside it.

## Left out

- Speech and audio playback themselves are not modelled. Utterances and played files are returned as values.
- Voice selection, pitch and volume are left out, and so is the `setTimeout` delay.
- Speech rates are kept as integers in tenths.
- The `'speechSynthesis' in window` checks are not modelled. Speech is assumed available.
- `speakWholeWord` is not modelled (both readers). It only speaks the word.
- `handleCompletedWordClick` and `handlePlayCurrentPage` are not modelled. They only speak.
- The `phonemify` library is not part of this model. Its output for the cleaned word is an input, and its failure is `None`.
- `getLastReadDate` is not modelled. It depends on the clock and on locale date formatting.
- `KaraokeReader`, `StorySelector`, the demo and test components, the page wiring and the other scripts are not part of this model.
- The image generator and the placeholder and Windows phoneme scripts are not part of this model.
- The dashboard reads `story.pages[i].text`, but catalogue stories have only `text`. The model gives the dashboard stories as lists of page texts (`PagedStory`). It does not model the `TypeError` this mismatch raises in the code.
- Object lookups use a key's own entries only, so inherited property names such as `constructor` are not looked up. This applies to the dictionary, the letter table, the audio table, the digraph table and the progress object.
- Integer-like story ids, which JavaScript enumerates first, are not modelled.
- Only records shaped as `ReadingProgress` are modelled. JSON that parses to a non-object or a differently shaped object is left out.
- `toLowerCase`/`toUpperCase` are modelled for ASCII letters only. Other characters are left unchanged.
- `split('')` is modelled one `char` per element. UTF-16 surrogate pairs are not modelled.
- Percentages use exact rational rounding, halves up. Double-precision rounding of `c / t * 100` is left out; for example, 29/200 rounds down in JavaScript.
- The generator's directory and separator are parameters. The normalisation done by `path.join` is not modelled.
- The generator's console output is not modelled, nor are `createPhonemeDirectory`, the argument parsing of `main` and the `--version` strings.
- Reads and writes from several tabs at once are not modelled. Each operation runs alone.
- `rawPhonemes` and `isLoading` are display state only and are not modelled. A failing `new Audio(...)` is not modelled; creation is assumed to succeed.
- ProgressStore.GetReadingStats: the catch path returning zeros on an exception inside the loop is not modelled, because with the records modelled as well-formed nothing in the loop can throw.
- ProgressStore.GetAllProgress: a stored object is taken to have distinct keys, as every `JSON.parse` result has. The `ProgressJson` type does not exclude repeated keys. For such a value the started-story count would count each repetition.
