/**
 * Reading progress persistence (app/utils/progressTracker.ts): one record per
 * story, all kept as one JSON object under a single localStorage key, with
 * read, save (stamping the time), clear-one, clear-all and the statistics
 * summarised over every record.
 *
 * The browser's localStorage is class LocalStorage; whether it can be used
 * at all is its field `available`, and a write that throws (quota) is a
 * parameter. The parsed JSON object is an ordered list of entries: a
 * JavaScript object enumerates string keys in insertion order, and
 * assignment to an existing key keeps its place.
 */
module ProgressStore {
  import opened Wrappers

  /** One story's saved progress. `wordProgress` maps page index to (word index to slider value). */
  datatype ReadingProgress = ReadingProgress(
    storyId: string,
    currentPageIndex: int,
    currentWordIndex: int,
    completedPages: seq<int>,
    wordProgress: map<int, map<int, int>>,
    lastReadAt: string)

  /** One property of the stored object: story id and record. */
  datatype Entry = Entry(key: string, value: ReadingProgress)

  /** What a storage key holds: a progress object, or text that does not parse as one. */
  datatype Value = ProgressJson(entries: seq<Entry>) | Raw(text: string)

  const StorageKey: string := "kid-reader-progress"

  /** The key the availability probe writes and removes again. */
  const ProbeKey: string := "__localStorage_test__"

  class LocalStorage {
    /** False outside a browser or when storage access throws. */
    var available: bool
    var items: map<string, Value>
  }

  /** The property names, in enumeration order. */
  function Keys(es: seq<Entry>): (r: seq<string>)
    ensures |r| == |es|
    ensures forall i :: 0 <= i < |es| ==> r[i] == es[i].key
    decreases |es|
  {
    if es == [] then [] else [es[0].key] + Keys(es[1..])
  }

  /** A JSON object never holds the same key twice. */
  predicate DistinctKeys(es: seq<Entry>) {
    forall i, j :: 0 <= i < j < |es| ==> es[i].key != es[j].key
  }

  /** `obj[key]`: the record stored under `key`, if any. */
  function Get(es: seq<Entry>, key: string): (r: Option<ReadingProgress>)
    ensures r.None? <==> key !in Keys(es)
    ensures r.Some? ==> Entry(key, r.value) in es
    decreases |es|
  {
    if es == [] then None
    else if es[0].key == key then Some(es[0].value)
    else Get(es[1..], key)
  }

  /** `obj[key] = value`: overwrite in place, or append a new property. */
  function Put(es: seq<Entry>, key: string, value: ReadingProgress): (r: seq<Entry>)
    ensures |r| == if key in Keys(es) then |es| else |es| + 1
    decreases |es|
  {
    if es == [] then [Entry(key, value)]
    else if es[0].key == key then [Entry(key, value)] + es[1..]
    else [es[0]] + Put(es[1..], key, value)
  }

  /** Reading after an assignment: the assigned key gives the new record, every other key what it gave before. */
  lemma {:induction false} GetPut(es: seq<Entry>, key: string, value: ReadingProgress, k: string)
    ensures Get(Put(es, key, value), k) == if k == key then Some(value) else Get(es, k)
    decreases |es|
  {
    if es != [] && es[0].key != key {
      var r := Put(es, key, value);
      assert r[1..] == Put(es[1..], key, value);
      GetPut(es[1..], key, value, k);
    } else if es != [] {
      assert Put(es, key, value)[1..] == es[1..];
    }
  }

  /** Assignment keeps the property order and appends a new name at the end. */
  lemma {:induction false} KeysPut(es: seq<Entry>, key: string, value: ReadingProgress)
    ensures Keys(Put(es, key, value)) == if key in Keys(es) then Keys(es) else Keys(es) + [key]
    decreases |es|
  {
    if es != [] {
      var r := Put(es, key, value);
      assert Keys(es) == [es[0].key] + Keys(es[1..]);
      if es[0].key == key {
        assert r[1..] == es[1..];
        assert Keys(r) == [key] + Keys(es[1..]);
      } else {
        KeysPut(es[1..], key, value);
        assert r[1..] == Put(es[1..], key, value);
        assert Keys(r) == [es[0].key] + Keys(r[1..]);
      }
    }
  }

  /** `delete obj[key]`. */
  function Remove(es: seq<Entry>, key: string): (r: seq<Entry>)
    ensures Get(r, key) == None
    ensures forall k :: k != key ==> Get(r, k) == Get(es, k)
    ensures forall e :: e in r <==> e in es && e.key != key
    ensures DistinctKeys(es) ==> DistinctKeys(r)
    decreases |es|
  {
    if es == [] then []
    else
      var rest := Remove(es[1..], key);
      if es[0].key == key then rest
      else
        assert ([es[0]] + rest)[1..] == rest;
        [es[0]] + rest
  }

  /** An object with distinct property names keeps them distinct under assignment. */
  lemma PutKeepsKeysDistinct(es: seq<Entry>, key: string, value: ReadingProgress)
    requires DistinctKeys(es)
    ensures DistinctKeys(Put(es, key, value))
  {
    var r := Put(es, key, value);
    KeysPut(es, key, value);
    forall i, j | 0 <= i < j < |r|
      ensures r[i].key != r[j].key
    {
      assert Keys(r)[i] == r[i].key && Keys(r)[j] == r[j].key;
      if j == |es| {
        assert key !in Keys(es);
        assert Keys(es)[i] == es[i].key;
      } else {
        assert Keys(es)[i] == es[i].key && Keys(es)[j] == es[j].key;
      }
    }
  }

  /** Writing back a record just read from the object changes nothing. */
  lemma {:induction false} PutWhatWasRead(es: seq<Entry>, key: string)
    requires Get(es, key).Some?
    ensures Put(es, key, Get(es, key).value) == es
    decreases |es|
  {
    if es[0].key != key {
      PutWhatWasRead(es[1..], key);
    }
  }

  /** The progress object read from storage items: empty when the key is missing or does not parse. */
  function StoredProgress(items: map<string, Value>): seq<Entry> {
    if StorageKey in items && items[StorageKey].ProgressJson? then items[StorageKey].entries else []
  }

  /** The storage items after the availability probe: the probe key is gone. */
  function Probed(items: map<string, Value>): (r: map<string, Value>)
    ensures StoredProgress(r) == StoredProgress(items)
    ensures forall k :: k in r <==> k in items && k != ProbeKey
  {
    items - {ProbeKey}
  }

  /** The items after a successful save of `p` at time `now`. */
  function SavedItems(items: map<string, Value>, p: ReadingProgress, now: string): (r: map<string, Value>)
    ensures StorageKey in r && r[StorageKey].ProgressJson?
    ensures forall k :: k != StorageKey && k != ProbeKey ==> (k in r <==> k in items) && (k in r ==> r[k] == items[k])
  {
    Probed(items)[StorageKey := ProgressJson(Put(StoredProgress(items), p.storyId, p.(lastReadAt := now)))]
  }

  /**
   * `isAvailable`: outside a usable storage, false; otherwise write and
   * remove the probe key, which leaves the stored progress unchanged.
   */
  method IsAvailable(store: LocalStorage) returns (ok: bool)
    modifies store
    ensures ok == store.available == old(store.available)
    ensures store.items == if ok then Probed(old(store.items)) else old(store.items)
    ensures StoredProgress(store.items) == StoredProgress(old(store.items))
  {
    ok := store.available;
    if ok {
      store.items := store.items[ProbeKey := Raw(ProbeKey)];
      store.items := store.items - {ProbeKey};
      assert store.items == Probed(old(store.items));
    }
  }

  /** `getAllProgress`: the stored object, or empty when storage is unusable, nothing is stored or it does not parse. */
  method GetAllProgress(store: LocalStorage) returns (all: seq<Entry>)
    modifies store
    ensures store.available == old(store.available)
    ensures store.items == if store.available then Probed(old(store.items)) else old(store.items)
    ensures all == if store.available then StoredProgress(old(store.items)) else []
  {
    var ok := IsAvailable(store);
    if !ok {
      return [];
    }
    all := StoredProgress(store.items);
  }

  /** `getProgress`: the record stored for `storyId`, or nothing. */
  method GetProgress(store: LocalStorage, storyId: string) returns (r: Option<ReadingProgress>)
    modifies store
    ensures store.available == old(store.available)
    ensures store.items == if store.available then Probed(old(store.items)) else old(store.items)
    ensures r == if store.available then Get(StoredProgress(old(store.items)), storyId) else None
  {
    var ok := IsAvailable(store);
    if !ok {
      return None;
    }
    var all := GetAllProgress(store);
    r := Get(all, storyId);
  }

  /**
   * `saveProgress`: read the object, set the entry of `p.storyId` to `p`
   * stamped with `now`, and write the object back. When the final write
   * throws (`writeFails`), the stored object is unchanged.
   */
  method SaveProgress(store: LocalStorage, p: ReadingProgress, now: string, writeFails: bool)
    modifies store
    ensures store.available == old(store.available)
    ensures store.items ==
              if !store.available then old(store.items)
              else if writeFails then Probed(old(store.items))
              else SavedItems(old(store.items), p, now)
  {
    var ok := IsAvailable(store);
    if !ok {
      return;
    }
    var all := GetAllProgress(store);
    all := Put(all, p.storyId, p.(lastReadAt := now));
    if writeFails {
      return;
    }
    store.items := store.items[StorageKey := ProgressJson(all)];
  }

  /** `clearStoryProgress`: delete the entry of `storyId` and write the object back. */
  method ClearStoryProgress(store: LocalStorage, storyId: string, writeFails: bool)
    modifies store
    ensures store.available == old(store.available)
    ensures store.items ==
              if !store.available then old(store.items)
              else if writeFails then Probed(old(store.items))
              else Probed(old(store.items))[StorageKey := ProgressJson(Remove(StoredProgress(old(store.items)), storyId))]
    ensures store.available && !writeFails ==>
              Get(StoredProgress(store.items), storyId) == None &&
              forall id :: id != storyId ==> Get(StoredProgress(store.items), id) == Get(StoredProgress(old(store.items)), id)
  {
    var ok := IsAvailable(store);
    if !ok {
      return;
    }
    var all := GetAllProgress(store);
    all := Remove(all, storyId);
    if writeFails {
      return;
    }
    store.items := store.items[StorageKey := ProgressJson(all)];
  }

  /** `clearAllProgress`: remove the progress key; nothing is stored afterwards. */
  method ClearAllProgress(store: LocalStorage)
    modifies store
    ensures store.available == old(store.available)
    ensures store.items == if store.available then Probed(old(store.items)) - {StorageKey} else old(store.items)
    ensures store.available ==> StoredProgress(store.items) == []
  {
    var ok := IsAvailable(store);
    if !ok {
      return;
    }
    store.items := store.items - {StorageKey};
  }

  /** After a save, reading the story's progress gives the saved record with the new time stamp. */
  lemma SaveThenGet(items: map<string, Value>, p: ReadingProgress, now: string, id: string)
    ensures Get(StoredProgress(SavedItems(items, p, now)), id) ==
              if id == p.storyId then Some(p.(lastReadAt := now)) else Get(StoredProgress(items), id)
  {
    GetPut(StoredProgress(items), p.storyId, p.(lastReadAt := now), id);
  }

  // ----- Statistics -----

  /** JavaScript's `a < b` on strings: lexicographic by character. */
  predicate StrLess(a: string, b: string)
    decreases |a|
  {
    if a == [] then b != []
    else if b == [] then false
    else if a[0] != b[0] then a[0] < b[0]
    else StrLess(a[1..], b[1..])
  }

  lemma {:induction false} StrLessIrreflexive(a: string)
    ensures !StrLess(a, a)
    decreases |a|
  {
    if a != [] {
      StrLessIrreflexive(a[1..]);
    }
  }

  lemma {:induction false} StrLessTransitive(a: string, b: string, c: string)
    requires StrLess(a, b) && StrLess(b, c)
    ensures StrLess(a, c)
    decreases |a|
  {
    if a != [] && b != [] && c != [] && a[0] == b[0] == c[0] {
      StrLessTransitive(a[1..], b[1..], c[1..]);
    }
  }

  lemma {:induction false} StrLessTotal(a: string, b: string)
    requires a != b
    ensures StrLess(a, b) || StrLess(b, a)
    decreases |a|
  {
    if a != [] && b != [] && a[0] == b[0] {
      assert a == [a[0]] + a[1..] && b == [b[0]] + b[1..];
      StrLessTotal(a[1..], b[1..]);
    }
  }

  datatype ReadingStats = ReadingStats(
    totalStoriesStarted: int,
    totalStoriesCompleted: int,
    totalPagesRead: int,
    lastReadStory: Option<string>,
    lastReadAt: Option<string>)

  /** The statistics of an unusable storage. */
  const NoStats: ReadingStats := ReadingStats(0, 0, 0, None, None)

  /** The "completed" heuristic: `Math.max(...completedPages, -1) >= 0`. */
  predicate HasCompletedPage(p: ReadingProgress) {
    exists i :: 0 <= i < |p.completedPages| && p.completedPages[i] >= 0
  }

  function PagesRead(es: seq<Entry>): int
    decreases |es|
  {
    if es == [] then 0 else PagesRead(es[..|es| - 1]) + |es[|es| - 1].value.completedPages|
  }

  function CompletedCount(es: seq<Entry>): int
    decreases |es|
  {
    if es == [] then 0
    else CompletedCount(es[..|es| - 1]) + if HasCompletedPage(es[|es| - 1].value) then 1 else 0
  }

  /**
   * The entry the running "most recent" scan ends on: an entry replaces the
   * current one when nothing is held yet, the held time stamp is empty, or
   * its own time stamp is greater.
   */
  function Latest(es: seq<Entry>): (r: Option<nat>)
    ensures r.None? <==> es == []
    ensures r.Some? ==> r.value < |es|
    decreases |es|
  {
    if es == [] then None
    else
      var prev := Latest(es[..|es| - 1]);
      if prev.None? || es[prev.value].value.lastReadAt == ""
         || StrLess(es[prev.value].value.lastReadAt, es[|es| - 1].value.lastReadAt)
      then Some(|es| - 1)
      else prev
  }

  /** The statistics over the stored entries, in enumeration order. */
  function StatsOf(es: seq<Entry>): ReadingStats {
    var latest := Latest(es);
    ReadingStats(
      |es|, CompletedCount(es), PagesRead(es),
      if latest.Some? then Some(es[latest.value].value.storyId) else None,
      if latest.Some? then Some(es[latest.value].value.lastReadAt) else None)
  }

  /** Started stories bound completed ones; pages read are never negative. */
  lemma {:induction false} StatsBounds(es: seq<Entry>)
    ensures 0 <= CompletedCount(es) <= |es|
    ensures PagesRead(es) >= 0
    decreases |es|
  {
    if es != [] {
      StatsBounds(es[..|es| - 1]);
    }
  }

  /**
   * With non-empty time stamps, the scan ends on the first entry with the
   * greatest time stamp: no entry is later, and every earlier entry is strictly earlier.
   */
  lemma {:induction false} LatestIsFirstGreatest(es: seq<Entry>)
    requires es != []
    requires forall e :: e in es ==> e.value.lastReadAt != ""
    ensures var i := Latest(es).value;
      && (forall j :: 0 <= j < |es| ==> !StrLess(es[i].value.lastReadAt, es[j].value.lastReadAt))
      && (forall j :: 0 <= j < i ==> StrLess(es[j].value.lastReadAt, es[i].value.lastReadAt))
    decreases |es|
  {
    var n := |es|;
    var pre := es[..n - 1];
    var last := es[n - 1].value.lastReadAt;
    var i := Latest(es).value;
    if n == 1 {
      StrLessIrreflexive(last);
    } else {
      assert forall e :: e in pre ==> e in es;
      LatestIsFirstGreatest(pre);
      var p := Latest(pre).value;
      assert es[p] == pre[p];
      var held := es[p].value.lastReadAt;
      assert es[p] in es;
      if StrLess(held, last) {
        assert i == n - 1;
        StrLessIrreflexive(last);
        forall j | 0 <= j < n - 1
          ensures StrLess(es[j].value.lastReadAt, last)
        {
          var t := es[j].value.lastReadAt;
          assert es[j] == pre[j];
          if t == held {
          } else {
            StrLessTotal(t, held);
            StrLessTransitive(t, held, last);
          }
        }
        forall j | 0 <= j < n
          ensures !StrLess(last, es[j].value.lastReadAt)
        {
          if j < n - 1 {
            var t := es[j].value.lastReadAt;
            if StrLess(last, t) {
              StrLessTransitive(t, last, t);
              StrLessIrreflexive(t);
            }
          }
        }
      } else {
        assert i == p;
        forall j | 0 <= j < n
          ensures !StrLess(held, es[j].value.lastReadAt)
        {
          if j < n - 1 {
            assert es[j] == pre[j];
          }
        }
        forall j | 0 <= j < p
          ensures StrLess(es[j].value.lastReadAt, held)
        {
          assert es[j] == pre[j];
        }
      }
    }
  }

  /**
   * `getReadingStats`' accumulation over the records: count pages, count
   * records with a completed page (via the running maximum started at -1),
   * and keep the most recent record.
   */
  method ComputeStats(es: seq<Entry>) returns (stats: ReadingStats)
    ensures stats == StatsOf(es)
  {
    var totalPagesRead := 0;
    var totalStoriesCompleted := 0;
    var lastReadStory: Option<string> := None;
    var lastReadAt: Option<string> := None;
    for i := 0 to |es|
      invariant totalPagesRead == PagesRead(es[..i])
      invariant totalStoriesCompleted == CompletedCount(es[..i])
      invariant var latest := Latest(es[..i]);
        && lastReadStory == (if latest.Some? then Some(es[latest.value].value.storyId) else None)
        && lastReadAt == (if latest.Some? then Some(es[latest.value].value.lastReadAt) else None)
    {
      var progress := es[i].value;
      assert es[..i + 1][..i] == es[..i];
      totalPagesRead := totalPagesRead + |progress.completedPages|;
      var maxPageIndex := -1;
      for k := 0 to |progress.completedPages|
        invariant maxPageIndex >= -1
        invariant maxPageIndex >= 0 <==> exists j :: 0 <= j < k && progress.completedPages[j] >= 0
      {
        if progress.completedPages[k] > maxPageIndex {
          maxPageIndex := progress.completedPages[k];
        }
      }
      if maxPageIndex >= 0 {
        totalStoriesCompleted := totalStoriesCompleted + 1;
      }
      if lastReadAt.None? || lastReadAt.value == "" || StrLess(lastReadAt.value, progress.lastReadAt) {
        lastReadAt := Some(progress.lastReadAt);
        lastReadStory := Some(progress.storyId);
      }
    }
    assert es[..|es|] == es;
    stats := ReadingStats(|es|, totalStoriesCompleted, totalPagesRead, lastReadStory, lastReadAt);
  }

  /** `getReadingStats`: the statistics of the stored object, or zeros when storage is unusable. */
  method GetReadingStats(store: LocalStorage) returns (stats: ReadingStats)
    modifies store
    ensures store.available == old(store.available)
    ensures store.items == if store.available then Probed(old(store.items)) else old(store.items)
    ensures stats == if store.available then StatsOf(StoredProgress(old(store.items))) else NoStats
  {
    var ok := IsAvailable(store);
    if !ok {
      return NoStats;
    }
    var all := GetAllProgress(store);
    stats := ComputeStats(all);
  }
}
