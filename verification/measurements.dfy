/** The state behind the Measurements screen (components/Measurements.tsx):
    the editable list of current measurements and the paginated history of
    snapshots. Rendering, dialogs and spinners are not modelled; a handler that
    shows an error alert is a handler that changes nothing.

    Measurements are VALUES here. The screen itself edits a record object in
    place (`updated[index].measure = newValue`) and a history snapshot copies
    only the array of records, so in the application a later edit can also
    show up in an in-memory snapshot; this model does not share records. */
module Measurements {
  import opened Types
  import opened Wrappers
  import opened Strings
  import Storage

  /** `ITEMS_PER_PAGE`. */
  const ItemsPerPage: nat := 10

  /** The measurements shown before anything is loaded. */
  const DefaultMeasures: seq<CurrentMeasurement> := [
    CurrentMeasurement("Height", "180"),
    CurrentMeasurement("Bicep", "30"),
    CurrentMeasurement("Waist", "70")
  ]

  function Min(a: nat, b: nat): nat {
    if a <= b then a else b
  }

  // ---------------------------------------------------------------------------
  // Sorting the history newest first (`history.sort` with a descending date comparator)

  ghost predicate NewestFirst(s: seq<MeasurementEntry>) {
    forall i, j :: 0 <= i < j < |s| ==> s[i].date >= s[j].date
  }

  /** An entry at least as new as the head of a newest-first list can go in front of it. */
  lemma PrependNewest(x: MeasurementEntry, s: seq<MeasurementEntry>)
    requires NewestFirst(s)
    requires s == [] || x.date >= s[0].date
    ensures NewestFirst([x] + s)
  {
    forall i, j | 0 <= i < j < |[x] + s|
      ensures ([x] + s)[i].date >= ([x] + s)[j].date
    {
      if i == 0 && j > 1 {
        assert s[0].date >= s[j - 1].date;
      }
    }
  }

  /** Places `x` in front of the first entry that is not newer than it. */
  function InsertNewestFirst(x: MeasurementEntry, s: seq<MeasurementEntry>): (r: seq<MeasurementEntry>)
    requires NewestFirst(s)
    ensures NewestFirst(r)
    ensures multiset(r) == multiset(s) + multiset{x}
    ensures |r| == |s| + 1
    ensures r[0] == x || (s != [] && r[0] == s[0])
  {
    if s == [] || x.date >= s[0].date then
      PrependNewest(x, s);
      [x] + s
    else
      assert s == [s[0]] + s[1..];
      var rest := InsertNewestFirst(x, s[1..]);
      assert rest[0].date <= s[0].date;
      PrependNewest(s[0], rest);
      [s[0]] + rest
  }

  /** The history ordered newest first: a sorted permutation of its input
      (an insertion sort; it keeps entries of equal date in their original order). */
  function SortNewestFirst(s: seq<MeasurementEntry>): (r: seq<MeasurementEntry>)
    ensures NewestFirst(r)
    ensures multiset(r) == multiset(s)
    ensures |r| == |s|
  {
    if s == [] then []
    else
      assert s == [s[0]] + s[1..];
      InsertNewestFirst(s[0], SortNewestFirst(s[1..]))
  }

  // ---------------------------------------------------------------------------
  // List helpers

  /** `s.slice(start, end)` for non-negative bounds: out-of-range bounds are clamped. */
  function Slice<T>(s: seq<T>, start: nat, end: nat): (r: seq<T>)
    ensures start < |s| && start <= end ==> r == s[start..Min(end, |s|)]
    ensures |s| <= start || end <= start ==> r == []
  {
    var lo := Min(start, |s|);
    var hi := Min(end, |s|);
    if lo < hi then s[lo..hi] else []
  }

  /** `s.slice(0, ITEMS_PER_PAGE)`: the first page of a list. */
  function FirstPage<T>(s: seq<T>): (r: seq<T>)
    ensures r == s[..Min(ItemsPerPage, |s|)]
  {
    Slice(s, 0, ItemsPerPage)
  }

  /** `s.filter((_, i) => i !== index)`: keeps every element whose position is not `index`. */
  function Without<T>(s: seq<T>, index: int): (r: seq<T>)
    ensures |r| == if 0 <= index < |s| then |s| - 1 else |s|
    decreases |s|
  {
    if s == [] then []
    else (if index == 0 then [] else [s[0]]) + Without(s[1..], index - 1)
  }

  /** Filtering out position `index` removes exactly that element and keeps the
      others in order; filtering out a position that does not exist changes nothing. */
  lemma WithoutRemovesOne<T>(s: seq<T>, index: int)
    ensures 0 <= index < |s| ==> Without(s, index) == s[..index] + s[index + 1..]
    ensures !(0 <= index < |s|) ==> Without(s, index) == s
  {
    if 0 <= index < |s| {
      WithoutExisting(s, index);
    } else {
      WithoutMissing(s, index);
    }
  }

  /** Filtering out an existing position removes exactly that element. */
  lemma {:induction false} WithoutExisting<T>(s: seq<T>, index: int)
    requires 0 <= index < |s|
    ensures Without(s, index) == s[..index] + s[index + 1..]
    decreases |s|
  {
    if index == 0 {
      assert Without(s, 0) == Without(s[1..], -1);
      WithoutMissing(s[1..], -1);
    } else {
      WithoutExisting(s[1..], index - 1);
      assert Without(s, index) == [s[0]] + Without(s[1..], index - 1);
      assert s[..index] == [s[0]] + s[1..][..index - 1];
      assert s[index + 1..] == s[1..][index..];
    }
  }

  /** Filtering out a position that does not exist keeps every element. */
  lemma {:induction false} WithoutMissing<T>(s: seq<T>, index: int)
    requires !(0 <= index < |s|)
    ensures Without(s, index) == s
    decreases |s|
  {
    if s != [] {
      WithoutMissing(s[1..], index - 1);
      assert Without(s, index) == [s[0]] + Without(s[1..], index - 1);
      assert s == [s[0]] + s[1..];
    }
  }

  /** The check of `addMeasurement`: both fields must contain something besides
      whitespace; the stored pair is the trimmed pair. */
  function ValidateMeasurement(part: string, measure: string): (r: Option<CurrentMeasurement>)
    ensures r.None? <==> AllWhitespace(part) || AllWhitespace(measure)
    ensures r.Some? ==> r.value == CurrentMeasurement(Trim(part), Trim(measure))
    ensures r.Some? ==> !IsJsWhitespace(r.value.part[0]) && !IsJsWhitespace(r.value.measure[0])
  {
    var p, m := Trim(part), Trim(measure);
    if p == [] || m == [] then None else Some(CurrentMeasurement(p, m))
  }

  // ---------------------------------------------------------------------------
  // Pagination

  /** `displayed` is the part of `history` that `page` pages cover; "has more"
      is off only once everything is shown, and once a page is loaded it says
      exactly whether something is left. */
  ghost predicate PagesShown(history: seq<MeasurementEntry>, displayed: seq<MeasurementEntry>, page: nat, hasMore: bool) {
    && displayed == history[..Min(page * ItemsPerPage, |history|)]
    && (!hasMore ==> displayed == history)
    && (page > 0 ==> (hasMore <==> page * ItemsPerPage < |history|))
  }

  /** Showing the first page of a fresh history keeps the pagination consistent. */
  lemma FirstPageShown(history: seq<MeasurementEntry>)
    ensures PagesShown(history, FirstPage(history), 1, |history| > ItemsPerPage)
  {
  }

  // ---------------------------------------------------------------------------
  // The screen's state

  class MeasurementsScreen {
    const store: Storage.LocalStorage
    var measures: seq<CurrentMeasurement>
    var measurementHistory: seq<MeasurementEntry>
    var displayedHistory: seq<MeasurementEntry>
    var currentPage: nat
    var hasMoreData: bool
    var loadingMore: bool
    var newPart: string
    var newMeasure: string

    /** The shown history is the prefix of the whole history that the pages
        loaded so far cover; "has more" is off only once everything is shown,
        and after loading it says exactly whether something is left. */
    ghost predicate Valid()
      reads this
    {
      PagesShown(measurementHistory, displayedHistory, currentPage, hasMoreData)
    }

    /** The initial `useState` values. */
    constructor (store: Storage.LocalStorage)
      ensures Valid()
      ensures this.store == store
      ensures measures == DefaultMeasures
      ensures measurementHistory == [] && displayedHistory == []
      ensures currentPage == 0 && hasMoreData && !loadingMore
      ensures newPart == "" && newMeasure == ""
    {
      this.store := store;
      measures := DefaultMeasures;
      measurementHistory, displayedHistory := [], [];
      currentPage, hasMoreData, loadingMore := 0, true, false;
      newPart, newMeasure := "", "";
    }

    /** `loadData`: stored current measurements replace the shown ones unless
        there are none; the history is sorted newest first and its first page shown. */
    method LoadData(readCurrentFails: bool, readHistoryFails: bool)
      modifies this`measures, this`measurementHistory, this`displayedHistory, this`currentPage, this`hasMoreData
      ensures Valid()
      ensures var saved := Storage.LoadCurrentMeasurements(store.data, readCurrentFails);
              measures == if |saved| > 0 then saved else old(measures)
      ensures NewestFirst(measurementHistory)
      ensures multiset(measurementHistory) == multiset(Storage.LoadMeasurementsHistory(store.data, readHistoryFails))
      ensures |measurementHistory| == |Storage.LoadMeasurementsHistory(store.data, readHistoryFails)|
      ensures displayedHistory == measurementHistory[..Min(ItemsPerPage, |measurementHistory|)]
      ensures currentPage == 1
      ensures hasMoreData <==> |measurementHistory| > ItemsPerPage
    {
      var savedMeasurements := Storage.LoadCurrentMeasurements(store.data, readCurrentFails);
      var history := Storage.LoadMeasurementsHistory(store.data, readHistoryFails);
      var sortedHistory := SortNewestFirst(history);
      FirstPageShown(sortedHistory);
      if |savedMeasurements| > 0 {
        measures := savedMeasurements;
      }
      measurementHistory, displayedHistory := sortedHistory, FirstPage(sortedHistory);
      currentPage, hasMoreData := 1, |sortedHistory| > ItemsPerPage;
    }

    /** `onRefresh`: the same load again. */
    method OnRefresh(readCurrentFails: bool, readHistoryFails: bool)
      modifies this`measures, this`measurementHistory, this`displayedHistory, this`currentPage, this`hasMoreData
      ensures Valid()
      ensures var saved := Storage.LoadCurrentMeasurements(store.data, readCurrentFails);
              measures == if |saved| > 0 then saved else old(measures)
      ensures NewestFirst(measurementHistory)
      ensures multiset(measurementHistory) == multiset(Storage.LoadMeasurementsHistory(store.data, readHistoryFails))
      ensures |measurementHistory| == |Storage.LoadMeasurementsHistory(store.data, readHistoryFails)|
      ensures displayedHistory == measurementHistory[..Min(ItemsPerPage, |measurementHistory|)]
      ensures currentPage == 1
      ensures hasMoreData <==> |measurementHistory| > ItemsPerPage
    {
      LoadData(readCurrentFails, readHistoryFails);
    }

    /** `loadMoreData`, up to the timer it starts: nothing happens while a page
        is in flight or when nothing is left; otherwise a page is now in flight. */
    method LoadMoreData()
      modifies this`loadingMore
      ensures loadingMore == (old(loadingMore) || old(hasMoreData))
    {
      if loadingMore || !hasMoreData {
        return;
      }
      loadingMore := true;
    }

    /** The timer callback of `loadMoreData`, which exists only once that
        handler has put a page in flight: append the next page, if any. */
    method FinishLoadMore()
      requires Valid() && loadingMore
      modifies this`displayedHistory, this`currentPage, this`hasMoreData, this`loadingMore
      ensures Valid()
      ensures var start := old(currentPage) * ItemsPerPage;
              var n := |measurementHistory|;
              if start < n then
                && displayedHistory == old(displayedHistory) + measurementHistory[start..Min(start + ItemsPerPage, n)]
                && currentPage == old(currentPage) + 1
                && hasMoreData == (start + ItemsPerPage < n)
              else
                && displayedHistory == old(displayedHistory)
                && currentPage == old(currentPage)
                && !hasMoreData
      ensures displayedHistory == measurementHistory[..Min(currentPage * ItemsPerPage, |measurementHistory|)]
      ensures !loadingMore
    {
      var startIndex := currentPage * ItemsPerPage;
      var endIndex := startIndex + ItemsPerPage;
      var moreItems := Slice(measurementHistory, startIndex, endIndex);
      if |moreItems| > 0 {
        ghost var h := measurementHistory;
        assert h[..startIndex] + h[startIndex..Min(endIndex, |h|)] == h[..Min(endIndex, |h|)];
        displayedHistory := displayedHistory + moreItems;
        currentPage := currentPage + 1;
        hasMoreData := endIndex < |measurementHistory|;
      } else {
        hasMoreData := false;
      }
      loadingMore := false;
    }

    /** The text field of the new body part (`setNewPart`). */
    method SetNewPart(text: string)
      modifies this`newPart
      ensures newPart == text
    {
      newPart := text;
    }

    /** The text field of the new value (`setNewMeasure`). */
    method SetNewMeasure(text: string)
      modifies this`newMeasure
      ensures newMeasure == text
    {
      newMeasure := text;
    }

    /** `updateMeasure`: entry `index` takes the new value and the list is saved.
        An index with no entry makes the assignment throw: nothing changes. */
    method UpdateMeasure(index: int, newValue: string, writeFails: bool)
      requires Valid()
      modifies this, store
      ensures Valid()
      ensures if 0 <= index < |old(measures)| then
                && |measures| == |old(measures)|
                && measures[index] == CurrentMeasurement(old(measures)[index].part, newValue)
                && (forall j :: 0 <= j < |measures| && j != index ==> measures[j] == old(measures)[j])
                && store.data == if writeFails then old(store.data)
                                 else old(store.data)[Storage.CurrentMeasurementsKey := Storage.CurrentList(measures)]
              else
                measures == old(measures) && store.data == old(store.data)
      ensures measurementHistory == old(measurementHistory) && displayedHistory == old(displayedHistory)
      ensures currentPage == old(currentPage) && hasMoreData == old(hasMoreData) && loadingMore == old(loadingMore)
      ensures newPart == old(newPart) && newMeasure == old(newMeasure)
    {
      if !(0 <= index < |measures|) {
        return;
      }
      var updated := measures[index := CurrentMeasurement(measures[index].part, newValue)];
      measures := updated;
      store.SaveCurrentMeasurements(updated, writeFails);
    }

    /** `addMeasurement`: a blank field is rejected and nothing changes; otherwise
        the trimmed pair is appended, the list saved and the form cleared. */
    method AddMeasurement(writeFails: bool)
      requires Valid()
      modifies this, store
      ensures Valid()
      ensures match ValidateMeasurement(old(newPart), old(newMeasure))
              case None =>
                && measures == old(measures) && store.data == old(store.data)
                && newPart == old(newPart) && newMeasure == old(newMeasure)
              case Some(pair) =>
                && measures == old(measures) + [pair]
                && store.data == (if writeFails then old(store.data)
                                  else old(store.data)[Storage.CurrentMeasurementsKey := Storage.CurrentList(measures)])
                && newPart == "" && newMeasure == ""
      ensures measurementHistory == old(measurementHistory) && displayedHistory == old(displayedHistory)
      ensures currentPage == old(currentPage) && hasMoreData == old(hasMoreData) && loadingMore == old(loadingMore)
    {
      var pair := ValidateMeasurement(newPart, newMeasure);
      if pair.None? {
        return;
      }
      var updated := measures + [pair.value];
      measures := updated;
      store.SaveCurrentMeasurements(updated, writeFails);
      newPart := "";
      newMeasure := "";
    }

    /** `deleteMeasurement`, confirmed: entry `index` is filtered out and the list
        saved. An index with no entry makes the confirmation message throw: nothing changes. */
    method DeleteMeasurement(index: int, writeFails: bool)
      requires Valid()
      modifies this, store
      ensures Valid()
      ensures if 0 <= index < |old(measures)| then
                && measures == Without(old(measures), index)
                && measures == old(measures)[..index] + old(measures)[index + 1..]
                && store.data == if writeFails then old(store.data)
                                 else old(store.data)[Storage.CurrentMeasurementsKey := Storage.CurrentList(measures)]
              else
                measures == old(measures) && store.data == old(store.data)
      ensures measurementHistory == old(measurementHistory) && displayedHistory == old(displayedHistory)
      ensures currentPage == old(currentPage) && hasMoreData == old(hasMoreData) && loadingMore == old(loadingMore)
      ensures newPart == old(newPart) && newMeasure == old(newMeasure)
    {
      if !(0 <= index < |measures|) {
        return;
      }
      var updated := Without(measures, index);
      WithoutRemovesOne(measures, index);
      measures := updated;
      store.SaveCurrentMeasurements(updated, writeFails);
    }

    /** `saveMeasurementsToHistory`: a snapshot of the current measurements, dated
        `now` and with id `now` in decimal, goes in front of the history, which is
        saved; the display goes back to the first page. */
    method SaveMeasurementsToHistory(now: nat, writeFails: bool)
      requires Valid()
      modifies this, store
      ensures Valid()
      ensures measurementHistory == [MeasurementEntry(NatToString(now), now, measures)] + old(measurementHistory)
      ensures displayedHistory == measurementHistory[..Min(ItemsPerPage, |measurementHistory|)]
      ensures currentPage == 1
      ensures hasMoreData <==> |measurementHistory| > ItemsPerPage
      ensures store.data == if writeFails then old(store.data)
                            else old(store.data)[Storage.MeasurementsHistoryKey := Storage.HistoryList(measurementHistory)]
      ensures measures == old(measures) && loadingMore == old(loadingMore)
      ensures newPart == old(newPart) && newMeasure == old(newMeasure)
    {
      var newEntry := MeasurementEntry(NatToString(now), now, measures);
      var updatedHistory := [newEntry] + measurementHistory;
      store.SaveMeasurementsHistory(updatedHistory, writeFails);
      measurementHistory := updatedHistory;
      displayedHistory := FirstPage(updatedHistory);
      currentPage := 1;
      hasMoreData := |updatedHistory| > ItemsPerPage;
      FirstPageShown(updatedHistory);
    }

    /** `clearHistory`, confirmed: an empty history is saved and nothing is shown. */
    method ClearHistory(writeFails: bool)
      requires Valid()
      modifies this, store
      ensures Valid()
      ensures measurementHistory == [] && displayedHistory == []
      ensures currentPage == 0 && !hasMoreData
      ensures store.data == if writeFails then old(store.data)
                            else old(store.data)[Storage.MeasurementsHistoryKey := Storage.HistoryList([])]
      ensures measures == old(measures) && loadingMore == old(loadingMore)
      ensures newPart == old(newPart) && newMeasure == old(newMeasure)
    {
      store.SaveMeasurementsHistory([], writeFails);
      measurementHistory := [];
      displayedHistory := [];
      currentPage := 0;
      hasMoreData := false;
    }
  }

  /** A stored history of 25 snapshots: the first page shows 10, two further
      pages show 20 and then all 25 with nothing left, and a third request does nothing. */
  method PaginationOfTwentyFive(history: seq<MeasurementEntry>) returns (shown: seq<nat>, more: bool)
    requires |history| == 25
    ensures shown == [10, 20, 25, 25]
    ensures !more
  {
    var store := new Storage.LocalStorage(map[Storage.MeasurementsHistoryKey := Storage.HistoryList(history)]);
    var screen := new MeasurementsScreen(store);
    screen.LoadData(false, false);
    shown := [|screen.displayedHistory|];
    screen.LoadMoreData();
    screen.FinishLoadMore();
    shown := shown + [|screen.displayedHistory|];
    screen.LoadMoreData();
    screen.FinishLoadMore();
    shown := shown + [|screen.displayedHistory|];
    screen.LoadMoreData();
    assert !screen.loadingMore;
    shown := shown + [|screen.displayedHistory|];
    more := screen.hasMoreData;
  }
}
