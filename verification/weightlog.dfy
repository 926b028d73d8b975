/** The state behind the Weight Log screen (components/WeightLog.tsx): the list
    of readings in insertion order, the values derived from it, the validation
    of a new reading and the clear operation. Weights are reals; parsing
    (`parseFloat`) is supplied as its result and number formatting (`toFixed`)
    is not modelled. */
module WeightLog {
  import opened Types
  import opened Wrappers
  import opened Strings
  import Storage

  /** The reading shown when nothing is stored yet. */
  const DefaultWeight: real := 80.0

  /** Colours of the change indicator. */
  const Grey := "#666"
  const Red := "#ff4444"
  const Green := "#44aa44"

  /** `currentWeight`: the latest reading in insertion order, 0 when there is none. */
  function CurrentWeight(entries: seq<WeightEntry>): (w: real)
    ensures entries == [] ==> w == 0.0
    ensures entries != [] ==> w == entries[|entries| - 1].weight
  {
    if |entries| == 0 then 0.0 else entries[|entries| - 1].weight
  }

  /** `previousWeight`: the reading before the latest one, if there are two. */
  function PreviousWeight(entries: seq<WeightEntry>): (w: Option<real>)
    ensures w.Some? <==> |entries| >= 2
    ensures w.Some? ==> w.value == entries[|entries| - 2].weight
  {
    if |entries| > 1 then Some(entries[|entries| - 2].weight) else None
  }

  /** `weightChange`: latest minus previous, absent when there is no previous
      reading or it is 0 (a falsy number). */
  function WeightChange(entries: seq<WeightEntry>): (c: Option<real>)
    ensures c.Some? <==> PreviousWeight(entries).Some? && PreviousWeight(entries).value != 0.0
    ensures c.Some? ==> c.value + PreviousWeight(entries).value == CurrentWeight(entries)
  {
    match PreviousWeight(entries)
    case Some(p) => if p != 0.0 then Some(CurrentWeight(entries) - p) else None
    case None => None
  }

  /** After a reading is appended it is the current one, and the former current
      one becomes the previous one. */
  lemma AppendShiftsReadings(entries: seq<WeightEntry>, e: WeightEntry)
    ensures CurrentWeight(entries + [e]) == e.weight
    ensures PreviousWeight(entries + [e]) == if entries == [] then None else Some(CurrentWeight(entries))
  {
  }

  /** The text beside the current weight: nothing, or a sign followed by the
      change (rendered as `toFixed(1)` and " kg"). */
  datatype ChangeText = NoText | Shown(sign: string, amount: real)

  /** `getChangeText`: no text for an absent or zero change, "+" in front of a
      gain and no sign of its own in front of a loss (the number carries its minus). */
  function GetChangeText(change: Option<real>): (t: ChangeText)
    ensures t.NoText? <==> change.None? || change.value == 0.0
    ensures t.Shown? ==> t.amount == change.value
    ensures t.Shown? ==> (t.sign == "+" <==> t.amount > 0.0) && (t.sign == "" <==> t.amount < 0.0)
  {
    match change
    case None => NoText
    case Some(c) => if c == 0.0 then NoText else Shown(if c > 0.0 then "+" else "", c)
  }

  /** `getChangeColor`: grey for no change, red for a gain, green for a loss. */
  function GetChangeColor(change: Option<real>): (colour: string)
    ensures colour == Grey <==> change.None? || change.value == 0.0
    ensures colour == Red <==> change.Some? && change.value > 0.0
    ensures colour == Green <==> change.Some? && change.value < 0.0
  {
    match change
    case None => Grey
    case Some(c) => if c == 0.0 then Grey else if c > 0.0 then Red else Green
  }

  /** The colour and the text always agree: red exactly when a "+" is shown,
      green exactly when a loss is shown, grey exactly when nothing is. */
  lemma ColourMatchesText(change: Option<real>)
    ensures GetChangeColor(change) == Grey <==> GetChangeText(change) == NoText
    ensures GetChangeColor(change) == Red <==> GetChangeText(change).Shown? && GetChangeText(change).sign == "+"
    ensures GetChangeColor(change) == Green <==> GetChangeText(change).Shown? && GetChangeText(change).sign == ""
  {
  }

  /** Readings of 80 and then 82.5 show "+2.5 kg" in red. */
  lemma ChangeOfEightyToEightyTwoAndAHalf(a: WeightEntry, b: WeightEntry)
    requires a.weight == 80.0 && b.weight == 82.5
    ensures WeightChange([a, b]) == Some(2.5)
    ensures GetChangeText(WeightChange([a, b])) == Shown("+", 2.5)
    ensures GetChangeColor(WeightChange([a, b])) == Red
  {
  }

  /** Why `handleSaveWeight` rejects an input. */
  datatype WeightError = EmptyInput | NotANumber | NotPositive

  /** The checks of `handleSaveWeight`, in order: something besides whitespace,
      a number (`parsed` is `parseFloat(input)`, `None` for NaN), greater than 0. */
  function ValidateWeight(input: string, parsed: Option<real>): (r: Result<real, WeightError>)
    ensures r.Ok? <==> !AllWhitespace(input) && parsed.Some? && parsed.value > 0.0
    ensures r.Ok? ==> r.value == parsed.value
    ensures r == Err(EmptyInput) <==> AllWhitespace(input)
    ensures r == Err(NotANumber) <==> !AllWhitespace(input) && parsed.None?
    ensures r == Err(NotPositive) <==> !AllWhitespace(input) && parsed.Some? && parsed.value <= 0.0
  {
    if Trim(input) == [] then Err(EmptyInput)
    else if parsed.None? then Err(NotANumber)
    else if parsed.value <= 0.0 then Err(NotPositive)
    else Ok(parsed.value)
  }

  /** `[...entries].reverse()`: the order in which the history is listed. */
  function Reversed(entries: seq<WeightEntry>): (r: seq<WeightEntry>)
    ensures |r| == |entries|
  {
    if entries == [] then [] else Reversed(entries[1..]) + [entries[0]]
  }

  /** The history is listed newest entry first: position k shows the k-th reading from the end,
      so the top of the list is the current weight. */
  lemma {:induction false} ReversedAt(entries: seq<WeightEntry>, k: nat)
    requires k < |entries|
    ensures Reversed(entries)[k] == entries[|entries| - 1 - k]
    ensures Reversed(entries)[0].weight == CurrentWeight(entries)
  {
    if k < |entries| - 1 {
      ReversedAt(entries[1..], k);
    }
    if |entries| > 1 {
      ReversedAt(entries[1..], 0);
    }
  }

  class WeightLogScreen {
    const store: Storage.LocalStorage
    var weightEntries: seq<WeightEntry>
    var inputValue: string
    var modalVisible: bool

    /** The initial `useState` values. */
    constructor (store: Storage.LocalStorage)
      ensures this.store == store
      ensures weightEntries == [] && inputValue == "" && !modalVisible
    {
      this.store := store;
      weightEntries := [];
      inputValue := "";
      modalVisible := false;
    }

    /** The load on mount: the stored history, or a single default reading of 80
        dated `now` when none is stored (that reading is not saved). */
    method LoadData(now: nat, readFails: bool)
      modifies this`weightEntries
      ensures var saved := Storage.LoadWeightHistory(store.data, readFails);
              weightEntries == if |saved| > 0 then saved
                               else [WeightEntry(NatToString(now), now, DefaultWeight)]
      ensures CurrentWeight(weightEntries) > 0.0 || |Storage.LoadWeightHistory(store.data, readFails)| > 0
    {
      var savedHistory := Storage.LoadWeightHistory(store.data, readFails);
      if |savedHistory| > 0 {
        weightEntries := savedHistory;
      } else {
        weightEntries := [WeightEntry(NatToString(now), now, DefaultWeight)];
      }
    }

    /** The text field of the dialog (`setInputValue`). */
    method SetInputValue(text: string)
      modifies this`inputValue
      ensures inputValue == text
    {
      inputValue := text;
    }

    /** `handleSaveWeight`: a rejected input changes nothing; an accepted one is
        appended, dated `now` with id `now` in decimal, to the local list and to
        the stored history, and the dialog closes. */
    method HandleSaveWeight(parsed: Option<real>, now: nat, readFails: bool, writeFails: bool)
      modifies this, store
      ensures match ValidateWeight(old(inputValue), parsed)
              case Err(_) =>
                && weightEntries == old(weightEntries) && store.data == old(store.data)
                && inputValue == old(inputValue) && modalVisible == old(modalVisible)
              case Ok(w) =>
                var entry := WeightEntry(NatToString(now), now, w);
                && weightEntries == old(weightEntries) + [entry]
                && CurrentWeight(weightEntries) == w
                && store.data == (if writeFails then old(store.data)
                                  else old(store.data)[Storage.WeightHistoryKey :=
                                         Storage.WeightList(Storage.LoadWeightHistory(old(store.data), readFails) + [entry])])
                && inputValue == "" && !modalVisible
    {
      var checked := ValidateWeight(inputValue, parsed);
      if checked.Err? {
        return;
      }
      var newEntry := WeightEntry(NatToString(now), now, checked.value);
      var updatedEntries := weightEntries + [newEntry];
      weightEntries := updatedEntries;
      store.AddWeightEntry(newEntry, readFails, writeFails);
      inputValue := "";
      modalVisible := false;
    }

    /** `clearAllWeights`, confirmed: the local list is emptied, and so is the stored
        history unless the write fails. */
    method ClearAllWeights(writeFails: bool)
      modifies this`weightEntries, store
      ensures weightEntries == []
      ensures CurrentWeight(weightEntries) == 0.0 && WeightChange(weightEntries).None?
      ensures store.data == if writeFails then old(store.data)
                            else old(store.data)[Storage.WeightHistoryKey := Storage.WeightList([])]
    {
      weightEntries := [];
      store.SaveWeightHistory([], writeFails);
    }
  }
}
