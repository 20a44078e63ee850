/** The answer-key editor: the items laid out in one to three columns, the
    stored key normalised to the number of items, and the editor's state
    (`answers`, `lastSaved`, edit mode) changed by its four handlers. */
module AnswerKey {
  import opened Common
  import opened JsText

  // ---------------------------------------------------------------------------
  // When the editor renders

  /** The editor renders only with exam data whose item and choice counts parse
      to numbers of at least 1 (`NaN` and 0 are false in the guard). */
  predicate ShouldRender(hasExamData: bool, numItemsText: string, numChoicesText: string)
  {
    var numItems := ParseInt(numItemsText);
    var numChoices := ParseInt(numChoicesText);
    hasExamData && numItems.Some? && numChoices.Some? && numItems.value >= 1 && numChoices.value >= 1
  }

  /** For counts written as decimal numerals the guard is exactly "both at least 1". */
  lemma RendersDecimalCounts(numItems: nat, numChoices: nat)
    ensures ShouldRender(true, DecimalString(numItems), DecimalString(numChoices)) <==> numItems >= 1 && numChoices >= 1
  {
    ParseIntDecimal(numItems);
    ParseIntDecimal(numChoices);
  }

  /** Text that does not start with a digit after white space and a sign renders nothing. */
  lemma NoDigitsNoRender(numItemsText: string, numChoicesText: string)
    requires LeadingDigits(SignFree(TrimStart(numItemsText))) == []
    ensures !ShouldRender(true, numItemsText, numChoicesText)
  {
  }

  /** The answer letters the editor offers: the first `numChoices` of A..F. */
  function Choices(numChoices: int): (c: seq<char>)
    requires numChoices >= 1
    ensures |c| == Min(numChoices, |ChoiceLetters|) && c == ChoiceLetters[..|c|]
  {
    PrefixSlice(ChoiceLetters, numChoices)
  }

  // ---------------------------------------------------------------------------
  // Columns

  /** One column up to 10 items, two up to 20, three beyond. */
  function NumCols(numItems: int): (k: nat)
    ensures 1 <= k <= 3
    ensures k == 1 <==> numItems <= 10
    ensures k == 3 <==> numItems > 20
  {
    if numItems <= 10 then 1 else if numItems <= 20 then 2 else 3
  }

  /** The column builder: consecutive runs of item indices, the first
      `numItems % numCols` columns one item longer than the others. */
  method BuildColumns(numItems: int) returns (columns: seq<seq<int>>)
    requires numItems >= 1
    ensures |columns| == NumCols(numItems)
    ensures Flatten(columns) == Range(0, numItems)
    ensures forall k :: 0 <= k < |columns| ==>
              |columns[k]| == numItems / |columns| + (if k < numItems % |columns| then 1 else 0)
  {
    var numCols := NumCols(numItems);
    var baseRows := numItems / numCols;
    var extra := numItems % numCols;
    assert baseRows >= 0;
    columns := [];
    var start := 0;
    for colIdx := 0 to numCols
      invariant |columns| == colIdx
      invariant start == ColumnStart(colIdx, baseRows, extra)
      invariant Flatten(columns) == Range(0, start)
      invariant forall k :: 0 <= k < colIdx ==> |columns[k]| == baseRows + (if k < extra then 1 else 0)
    {
      var count := baseRows + (if colIdx < extra then 1 else 0);
      var col := Range(start, start + count);
      assert |col| == count;
      FlattenAppend(columns, col);
      RangeAppend(0, start, start + count);
      columns := columns + [col];
      assert columns[colIdx] == col;
      start := start + count;
    }
    ColumnStartEnd(numItems, numCols);
  }

  /** Where column `k` starts: the lengths of the columns before it, added up. */
  function ColumnStart(k: nat, baseRows: nat, extra: nat): nat
  {
    if k == 0 then 0 else ColumnStart(k - 1, baseRows, extra) + baseRows + (if k - 1 < extra then 1 else 0)
  }

  lemma {:induction false} ColumnStartClosed(k: nat, baseRows: nat, extra: nat)
    ensures ColumnStart(k, baseRows, extra) == k * baseRows + Min(k, extra)
  {
    if k > 0 {
      ColumnStartClosed(k - 1, baseRows, extra);
      MulSucc(k - 1, baseRows);
    }
  }

  lemma MulSucc(k: int, b: int)
    ensures (k + 1) * b == k * b + b
  {
  }

  /** The columns together hold every item. */
  lemma ColumnStartEnd(numItems: int, numCols: nat)
    requires numItems >= 1 && numCols > 0
    ensures ColumnStart(numCols, numItems / numCols, numItems % numCols) == numItems
  {
    var q, r := numItems / numCols, numItems % numCols;
    assert numCols * q + r == numItems;
    assert Min(numCols, r) == r;
    ColumnStartClosed(numCols, q, r);
  }

  /** No column is empty: even the shorter columns hold at least one item. */
  lemma ColumnsNonEmpty(numItems: int)
    requires numItems >= 1
    ensures numItems / NumCols(numItems) >= 1
  {
  }

  // ---------------------------------------------------------------------------
  // The stored key

  /** The state's first value: the stored key when it is an array of exactly
      `n` entries, otherwise `n` empty entries. */
  function InitialKey(stored: Option<seq<Option<char>>>, n: nat): (r: seq<Option<char>>)
    ensures |r| == n
    ensures stored.Some? && |stored.value| == n ==> r == stored.value
    ensures !(stored.Some? && |stored.value| == n) ==> forall i :: 0 <= i < n ==> r[i].None?
  {
    if stored.Some? && |stored.value| == n then stored.value else seq(n, _ => None)
  }

  /** The reload effect: the stored key cut or padded with empty entries to `n`
      entries, or `n` empty entries when nothing is stored. */
  function Normalize(stored: Option<seq<Option<char>>>, n: nat): (r: seq<Option<char>>)
    ensures |r| == n
    ensures stored.Some? ==> forall i :: 0 <= i < Min(n, |stored.value|) ==> r[i] == stored.value[i]
    ensures forall i :: 0 <= i < n && (stored.None? || i >= |stored.value|) ==> r[i].None?
  {
    if stored.None? then seq(n, _ => None)
    else
      var s := stored.value;
      if |s| == n then s
      else if |s| > n then s[..n]
      else s + seq(n - |s|, _ => None)
  }

  /** A key of the right length reloads as itself. */
  lemma NormalizeExact(key: seq<Option<char>>)
    ensures Normalize(Some(key), |key|) == key
  {
  }

  /** Normalising twice is normalising once. */
  lemma NormalizeIdempotent(stored: Option<seq<Option<char>>>, n: nat)
    ensures Normalize(Some(Normalize(stored, n)), n) == Normalize(stored, n)
  {
  }

  /** The first value and the reloaded value agree unless a key of another
      length is stored; then the first shows no answers and the reload keeps
      the common prefix. */
  lemma InitialMatchesReload(stored: Option<seq<Option<char>>>, n: nat)
    requires stored.None? || |stored.value| == n
    ensures InitialKey(stored, n) == Normalize(stored, n)
  {
  }

  /** Every item has an answer. */
  predicate AllAnswered(answers: seq<Option<char>>, n: int)
  {
    |answers| == n && forall i :: 0 <= i < |answers| ==> answers[i].Some?
  }

  /** `!lastSaved.every((v, i) => v === answers[i])`: some saved position is not
      matched by the answer at that position (a missing answer never matches). */
  predicate IsEdited(lastSaved: seq<Option<char>>, answers: seq<Option<char>>)
  {
    exists i :: 0 <= i < |lastSaved| && !(i < |answers| && lastSaved[i] == answers[i])
  }

  /** For keys of equal length, edited means different. */
  lemma EditedIffDifferent(lastSaved: seq<Option<char>>, answers: seq<Option<char>>)
    requires |lastSaved| == |answers|
    ensures IsEdited(lastSaved, answers) <==> lastSaved != answers
  {
    if lastSaved != answers {
      var i :| 0 <= i < |lastSaved| && lastSaved[i] != answers[i];
    }
  }

  /** Only the saved positions are compared: answers that extend the saved key are not edits. */
  lemma ExtensionIsNotEdit(lastSaved: seq<Option<char>>, more: seq<Option<char>>)
    ensures !IsEdited(lastSaved, lastSaved + more)
  {
  }

  // ---------------------------------------------------------------------------
  // The editor

  class AnswerKeyEditor {
    const numItems: nat
    var answers: seq<Option<char>>
    var lastSaved: seq<Option<char>>
    var editMode: bool
    /** The "Saved!" flash. */
    var saved: bool
    /** The key kept in storage for this sheet. */
    var stored: Option<seq<Option<char>>>

    ghost predicate Valid()
      reads this
    {
      |answers| == numItems && |lastSaved| == numItems
    }

    constructor (n: nat, storedKey: Option<seq<Option<char>>>)
      requires n >= 1
      ensures Valid()
      ensures numItems == n && stored == storedKey
      ensures answers == InitialKey(storedKey, n) && lastSaved == InitialKey(storedKey, n)
      ensures !editMode && !saved
    {
      numItems := n;
      stored := storedKey;
      answers := InitialKey(storedKey, n);
      lastSaved := InitialKey(storedKey, n);
      editMode := false;
      saved := false;
    }

    /** The reload effect: both keys become the normalised stored key and edit mode ends. */
    method Reload()
      modifies this
      ensures Valid()
      ensures answers == Normalize(stored, numItems) && lastSaved == answers
      ensures !editMode && !IsEdited(lastSaved, answers)
      ensures saved == old(saved) && stored == old(stored)
    {
      answers := Normalize(stored, numItems);
      lastSaved := Normalize(stored, numItems);
      editMode := false;
    }

    /** `handleEdit`: enters edit mode and changes nothing else. */
    method Edit()
      modifies this
      ensures editMode
      ensures answers == old(answers) && lastSaved == old(lastSaved)
      ensures saved == old(saved) && stored == old(stored)
    {
      editMode := true;
    }

    /** `handleCancel`: the answers go back to the last saved key and edit mode ends. */
    method Cancel()
      requires Valid()
      modifies this
      ensures Valid()
      ensures answers == old(lastSaved) && lastSaved == old(lastSaved) && !editMode
      ensures !IsEdited(lastSaved, answers)
      ensures saved == old(saved) && stored == old(stored)
    {
      answers := lastSaved;
      editMode := false;
    }

    /** `handleSave`: with every item answered, stores the answers, makes them the
        last saved key, raises the flash and ends edit mode; otherwise nothing happens. */
    method Save()
      requires Valid()
      modifies this
      ensures Valid()
      ensures !old(AllAnswered(answers, numItems)) ==>
                && answers == old(answers) && lastSaved == old(lastSaved) && editMode == old(editMode)
                && saved == old(saved) && stored == old(stored)
      ensures old(AllAnswered(answers, numItems)) ==>
                && answers == old(answers) && lastSaved == old(answers) && stored == Some(old(answers))
                && saved && !editMode
                && Normalize(stored, numItems) == answers
                && !IsEdited(lastSaved, answers)
    {
      if !AllAnswered(answers, numItems) {
        return;
      }
      stored := Some(answers);
      lastSaved := answers;
      saved := true;
      editMode := false;
      NormalizeExact(answers);
    }

    /** The flash timer running out. */
    method FlashElapsed()
      modifies this
      ensures !saved
      ensures answers == old(answers) && lastSaved == old(lastSaved)
      ensures editMode == old(editMode) && stored == old(stored)
    {
      saved := false;
    }

    /** `handleSelect`: outside edit mode nothing happens; in edit mode only the
        answer of item `idx` changes. */
    method Select(idx: int, choice: char)
      requires Valid() && 0 <= idx < numItems
      modifies this
      ensures Valid()
      ensures !old(editMode) ==> answers == old(answers)
      ensures old(editMode) ==> answers == old(answers)[idx := Some(choice)]
      ensures lastSaved == old(lastSaved) && editMode == old(editMode)
      ensures saved == old(saved) && stored == old(stored)
    {
      if !editMode {
        return;
      }
      var next := answers;
      next := next[idx := Some(choice)];
      answers := next;
    }

    /** The editor's one button: "Edit" outside edit mode; in edit mode "Save"
        when the answers differ from the saved key, else "Cancel". A disabled
        Save (edited but not all answered) does nothing, as Save itself would. */
    method Primary()
      requires Valid()
      modifies this
      ensures Valid()
      ensures !old(editMode) ==>
                && editMode && answers == old(answers) && lastSaved == old(lastSaved)
                && saved == old(saved) && stored == old(stored)
      ensures old(editMode) && !old(IsEdited(lastSaved, answers)) ==>
                && !editMode && answers == old(lastSaved) && lastSaved == old(lastSaved)
                && saved == old(saved) && stored == old(stored)
      ensures old(editMode) && old(IsEdited(lastSaved, answers)) && old(AllAnswered(answers, numItems)) ==>
                && !editMode && answers == old(answers) && lastSaved == old(answers)
                && stored == Some(old(answers)) && saved
      ensures old(editMode) && old(IsEdited(lastSaved, answers)) && !old(AllAnswered(answers, numItems)) ==>
                && editMode && answers == old(answers) && lastSaved == old(lastSaved)
                && saved == old(saved) && stored == old(stored)
    {
      if editMode {
        if IsEdited(lastSaved, answers) {
          if AllAnswered(answers, numItems) {
            Save();
          }
        } else {
          Cancel();
        }
      } else {
        Edit();
      }
    }
  }
}
