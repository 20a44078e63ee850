/** The recogniser and scorer of the upload page: bubble rectangles are kept by
    shape, sorted into reading order, grouped into rows by their y coordinate,
    the darkest bubble of each full row is the detected answer, and the
    detected answers are compared with the stored answer key. The page also
    filters the files it is given to images and PDFs. */
module Upload {
  import opened Common
  import opened Selection
  import Sorting
  import opened JsText

  /** The page assumes 50 questions of four choices each. */
  const NumQuestions: nat := 50
  const NumChoices: nat := 4

  /** Bubbles whose y coordinates differ by less than this belong to one row. */
  const RowTolerance: int := 20

  /** The placeholder for "no answer" on either side of a comparison. */
  const Dash: char := '-'

  // ---------------------------------------------------------------------------
  // Bubble candidates and reading order

  /** A bounding rectangle is taken for a bubble when it is roughly square and
      neither too small nor too large. */
  predicate IsBubbleShaped(r: Rect)
  {
    r.w > 15 && r.w < 50 && Abs(r.w - r.h) < 10
  }

  /** The contour loop: the bounding rectangles that look like bubbles, in contour order. */
  method CollectBubbles(rects: seq<Rect>) returns (bubbles: seq<Rect>)
    ensures bubbles == Filter(rects, IsBubbleShaped)
    ensures forall b :: b in bubbles <==> b in rects && IsBubbleShaped(b)
  {
    bubbles := [];
    for i := 0 to |rects|
      invariant bubbles == Filter(rects[..i], IsBubbleShaped)
    {
      FilterStep(rects, i, IsBubbleShaped);
      var rect := rects[i];
      if IsBubbleShaped(rect) {
        bubbles := bubbles + [rect];
      }
    }
    assert rects[..|rects|] == rects;
  }

  /** Top to bottom, then left to right. */
  function ReadingKey(r: Rect): (int, int) { (r.y, r.x) }

  /** The sorted bubble list: a permutation of the candidates in reading order. */
  function ReadingOrder(bubbles: seq<Rect>): (s: seq<Rect>)
    ensures multiset(s) == multiset(bubbles)
    ensures forall i, j :: 0 <= i < j < |s| ==> s[i].y < s[j].y || (s[i].y == s[j].y && s[i].x <= s[j].x)
  {
    var s := Sorting.SortByKey(bubbles, ReadingKey);
    assert forall i, j :: 0 <= i < j < |s| ==> Sorting.KeyLe(ReadingKey(s[i]), ReadingKey(s[j]));
    s
  }

  // ---------------------------------------------------------------------------
  // Row grouping

  function Last<T>(s: seq<T>): T
    requires |s| > 0
  {
    s[|s| - 1]
  }

  /** Neighbouring bubbles of a row are within the row tolerance of each other in y. */
  predicate RowCohesive(row: seq<Rect>)
  {
    forall j :: 0 < j < |row| ==> Abs(row[j].y - row[j - 1].y) < RowTolerance
  }

  /** A row break: the first bubble of a row is at least the tolerance away from
      the last bubble of the previous row. */
  predicate RowsSeparated(rows: seq<seq<Rect>>)
  {
    forall k :: 0 < k < |rows| && |rows[k]| > 0 && |rows[k - 1]| > 0 ==>
      Abs(rows[k][0].y - Last(rows[k - 1]).y) >= RowTolerance
  }

  /** `rows` splits `bubbles` into non-empty runs, each run cohesive, breaking
      exactly where the y distance to the previous bubble reaches the tolerance. */
  predicate IsRowSplit(bubbles: seq<Rect>, rows: seq<seq<Rect>>)
  {
    && Flatten(rows) == bubbles
    && (forall k :: 0 <= k < |rows| ==> |rows[k]| > 0)
    && (forall k :: 0 <= k < |rows| ==> RowCohesive(rows[k]))
    && RowsSeparated(rows)
  }

  /** The state of the grouping loop after a prefix of the bubbles: the closed
      rows and the open row together are a row split of the prefix, except that
      the open row may still be empty. */
  predicate GroupingState(prefix: seq<Rect>, rows: seq<seq<Rect>>, currentRow: seq<Rect>)
  {
    && Flatten(rows) + currentRow == prefix
    && (forall k :: 0 <= k < |rows| ==> |rows[k]| > 0)
    && (forall k :: 0 <= k < |rows| ==> RowCohesive(rows[k]))
    && RowCohesive(currentRow)
    && RowsSeparated(rows + [currentRow])
  }

  /** A bubble close enough to the open row (or the very first bubble) joins it. */
  lemma JoinRow(prefix: seq<Rect>, rows: seq<seq<Rect>>, currentRow: seq<Rect>, rect: Rect)
    requires GroupingState(prefix, rows, currentRow)
    requires (currentRow == [] && rows == []) || (|currentRow| > 0 && Abs(rect.y - Last(currentRow).y) < RowTolerance)
    ensures GroupingState(prefix + [rect], rows, currentRow + [rect])
  {
    var grown := currentRow + [rect];
    assert forall k :: 0 <= k < |rows| ==> (rows + [grown])[k] == (rows + [currentRow])[k];
    assert |currentRow| > 0 ==> grown[0] == currentRow[0];
    assert forall j :: 0 <= j < |currentRow| ==> grown[j] == currentRow[j];
  }

  /** A bubble too far from the open row closes it and opens a new row. */
  lemma BreakRow(prefix: seq<Rect>, rows: seq<seq<Rect>>, currentRow: seq<Rect>, rect: Rect)
    requires GroupingState(prefix, rows, currentRow)
    requires |currentRow| > 0 && Abs(rect.y - Last(currentRow).y) >= RowTolerance
    ensures GroupingState(prefix + [rect], rows + [currentRow], [rect])
  {
    FlattenAppend(rows, currentRow);
    var closed := rows + [currentRow];
    assert forall k :: 0 <= k < |closed| ==> (closed + [[rect]])[k] == closed[k];
  }

  /** The grouping loop over the sorted bubbles. */
  method GroupRows(bubbles: seq<Rect>) returns (rows: seq<seq<Rect>>)
    ensures IsRowSplit(bubbles, rows)
  {
    rows := [];
    var rowY: Option<int> := None;
    var currentRow: seq<Rect> := [];
    for i := 0 to |bubbles|
      invariant GroupingState(bubbles[..i], rows, currentRow)
      invariant i == 0 ==> rows == [] && currentRow == [] && rowY.None?
      invariant i > 0 ==> |currentRow| > 0 && rowY == Some(Last(currentRow).y)
    {
      var rect := bubbles[i];
      assert bubbles[..i + 1] == bubbles[..i] + [rect];
      assert i > 0 ==> Last(currentRow).y == rowY.value;
      if rowY.None? || Abs(rect.y - rowY.value) < RowTolerance {
        JoinRow(bubbles[..i], rows, currentRow, rect);
        currentRow := currentRow + [rect];
        rowY := Some(rect.y);
      } else {
        BreakRow(bubbles[..i], rows, currentRow, rect);
        rows := rows + [currentRow];
        currentRow := [rect];
        rowY := Some(rect.y);
      }
    }
    assert bubbles[..|bubbles|] == bubbles;
    if |currentRow| > 0 {
      CloseLastRow(bubbles, rows, currentRow);
      rows := rows + [currentRow];
    }
  }

  /** At the end of the loop the open row, if any, is the last row. */
  lemma CloseLastRow(bubbles: seq<Rect>, rows: seq<seq<Rect>>, currentRow: seq<Rect>)
    requires GroupingState(bubbles, rows, currentRow) && |currentRow| > 0
    ensures IsRowSplit(bubbles, rows + [currentRow])
  {
    FlattenAppend(rows, currentRow);
  }

  /** `rows.filter(r => r.length === numChoices)`. */
  function KeepFullRows(rows: seq<seq<Rect>>): (kept: seq<seq<Rect>>)
    ensures |kept| <= |rows|
    ensures forall k :: 0 <= k < |kept| ==> |kept[k]| == NumChoices
    ensures forall r :: r in kept <==> r in rows && |r| == NumChoices
  {
    var kept := Filter(rows, (r: seq<Rect>) => |r| == NumChoices);
    assert forall k :: 0 <= k < |kept| ==> kept[k] in kept;
    kept
  }

  /** Filtering rows keeps their order: the rows kept from a concatenation are the
      rows kept from each part, one after the other. */
  lemma KeepFullRowsConcat(a: seq<seq<Rect>>, b: seq<seq<Rect>>)
    ensures KeepFullRows(a + b) == KeepFullRows(a) + KeepFullRows(b)
  {
    FilterConcat(a, b, (r: seq<Rect>) => |r| == NumChoices);
  }

  // ---------------------------------------------------------------------------
  // Darkest-bubble selection

  function Negated(means: seq<real>): (s: seq<real>)
    ensures |s| == |means|
    ensures forall j :: 0 <= j < |s| ==> s[j] == -means[j]
  {
    seq(|means|, j requires 0 <= j < |means| => -means[j])
  }

  /** The marked choice of a row: the first strictly darkest mean below 255. */
  function Darkest(means: seq<real>): Option<nat>
  {
    FirstBest(Negated(means), Some(-255.0))
  }

  /** What `Darkest` means on the means themselves. */
  lemma DarkestSpec(means: seq<real>)
    ensures Darkest(means).None? <==> forall j :: 0 <= j < |means| ==> means[j] >= 255.0
    ensures Darkest(means).Some? ==>
              var k := Darkest(means).value;
              && k < |means| && means[k] < 255.0
              && (forall j :: 0 <= j < |means| ==> means[k] <= means[j])
              && (forall j :: 0 <= j < k ==> means[k] < means[j])
  {
    var s := Negated(means);
    if Darkest(means).Some? {
      var k := Darkest(means).value;
      assert forall j :: 0 <= j < |means| ==> s[j] <= s[k];
      assert forall j :: 0 <= j < k ==> s[j] < s[k];
    } else {
      assert forall j :: 0 <= j < |means| ==> !Above(s[j], Some(-255.0));
    }
  }

  /** The inner loop of the detection: `minMean` from 255 and `markedIdx` from -1,
      replaced when a strictly smaller mean appears. */
  method DarkestChoice(means: seq<real>) returns (markedIdx: int)
    ensures markedIdx == IndexOrMinusOne(Darkest(means))
    ensures -1 <= markedIdx < |means|
  {
    var minMean: real := 255.0;
    markedIdx := -1;
    ghost var best: Option<nat> := None;
    var s := Negated(means);
    for c := 0 to |means|
      invariant best == FirstBest(s[..c], Some(-255.0))
      invariant markedIdx == IndexOrMinusOne(best)
      invariant best.None? ==> minMean == 255.0
      invariant best.Some? ==> best.value < c && minMean == means[best.value]
    {
      FirstBestSnoc(s[..c], s[c], Some(-255.0));
      assert s[..c + 1] == s[..c] + [s[c]];
      var mean := means[c];
      if mean < minMean {
        minMean := mean;
        markedIdx := c;
        best := Some(c);
      }
    }
    assert s[..|means|] == s;
  }

  /** The sampled means of the first `NumChoices` rectangles of a row. */
  function RowMeans(row: seq<Rect>, mean: Rect -> real): (m: seq<real>)
    requires |row| >= NumChoices
    ensures |m| == NumChoices
    ensures forall c :: 0 <= c < NumChoices ==> m[c] == mean(row[c])
  {
    seq(NumChoices, c requires 0 <= c < NumChoices => mean(row[c]))
  }

  /** The letter detected for one row, or nothing. */
  function RowAnswer(row: seq<Rect>, mean: Rect -> real): (a: Option<char>)
    requires |row| >= NumChoices
  {
    LabelAt(IndexOrMinusOne(Darkest(RowMeans(row, mean))))
  }

  /** A row answer is one of the first four letters, and there is none exactly
      when every bubble of the row has mean 255 (or more). */
  lemma RowAnswerSpec(row: seq<Rect>, mean: Rect -> real)
    requires |row| >= NumChoices
    ensures RowAnswer(row, mean).None? <==> forall c :: 0 <= c < NumChoices ==> mean(row[c]) >= 255.0
    ensures RowAnswer(row, mean).Some? ==> RowAnswer(row, mean).value in ChoiceLetters[..NumChoices]
  {
    var m := RowMeans(row, mean);
    DarkestSpec(m);
    if Darkest(m).Some? {
      assert ChoiceLetters[..NumChoices][Darkest(m).value] == ChoiceLetters[Darkest(m).value];
    }
  }

  /** The detection loop: an answer for each of the first `min(50, rows)` rows,
      item `q + 1` at position `q`. */
  method DetectDarkest(rows: seq<seq<Rect>>, mean: Rect -> real) returns (detected: seq<Option<char>>)
    requires forall q :: 0 <= q < |rows| ==> |rows[q]| >= NumChoices
    ensures |detected| == Min(NumQuestions, |rows|)
    ensures forall q :: 0 <= q < |detected| ==> detected[q] == RowAnswer(rows[q], mean)
  {
    detected := [];
    var n := Min(NumQuestions, |rows|);
    for q := 0 to n
      invariant |detected| == q
      invariant forall p :: 0 <= p < q ==> detected[p] == RowAnswer(rows[p], mean)
    {
      var markedIdx := DarkestChoice(RowMeans(rows[q], mean));
      detected := detected + [LabelAt(markedIdx)];
    }
  }

  // ---------------------------------------------------------------------------
  // Scoring

  datatype ItemResult = ItemResult(number: nat, detected: char, correct: char, isCorrect: bool)

  /** `detectedAnswers[i] || '-'`: item `i` (from 1) was detected in row `i - 1`. */
  function DetectedLabel(detected: seq<Option<char>>, i: int): (c: char)
    ensures c != Dash ==> 1 <= i <= |detected| && detected[i - 1] == Some(c)
    ensures 1 <= i <= |detected| && detected[i - 1].Some? ==> c == detected[i - 1].value
  {
    if 1 <= i <= |detected| && detected[i - 1].Some? then detected[i - 1].value else Dash
  }

  /** The key entry of item `i` (from 1), read from the 0-based array the answer
      key editor stores; a missing or empty entry is `'-'`. */
  function KeyLabel(key: seq<Option<char>>, i: int): (c: char)
    ensures c != Dash ==> 1 <= i <= |key| && key[i - 1] == Some(c)
    ensures 1 <= i <= |key| && key[i - 1].Some? ==> c == key[i - 1].value
  {
    if 1 <= i <= |key| && key[i - 1].Some? then key[i - 1].value else Dash
  }

  /** `answerKey[i] || '-'` as the page writes it: the 0-based array indexed by
      the 1-based item number. */
  function KeyLabelAsWritten(key: seq<Option<char>>, i: int): (c: char)
    ensures c != Dash ==> 0 <= i < |key| && key[i] == Some(c)
    ensures 0 <= i < |key| && key[i].Some? ==> c == key[i].value
  {
    if 0 <= i < |key| && key[i].Some? then key[i].value else Dash
  }

  /** The row of the results list for item `i`. */
  function Judge(i: nat, detected: char, correct: char): ItemResult
  {
    ItemResult(i, detected, correct, detected != Dash && correct != Dash && detected == correct)
  }

  /** An item counts towards the total when either side has an answer. */
  predicate Counted(r: ItemResult)
  {
    r.detected != Dash || r.correct != Dash
  }

  /** The number of counted items. */
  function Total(rs: seq<ItemResult>): (n: nat)
    ensures n <= |rs|
  {
    if |rs| == 0 then 0 else Total(rs[..|rs| - 1]) + (if Counted(rs[|rs| - 1]) then 1 else 0)
  }

  /** The number of counted items judged correct. */
  function Score(rs: seq<ItemResult>): (n: nat)
    ensures n <= Total(rs)
  {
    if |rs| == 0 then 0
    else Score(rs[..|rs| - 1]) + (if Counted(rs[|rs| - 1]) && rs[|rs| - 1].isCorrect then 1 else 0)
  }

  /** The results list: item `i` for `i` from 1 to 50, keyed by `KeyLabel`. */
  function Results(detected: seq<Option<char>>, key: seq<Option<char>>): (rs: seq<ItemResult>)
    ensures |rs| == NumQuestions
  {
    seq(NumQuestions, j requires 0 <= j < NumQuestions => Judge(j + 1, DetectedLabel(detected, j + 1), KeyLabel(key, j + 1)))
  }

  /** The results list with the key read as the page reads it. */
  function ResultsAsWritten(detected: seq<Option<char>>, key: seq<Option<char>>): (rs: seq<ItemResult>)
    ensures |rs| == NumQuestions
  {
    seq(NumQuestions, j requires 0 <= j < NumQuestions => Judge(j + 1, DetectedLabel(detected, j + 1), KeyLabelAsWritten(key, j + 1)))
  }

  /** Each entry of the results list is the item numbered from 1 in order,
      correct exactly when both sides have the same answer. */
  lemma ResultsSpec(detected: seq<Option<char>>, key: seq<Option<char>>, j: nat)
    requires j < NumQuestions
    ensures Results(detected, key)[j].number == j + 1
    ensures Results(detected, key)[j].isCorrect <==>
              && j < |detected| && detected[j].Some?
              && j < |key| && key[j].Some?
              && detected[j].value != Dash && detected[j].value == key[j].value
  {
  }

  /** The scoring loop of the page, reading the key at the item's own position. */
  method ScoreSheet(detected: seq<Option<char>>, key: seq<Option<char>>)
    returns (results: seq<ItemResult>, score: nat, total: nat)
    ensures results == Results(detected, key)
    ensures score == Score(results) && total == Total(results)
    ensures score <= total <= NumQuestions
    ensures forall j :: 0 <= j < |results| ==> results[j].number == j + 1
  {
    results := [];
    score, total := 0, 0;
    ghost var all := Results(detected, key);
    for i := 1 to NumQuestions + 1
      invariant results == all[..i - 1]
      invariant score == Score(results) && total == Total(results)
    {
      var d := DetectedLabel(detected, i);
      var c := KeyLabel(key, i);
      var isCorrect := d != Dash && c != Dash && d == c;
      if d != Dash || c != Dash {
        total := total + 1;
        if isCorrect {
          score := score + 1;
        }
      }
      results := results + [ItemResult(i, d, c, isCorrect)];
      assert all[..i] == all[..i - 1] + [all[i - 1]];
      assert results[..|results| - 1] == all[..i - 1];
    }
    assert all[..NumQuestions] == all;
    forall j | 0 <= j < |results|
      ensures results[j].number == j + 1
    {
      ResultsSpec(detected, key, j);
    }
  }

  /** Items past a point that nobody answered change neither score nor total. */
  lemma {:induction false} UncountedSuffix(rs: seq<ItemResult>, n: nat)
    requires n <= |rs|
    requires forall j :: n <= j < |rs| ==> !Counted(rs[j])
    ensures Total(rs) == Total(rs[..n]) && Score(rs) == Score(rs[..n])
  {
    if |rs| > n {
      var init := rs[..|rs| - 1];
      assert init[..n] == rs[..n];
      UncountedSuffix(init, n);
    } else {
      assert rs[..n] == rs;
    }
  }

  /** Counted items of a four-item list, written out. */
  lemma CountFour(rs: seq<ItemResult>)
    requires |rs| == 4
    ensures Total(rs) == (if Counted(rs[0]) then 1 else 0) + (if Counted(rs[1]) then 1 else 0)
                       + (if Counted(rs[2]) then 1 else 0) + (if Counted(rs[3]) then 1 else 0)
    ensures Score(rs) == (if Counted(rs[0]) && rs[0].isCorrect then 1 else 0)
                       + (if Counted(rs[1]) && rs[1].isCorrect then 1 else 0)
                       + (if Counted(rs[2]) && rs[2].isCorrect then 1 else 0)
                       + (if Counted(rs[3]) && rs[3].isCorrect then 1 else 0)
  {
    assert rs[..3][..2] == rs[..2];
    assert rs[..2][..1] == rs[..1];
    assert rs[..1][..0] == [];
  }

  const ExampleKey: seq<Option<char>> := [Some('A'), Some('B'), Some('C'), Some('D')]
  const ExampleDetected: seq<Option<char>> := [Some('A'), Some('B'), None, Some('D')]

  /** Read as the page reads it, a key of A, B, C, D against a sheet marked
      A, B, (blank), D scores 0 of 4: every item is compared with the next item's key. */
  lemma AsWrittenMisalignsKey()
    ensures Score(ResultsAsWritten(ExampleDetected, ExampleKey)) == 0
    ensures Total(ResultsAsWritten(ExampleDetected, ExampleKey)) == 4
  {
    var rs := ResultsAsWritten(ExampleDetected, ExampleKey);
    UncountedSuffix(rs, 4);
    CountFour(rs[..4]);
  }

  /** With the key read at the item's own position the same sheet scores 3 of 4. */
  lemma CorrectedAlignsKey()
    ensures Score(Results(ExampleDetected, ExampleKey)) == 3
    ensures Total(Results(ExampleDetected, ExampleKey)) == 4
  {
    var rs := Results(ExampleDetected, ExampleKey);
    UncountedSuffix(rs, 4);
    CountFour(rs[..4]);
  }

  /** The percentage before rounding: the share of correct items among the
      counted ones, and 0 when nothing was counted. */
  function Percentage(score: nat, total: nat): (p: real)
    requires score <= total
    ensures total == 0 ==> p == 0.0
    ensures 0.0 <= p <= 100.0
    ensures total > 0 ==> p * (total as real) == 100.0 * (score as real)
  {
    if total > 0 then (score as real) * 100.0 / (total as real) else 0.0
  }

  // ---------------------------------------------------------------------------
  // The whole recogniser

  /** The sheet analysis from the bounding rectangles of the contours: bubble
      candidates, reading order, rows, full rows, darkest bubbles, scores. */
  method AnalyzeSheet(rects: seq<Rect>, mean: Rect -> real, key: seq<Option<char>>)
    returns (results: seq<ItemResult>, score: nat, total: nat)
    ensures |results| == NumQuestions
    ensures forall j :: 0 <= j < NumQuestions ==> results[j].number == j + 1
    ensures score <= total <= NumQuestions
  {
    var candidates := CollectBubbles(rects);
    var bubbles := ReadingOrder(candidates);
    var rows := GroupRows(bubbles);
    rows := KeepFullRows(rows);
    var detected := DetectDarkest(rows, mean);
    results, score, total := ScoreSheet(detected, key);
  }

  // ---------------------------------------------------------------------------
  // Files

  datatype UploadFile = UploadFile(name: string, mimeType: string)

  /** A file is taken when it is an image, a PDF by type, or a PDF by name. */
  predicate Accepted(f: UploadFile)
  {
    StartsWith(f.mimeType, "image/") || f.mimeType == "application/pdf" || EndsWith(ToLower(f.name), ".pdf")
  }

  /** The dropped or chosen files that are taken, in their order. */
  function ValidFiles(files: seq<UploadFile>): (v: seq<UploadFile>)
    ensures |v| <= |files|
    ensures forall f :: f in v <==> f in files && Accepted(f)
  {
    Filter(files, Accepted)
  }

  /** Taking files keeps their order: the taken files of a concatenation are
      the taken files of each part, and a single file is taken or dropped whole. */
  lemma ValidFilesConcat(a: seq<UploadFile>, b: seq<UploadFile>)
    ensures ValidFiles(a + b) == ValidFiles(a) + ValidFiles(b)
  {
    FilterConcat(a, b, Accepted);
  }

  lemma ValidFilesSingle(f: UploadFile)
    ensures ValidFiles([f]) == if Accepted(f) then [f] else []
  {
    assert [f][..0] == [];
  }

  /** The page warns that files were skipped exactly when some file is not accepted. */
  lemma SkippedIffRejected(files: seq<UploadFile>)
    ensures |ValidFiles(files)| != |files| <==> exists f :: f in files && !Accepted(f)
  {
    FilterKeepsAll(files, Accepted);
  }

  /** The new upload list: the previous files followed by the taken ones. */
  function AddFiles(prev: seq<UploadFile>, files: seq<UploadFile>): (r: seq<UploadFile>)
    ensures |prev| <= |r| <= |prev| + |files|
    ensures r[..|prev|] == prev
    ensures forall f :: f in r[|prev|..] <==> f in files && Accepted(f)
    ensures r[|prev|..] == ValidFiles(files)
  {
    var r := prev + ValidFiles(files);
    assert r[..|prev|] == prev && r[|prev|..] == ValidFiles(files);
    r
  }

  /** `prev.filter((_, i) => i !== index)`. */
  function RemoveFile(files: seq<UploadFile>, index: int): (r: seq<UploadFile>)
    ensures 0 <= index < |files| ==> r == files[..index] + files[index + 1..]
    ensures !(0 <= index < |files|) ==> r == files
  {
    if |files| == 0 then []
    else
      var init := RemoveFile(files[..|files| - 1], index);
      var last := files[|files| - 1];
      assert files == files[..|files| - 1] + [last];
      if index == |files| - 1 then init
      else
        assert 0 <= index < |files| - 1 ==>
          files[..index] + files[index + 1..] == files[..|files| - 1][..index] + files[..|files| - 1][index + 1..] + [last];
        init + [last]
  }
}
