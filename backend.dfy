/** The sheet-checking service: layout parameters with their defaults, the
    bubble coordinates of every item, the thresholded fill detection, the
    index-to-letter mapping and the zip-based scoring. */
module Backend {
  import opened Common
  import opened Selection

  // ---------------------------------------------------------------------------
  // Fill detection

  /** How dark a bubble is: 255 minus its mean intensity. */
  function Fills(means: seq<real>): (f: seq<real>)
    ensures |f| == |means|
    ensures forall j :: 0 <= j < |f| ==> f[j] == 255.0 - means[j]
  {
    seq(|means|, j requires 0 <= j < |means| => 255.0 - means[j])
  }

  function RMax(a: real, b: real): real { if a >= b then a else b }

  /** The marked bubble of one item: the first bubble of strictly greatest fill,
      provided that fill is above both 0 and `threshold * 255`. */
  function DetectRow(means: seq<real>, threshold: real): Option<nat>
  {
    FirstBest(Fills(means), Some(RMax(0.0, threshold * 255.0)))
  }

  /** What `DetectRow` means: nothing when no fill passes both bounds; otherwise
      a bubble whose fill passes them, is the greatest and is strictly greater
      than every fill before it. */
  lemma DetectRowSpec(means: seq<real>, threshold: real)
    ensures DetectRow(means, threshold).None? <==>
              forall j :: 0 <= j < |means| ==> 255.0 - means[j] <= 0.0 || 255.0 - means[j] <= threshold * 255.0
    ensures DetectRow(means, threshold).Some? ==>
              var k := DetectRow(means, threshold).value;
              && k < |means|
              && 255.0 - means[k] > 0.0 && 255.0 - means[k] > threshold * 255.0
              && (forall j :: 0 <= j < |means| ==> means[k] <= means[j])
              && (forall j :: 0 <= j < k ==> means[k] < means[j])
  {
    var f := Fills(means);
    var floor := Some(RMax(0.0, threshold * 255.0));
    if DetectRow(means, threshold).Some? {
      var k := DetectRow(means, threshold).value;
      assert forall j :: 0 <= j < |means| ==> f[j] <= f[k];
      assert forall j :: 0 <= j < k ==> f[j] < f[k];
    } else {
      assert forall j :: 0 <= j < |means| ==> !Above(f[j], floor);
    }
  }

  /** `detect_bubbles`: one entry per item, from the sampled means of its bubbles. */
  method DetectBubbles(rowMeans: seq<seq<real>>, threshold: real) returns (answers: seq<Option<nat>>)
    ensures |answers| == |rowMeans|
    ensures forall q :: 0 <= q < |rowMeans| ==> answers[q] == DetectRow(rowMeans[q], threshold)
  {
    answers := [];
    for q := 0 to |rowMeans|
      invariant |answers| == q
      invariant forall p :: 0 <= p < q ==> answers[p] == DetectRow(rowMeans[p], threshold)
    {
      var filled := RowFill(rowMeans[q], threshold);
      answers := answers + [filled];
    }
  }

  /** The inner loop of `detect_bubbles`: `max_fill` from 0, replaced when a fill
      is above both the running maximum and the threshold. */
  method RowFill(means: seq<real>, threshold: real) returns (filled: Option<nat>)
    ensures filled == DetectRow(means, threshold)
  {
    filled := None;
    var maxFill: real := 0.0;
    var f := Fills(means);
    var floor := Some(RMax(0.0, threshold * 255.0));
    for idx := 0 to |means|
      invariant filled == FirstBest(f[..idx], floor)
      invariant filled.None? ==> maxFill == 0.0
      invariant filled.Some? ==> filled.value < idx && maxFill == f[filled.value]
    {
      var fill := 255.0 - means[idx];
      assert fill == f[idx];
      RowFillStep(f, idx, threshold, filled, maxFill);
      if fill > maxFill && fill > threshold * 255.0 {
        maxFill := fill;
        filled := Some(idx);
      }
    }
    assert f[..|means|] == f;
  }

  /** One step of the `max_fill` loop extends the running choice by one bubble:
      a chosen fill already passes 0 and the threshold, so beating it is enough. */
  lemma RowFillStep(f: seq<real>, idx: nat, threshold: real, filled: Option<nat>, maxFill: real)
    requires idx < |f|
    requires filled == FirstBest(f[..idx], Some(RMax(0.0, threshold * 255.0)))
    requires filled.None? ==> maxFill == 0.0
    requires filled.Some? ==> filled.value < idx && maxFill == f[filled.value]
    ensures (if f[idx] > maxFill && f[idx] > threshold * 255.0 then Some(idx) else filled)
            == FirstBest(f[..idx + 1], Some(RMax(0.0, threshold * 255.0)))
  {
    var floor := Some(RMax(0.0, threshold * 255.0));
    FirstBestSnoc(f[..idx], f[idx], floor);
    assert f[..idx + 1] == f[..idx] + [f[idx]];
  }

  // ---------------------------------------------------------------------------
  // Layout parameters

  /** The keys of `grid_layout_params`, each present or absent; `otherKeys`
      records whether the dictionary holds keys the service does not read. */
  datatype GridParams = GridParams(
    itemsPerColumn: Option<int>, colWidth: Option<real>, colX: Option<seq<real>>,
    rowH: Option<real>, colW: Option<real>, bubbleR: Option<real>,
    numberWidth: Option<real>, gap: Option<real>, groupOffset: Option<real>,
    gridStartY: Option<real>, otherKeys: bool)

  /** A dictionary is true in a condition exactly when it is non-empty. */
  predicate NonEmpty(g: GridParams)
  {
    || g.itemsPerColumn.Some? || g.colWidth.Some? || g.colX.Some? || g.rowH.Some?
    || g.colW.Some? || g.bubbleR.Some? || g.numberWidth.Some? || g.gap.Some?
    || g.groupOffset.Some? || g.gridStartY.Some? || g.otherKeys
  }

  /** The layout in page points (a 595 by 842 page), before scaling to pixels. */
  datatype PdfLayout = PdfLayout(
    itemsPerColumn: int, colWidth: real, colX: seq<real>, rowH: real, colW: real,
    bubbleR: real, numberWidth: real, gap: real, groupOffset: real, gridStartY: real)

  const PdfPageWidth: real := 595.0
  const DefaultColWidth: real := (PdfPageWidth - 120.0) / 2.0

  function Get<T>(o: Option<T>, d: T): T { if o.Some? then o.value else d }

  /** The group offset centres the number, the gap and the bubbles in a column. */
  function CentredOffset(colWidth: real, numberWidth: real, gap: real, colW: real, numChoices: int): real
  {
    (colWidth - (numberWidth + gap + (numChoices as real) * colW)) / 2.0
  }

  /** Python's `int()` on a number: truncation toward zero. */
  function PyInt(x: real): (n: int)
    ensures x >= 0.0 ==> n >= 0 && (n as real) <= x < (n as real) + 1.0
    ensures x < 0.0 ==> n <= 0 && x <= (n as real) && (n as real) - 1.0 < x
  {
    if x >= 0.0 then x.Floor else -((-x).Floor)
  }

  /** The layout the service uses: the given grid parameters with their
      defaults, or, when there are none, the fixed two-column layout with the
      grid starting at `int(grid_start_y)` (default 120). Either way the grid is
      moved down by 3 points. */
  function ResolveLayout(numChoices: int, grid: Option<GridParams>, gridStartY: Option<real>): (l: PdfLayout)
    ensures grid.Some? && NonEmpty(grid.value) ==>
              var g := grid.value;
              && l.itemsPerColumn == Get(g.itemsPerColumn, 25)
              && l.colWidth == Get(g.colWidth, DefaultColWidth)
              && l.colX == Get(g.colX, [60.0, 60.0 + DefaultColWidth])
              && l.rowH == Get(g.rowH, 22.0)
              && l.colW == Get(g.colW, 20.0)
              && l.bubbleR == Get(g.bubbleR, 10.0)
              && l.numberWidth == Get(g.numberWidth, 18.0)
              && l.gap == Get(g.gap, 8.0)
              && l.groupOffset == Get(g.groupOffset, CentredOffset(l.colWidth, l.numberWidth, l.gap, l.colW, numChoices))
              && l.gridStartY == Get(g.gridStartY, 0.0) + 3.0
    ensures !(grid.Some? && NonEmpty(grid.value)) ==>
              && l.itemsPerColumn == 25 && l.colWidth == DefaultColWidth
              && l.colX == [60.0, 60.0 + DefaultColWidth]
              && l.rowH == 22.0 && l.colW == 20.0 && l.bubbleR == 7.0
              && l.numberWidth == 18.0 && l.gap == 8.0
              && l.groupOffset == CentredOffset(DefaultColWidth, 18.0, 8.0, 20.0, numChoices)
              && l.gridStartY == (PyInt(Get(gridStartY, 120.0)) as real) + 3.0
  {
    if grid.Some? && NonEmpty(grid.value) then
      var g := grid.value;
      var colWidth := Get(g.colWidth, DefaultColWidth);
      var numberWidth := Get(g.numberWidth, 18.0);
      var gap := Get(g.gap, 8.0);
      var colW := Get(g.colW, 20.0);
      PdfLayout(Get(g.itemsPerColumn, 25), colWidth, Get(g.colX, [60.0, 60.0 + DefaultColWidth]),
                Get(g.rowH, 22.0), colW, Get(g.bubbleR, 10.0), numberWidth, gap,
                Get(g.groupOffset, CentredOffset(colWidth, numberWidth, gap, colW, numChoices)),
                Get(g.gridStartY, 0.0) + 3.0)
    else
      PdfLayout(25, DefaultColWidth, [60.0, 60.0 + DefaultColWidth], 22.0, 20.0, 7.0, 18.0, 8.0,
                CentredOffset(DefaultColWidth, 18.0, 8.0, 20.0, numChoices),
                (PyInt(Get(gridStartY, 120.0)) as real) + 3.0)
  }

  /** A grid dictionary that holds none of the keys the service reads still
      changes the layout, in two places only: the radius becomes 10 instead of 7,
      and the grid starts at 3 instead of `grid_start_y + 3`. */
  lemma EmptyGridDiffersOnlyInRadiusAndStart(numChoices: int, gridStartY: Option<real>)
    ensures var bare := GridParams(None, None, None, None, None, None, None, None, None, None, true);
            var withGrid := ResolveLayout(numChoices, Some(bare), gridStartY);
            var without := ResolveLayout(numChoices, None, gridStartY);
            && withGrid.bubbleR == 10.0 && without.bubbleR == 7.0
            && withGrid.gridStartY == 3.0
            && withGrid.(bubbleR := 7.0, gridStartY := without.gridStartY) == without
  {
  }

  /** An empty dictionary is the same as no dictionary at all. */
  lemma EmptyDictIsNoGrid(numChoices: int, gridStartY: Option<real>)
    ensures ResolveLayout(numChoices, Some(GridParams(None, None, None, None, None, None, None, None, None, None, false)), gridStartY)
            == ResolveLayout(numChoices, None, gridStartY)
  {
  }

  // ---------------------------------------------------------------------------
  // Bubble coordinates

  /** The layout after scaling to image pixels. */
  datatype PixelLayout = PixelLayout(
    itemsPerColumn: int, colX: seq<int>, rowH: int, colW: int, bubbleR: int,
    numberWidth: int, gap: int, groupOffset: int, gridStartY: int)

  datatype Circle = Circle(x: int, y: int, r: int)

  /** The column of item `i`: the first `itemsPerColumn` items go left, all others right. */
  function ColumnOf(i: int, itemsPerColumn: int): (col: nat)
    ensures col <= 1
  {
    if i < itemsPerColumn then 0 else 1
  }

  /** The row of item `i` within its column. */
  function RowInColumn(i: int, itemsPerColumn: int): int
  {
    if ColumnOf(i, itemsPerColumn) == 0 then i else i - itemsPerColumn
  }

  function CircleAt(px: PixelLayout, i: int, c: int): Circle
    requires ColumnOf(i, px.itemsPerColumn) < |px.colX|
  {
    var x := px.colX[ColumnOf(i, px.itemsPerColumn)];
    var y := px.gridStartY + RowInColumn(i, px.itemsPerColumn) * px.rowH;
    Circle(x + px.groupOffset + px.numberWidth + px.gap + c * px.colW, y + px.bubbleR + 7, px.bubbleR)
  }

  /** The coordinate loop: `num_items` rows of `num_choices` circles. The
      caller must supply as many column positions as the items use; the
      service fails otherwise. */
  method BubbleCoords(numItems: int, numChoices: int, px: PixelLayout) returns (coords: seq<seq<Circle>>)
    requires forall i :: 0 <= i < numItems ==> ColumnOf(i, px.itemsPerColumn) < |px.colX|
    ensures |coords| == Max(0, numItems)
    ensures forall i :: 0 <= i < |coords| ==> |coords[i]| == Max(0, numChoices)
    ensures forall i, c :: 0 <= i < |coords| && 0 <= c < |coords[i]| ==> coords[i][c] == CircleAt(px, i, c)
  {
    coords := [];
    var i := 0;
    while i < numItems
      invariant 0 <= i <= Max(0, numItems)
      invariant |coords| == i
      invariant forall k :: 0 <= k < i ==> |coords[k]| == Max(0, numChoices)
      invariant forall k, c :: 0 <= k < i && 0 <= c < |coords[k]| ==> coords[k][c] == CircleAt(px, k, c)
    {
      var col := if i < px.itemsPerColumn then 0 else 1;
      assert col == ColumnOf(i, px.itemsPerColumn);
      var idxInCol := if col == 0 then i else i - px.itemsPerColumn;
      var x := px.colX[col];
      var y := px.gridStartY + idxInCol * px.rowH;
      var forBubbles: seq<Circle> := [];
      var c := 0;
      while c < numChoices
        invariant 0 <= c <= Max(0, numChoices)
        invariant |forBubbles| == c
        invariant forall d :: 0 <= d < c ==> forBubbles[d] == CircleAt(px, i, d)
      {
        var bubbleX := x + px.groupOffset + px.numberWidth + px.gap + c * px.colW;
        var bubbleY := y + px.bubbleR + 7;
        forBubbles := forBubbles + [Circle(bubbleX, bubbleY, px.bubbleR)];
        c := c + 1;
      }
      coords := coords + [forBubbles];
      i := i + 1;
    }
  }

  /** Within an item the circles share y and radius and step by `colW` in x. */
  lemma ChoiceStep(px: PixelLayout, i: int, c: int)
    requires ColumnOf(i, px.itemsPerColumn) < |px.colX|
    ensures CircleAt(px, i, c + 1).x == CircleAt(px, i, c).x + px.colW
    ensures CircleAt(px, i, c + 1).y == CircleAt(px, i, c).y
    ensures CircleAt(px, i, c).r == px.bubbleR
    ensures CircleAt(px, i, c).y == px.gridStartY + RowInColumn(i, px.itemsPerColumn) * px.rowH + px.bubbleR + 7
  {
  }

  /** Item `i` of the left column and item `i + itemsPerColumn` of the right
      column sit on the same line, one column distance apart. */
  lemma ColumnWrap(px: PixelLayout, i: int, c: int)
    requires 0 <= i < px.itemsPerColumn && |px.colX| >= 2
    ensures ColumnOf(i, px.itemsPerColumn) == 0 && ColumnOf(i + px.itemsPerColumn, px.itemsPerColumn) == 1
    ensures CircleAt(px, i + px.itemsPerColumn, c).y == CircleAt(px, i, c).y
    ensures CircleAt(px, i + px.itemsPerColumn, c).x == CircleAt(px, i, c).x + (px.colX[1] - px.colX[0])
  {
  }

  /** There is no third column: every item at or past `2 * itemsPerColumn`
      lies below the last line of the right column. */
  lemma NoThirdColumn(px: PixelLayout, i: int)
    requires px.itemsPerColumn >= 0 && i >= 2 * px.itemsPerColumn
    ensures ColumnOf(i, px.itemsPerColumn) == 1
    ensures RowInColumn(i, px.itemsPerColumn) >= px.itemsPerColumn
  {
  }

  // ---------------------------------------------------------------------------
  // Labels and scoring

  /** `['A', …, 'F'][:num_choices]`. */
  function ChoiceLabels(n: int): (labels: seq<char>)
    ensures 0 <= n <= |ChoiceLetters| ==> labels == ChoiceLetters[..n]
    ensures n > |ChoiceLetters| ==> labels == ChoiceLetters
    ensures n < 0 ==> labels == ChoiceLetters[..Max(0, |ChoiceLetters| + n)]
  {
    PrefixSlice(ChoiceLetters, n)
  }

  /** The label list comprehension: an index becomes its label, nothing stays nothing. */
  function LabelAnswers(idx: seq<Option<nat>>, labels: seq<char>): (answers: seq<Option<char>>)
    requires forall j :: 0 <= j < |idx| && idx[j].Some? ==> idx[j].value < |labels|
    ensures |answers| == |idx|
    ensures forall j :: 0 <= j < |idx| ==> (answers[j].None? <==> idx[j].None?)
    ensures forall j :: 0 <= j < |idx| && idx[j].Some? ==> answers[j] == Some(labels[idx[j].value])
  {
    seq(|idx|, j requires 0 <= j < |idx| => if idx[j].Some? then Some(labels[idx[j].value]) else None)
  }

  /** The position of a label in a list of distinct labels. */
  function IndexOfLabel(labels: seq<char>, a: char): (k: Option<nat>)
    ensures k.Some? ==> k.value < |labels| && labels[k.value] == a
    ensures k.None? ==> a !in labels
  {
    if |labels| == 0 then None
    else if labels[0] == a then Some(0)
    else
      var k := IndexOfLabel(labels[1..], a);
      if k.Some? then Some(k.value + 1) else None
  }

  /** With distinct labels the mapping loses nothing: each index is recovered from its letter. */
  lemma LabelAnswersInverse(idx: seq<Option<nat>>, labels: seq<char>, j: nat)
    requires forall i :: 0 <= i < |idx| && idx[i].Some? ==> idx[i].value < |labels|
    requires Distinct(labels) && j < |idx|
    ensures var a := LabelAnswers(idx, labels)[j];
            (if a.Some? then IndexOfLabel(labels, a.value) else None) == idx[j]
  {
    if idx[j].Some? {
      var k := IndexOfLabel(labels, labels[idx[j].value]);
      assert k.Some?;
    }
  }

  datatype ItemCheck = ItemCheck(number: nat, answer: Option<char>, correctAnswer: Option<char>, correct: bool)

  /** The number of positions, among the first `n`, where the two sides agree. */
  function Matches(answers: seq<Option<char>>, key: seq<Option<char>>, n: nat): (m: nat)
    requires n <= |answers| && n <= |key|
    ensures m <= n
  {
    if n == 0 then 0 else Matches(answers, key, n - 1) + (if answers[n - 1] == key[n - 1] then 1 else 0)
  }

  /** The number of items marked correct. */
  function CorrectCount(items: seq<ItemCheck>): (m: nat)
    ensures m <= |items|
  {
    if |items| == 0 then 0 else CorrectCount(items[..|items| - 1]) + (if items[|items| - 1].correct then 1 else 0)
  }

  /** The scoring loop: answers and key paired by `zip`, so only as many items as
      the shorter of the two; an item is correct when both sides are equal,
      including an undetected item against an empty key entry. */
  method ScoreItems(answers: seq<Option<char>>, key: seq<Option<char>>)
    returns (items: seq<ItemCheck>, score: nat)
    ensures |items| == Min(|answers|, |key|)
    ensures forall i :: 0 <= i < |items| ==>
              items[i] == ItemCheck(i + 1, answers[i], key[i], answers[i] == key[i])
    ensures score == Matches(answers, key, |items|)
    ensures score == CorrectCount(items) && score <= |items|
  {
    items := [];
    score := 0;
    var n := Min(|answers|, |key|);
    for i := 0 to n
      invariant |items| == i
      invariant forall k :: 0 <= k < i ==> items[k] == ItemCheck(k + 1, answers[k], key[k], answers[k] == key[k])
      invariant score == Matches(answers, key, i) && score == CorrectCount(items)
    {
      var ans, correct := answers[i], key[i];
      var correctBool := ans == correct;
      if correctBool {
        score := score + 1;
      }
      var old_items := items;
      items := items + [ItemCheck(i + 1, ans, correct, correctBool)];
      assert items[..|items| - 1] == old_items;
    }
  }

  /** A blank sheet scored against an empty key is full marks. */
  lemma BlankAgainstEmptyKeyIsFullMarks(answers: seq<Option<char>>, key: seq<Option<char>>, n: nat)
    requires n <= |answers| && n <= |key|
    requires forall i :: 0 <= i < n ==> answers[i].None? && key[i].None?
    ensures Matches(answers, key, n) == n
  {
    if n > 0 {
      BlankAgainstEmptyKeyIsFullMarks(answers, key, n - 1);
    }
  }

  /** Score is full exactly when every paired item agrees. */
  lemma {:induction false} FullMarksIffAllAgree(answers: seq<Option<char>>, key: seq<Option<char>>, n: nat)
    requires n <= |answers| && n <= |key|
    ensures Matches(answers, key, n) == n <==> forall i :: 0 <= i < n ==> answers[i] == key[i]
  {
    if n > 0 {
      FullMarksIffAllAgree(answers, key, n - 1);
    }
  }

  // ---------------------------------------------------------------------------
  // The whole check

  /** `check_sheet` from the scaled layout: coordinates, detection at the default
      threshold 0.5, labels and scores. `mean` stands for sampling the image
      under a circle. */
  method CheckSheet(numItems: int, numChoices: int, px: PixelLayout, mean: Circle -> real, key: seq<Option<char>>)
    returns (items: seq<ItemCheck>, score: nat)
    requires forall i :: 0 <= i < numItems ==> ColumnOf(i, px.itemsPerColumn) < |px.colX|
    requires numChoices <= |ChoiceLetters|
    ensures |items| == Min(Max(0, numItems), |key|)
    ensures score <= |items|
    ensures forall i :: 0 <= i < |items| ==> items[i].number == i + 1 && items[i].correctAnswer == key[i]
  {
    var coords := BubbleCoords(numItems, numChoices, px);
    var rowMeans := seq(|coords|, q requires 0 <= q < |coords| => seq(|coords[q]|, c requires 0 <= c < |coords[q]| => mean(coords[q][c])));
    var answersIdx := DetectBubbles(rowMeans, 0.5);
    var labels := ChoiceLabels(numChoices);
    forall q | 0 <= q < |answersIdx| && answersIdx[q].Some?
      ensures answersIdx[q].value < |labels|
    {
      DetectRowSpec(rowMeans[q], 0.5);
    }
    var answers := LabelAnswers(answersIdx, labels);
    items, score := ScoreItems(answers, key);
  }
}
