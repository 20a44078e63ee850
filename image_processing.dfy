/** The browser-side recogniser: canonical bubble layout, per-row fill
    selection, page-boundary choice, corner ordering, rectangle clamping and
    the identity-field fallback (frontend/src/utils/imageProcessing.js).

    OpenCV and Tesseract are not modelled: their outputs enter as inputs
    (the mean of each bubble's mask, the contour records, the OCR text). */
module ImageProcessing {
  import opened Common
  import opened Selection
  import Sorting
  import JsText

  // ---------------------------------------------------------------------------
  // Layout geometry, in page points (A4 = 595 x 842)

  const ItemsPerColumn: nat := 25
  const RowH: real := 22.0
  const ColW: real := 20.0
  const BubbleR: real := 7.0
  const NumberWidth: real := 18.0
  const Gap: real := 8.0
  const PageWidth: real := 595.28
  const ColWidth: real := (PageWidth - 120.0) / 2.0
  const ColX: seq<real> := [60.0, 60.0 + ColWidth]
  /** The header height the recogniser assumes above the first bubble row. */
  const GridTop: real := 48.0 + 22.0 + 18.0 + 24.0 + 24.0 + 36.0 + 14.0 + 13.0 * 2.0 + 14.0

  /** The canonical page the rectifier warps onto. */
  const A4Width: int := 595
  const A4Height: int := 842

  datatype Bubble = Bubble(x: real, y: real, r: real)

  /** The left margin that centres one item's number and bubbles in its column. */
  function GroupOffset(numChoices: int): real
  {
    (ColWidth - (NumberWidth + Gap + (numChoices as real) * ColW)) / 2.0
  }

  /** Bubble `c` of item `i`: item `i` sits in column `i / 25`, row `i % 25`. */
  function BubbleAt(numChoices: int, i: nat, c: nat): Bubble
    requires i < |ColX| * ItemsPerColumn
  {
    var col := i / ItemsPerColumn;
    var row := i % ItemsPerColumn;
    var baseX := ColX[col] + GroupOffset(numChoices);
    var baseY := GridTop + (row as real) * RowH;
    Bubble(baseX + NumberWidth + Gap + (c as real) * ColW, baseY + BubbleR + 9.0, BubbleR)
  }

  /** `getBubblePositions`: one row of `numChoices` bubbles per item. The column
      table has two entries, so only up to 50 items have positions. */
  method GetBubblePositions(numItems: int, numChoices: int) returns (positions: seq<seq<Bubble>>)
    requires numItems <= |ColX| * ItemsPerColumn
    ensures |positions| == Max(0, numItems)
    ensures forall i :: 0 <= i < |positions| ==> |positions[i]| == Max(0, numChoices)
    ensures forall i, c :: 0 <= i < |positions| && 0 <= c < |positions[i]| ==>
              positions[i][c] == BubbleAt(numChoices, i, c)
  {
    positions := [];
    var i := 0;
    while i < numItems
      invariant 0 <= i <= Max(0, numItems)
      invariant |positions| == i
      invariant forall k :: 0 <= k < i ==> |positions[k]| == Max(0, numChoices)
      invariant forall k, c :: 0 <= k < i && 0 <= c < |positions[k]| ==>
                  positions[k][c] == BubbleAt(numChoices, k, c)
    {
      var col := i / ItemsPerColumn;
      var row := i % ItemsPerColumn;
      var baseX := ColX[col] + GroupOffset(numChoices);
      var baseY := GridTop + (row as real) * RowH;
      var rowBubbles := [];
      var c := 0;
      while c < numChoices
        invariant 0 <= c <= Max(0, numChoices)
        invariant |rowBubbles| == c
        invariant forall k :: 0 <= k < c ==> rowBubbles[k] == BubbleAt(numChoices, i, k)
      {
        rowBubbles := rowBubbles + [Bubble(baseX + NumberWidth + Gap + (c as real) * ColW, baseY + BubbleR + 9.0, BubbleR)];
        c := c + 1;
      }
      positions := positions + [rowBubbles];
      i := i + 1;
    }
  }

  /** Every bubble has radius 7, and neighbouring choices of an item share a
      centre line and are 20 points apart. */
  lemma ChoiceSpacing(numChoices: int, i: nat, c: nat)
    requires i < |ColX| * ItemsPerColumn
    ensures BubbleAt(numChoices, i, c).r == 7.0
    ensures BubbleAt(numChoices, i, c + 1).y == BubbleAt(numChoices, i, c).y
    ensures BubbleAt(numChoices, i, c + 1).x == BubbleAt(numChoices, i, c).x + 20.0
  {
  }

  /** Item `i + 25` is item `i` moved one column right: same height, shifted by
      the column width. */
  lemma SecondColumn(numChoices: int, i: nat, c: nat)
    requires i < ItemsPerColumn
    ensures BubbleAt(numChoices, i + ItemsPerColumn, c) ==
            BubbleAt(numChoices, i, c).(x := BubbleAt(numChoices, i, c).x + ColWidth)
  {
    assert (i + ItemsPerColumn) / ItemsPerColumn == 1 && i / ItemsPerColumn == 0;
    assert (i + ItemsPerColumn) % ItemsPerColumn == i % ItemsPerColumn;
  }

  /** For a sheet of 1 to 6 choices every bubble circle lies on the A4 page. */
  lemma BubblesOnPage(numChoices: int, i: nat, c: nat)
    requires 1 <= numChoices <= 6 && i < |ColX| * ItemsPerColumn && c < numChoices
    ensures var b := BubbleAt(numChoices, i, c);
      0.0 <= b.x - b.r && b.x + b.r <= A4Width as real &&
      0.0 <= b.y - b.r && b.y + b.r <= A4Height as real
  {
    var row := i % ItemsPerColumn;
    assert 0 <= row < 25;
    assert 0.0 <= (row as real) * RowH <= 24.0 * 22.0;
  }

  // ---------------------------------------------------------------------------
  // Identity-field regions

  datatype Regions = Regions(name: Rect, section: Rect)

  /** The text value OCR produced nothing readable for. */
  const Unreadable: string := "[unreadable]"
  /** Points added around a region on every side before cropping. */
  const FieldMargin: int := 8

  /** `getTextFieldRegions`: the name box and, directly below it, the section box. */
  function TextFieldRegions(): (r: Regions)
    ensures r.name.x == r.section.x == 48 && r.name.w == r.section.w == 200
    ensures r.name.h == r.section.h == 24
    ensures r.name.y == 48 + 22 + 18 && r.section.y == r.name.y + r.name.h
  {
    Regions(Rect(48, 48 + 22 + 18, 200, 24), Rect(48, 48 + 22 + 18 + 24, 200, 24))
  }

  /** `clampRect`. */
  function ClampRect(x: int, y: int, w: int, h: int, maxW: int, maxH: int): (r: Rect)
    ensures r.x >= 0 && r.y >= 0 && r.w >= 1 && r.h >= 1
    ensures r.x == Max(0, x) && r.y == Max(0, y)
    ensures r.w <= Max(1, w) && r.h <= Max(1, h)
    ensures r.x < maxW ==> r.x + r.w <= maxW
    ensures r.y < maxH ==> r.y + r.h <= maxH
  {
    var nx := Max(0, x);
    var ny := Max(0, y);
    var nw := Max(1, Min(w, maxW - nx));
    var nh := Max(1, Min(h, maxH - ny));
    Rect(nx, ny, nw, nh)
  }

  /** Clamping a clamped rectangle changes nothing. */
  lemma ClampIdempotent(x: int, y: int, w: int, h: int, maxW: int, maxH: int)
    ensures var r := ClampRect(x, y, w, h, maxW, maxH);
      ClampRect(r.x, r.y, r.w, r.h, maxW, maxH) == r
  {
  }

  /** A rectangle already inside the image is returned as it is. */
  lemma ClampInside(x: int, y: int, w: int, h: int, maxW: int, maxH: int)
    requires 0 <= x && 0 <= y && 1 <= w && 1 <= h && x + w <= maxW && y + h <= maxH
    ensures ClampRect(x, y, w, h, maxW, maxH) == Rect(x, y, w, h)
  {
  }

  /** OpenCV's `roi` accepts a rectangle only when it lies inside the image. */
  predicate RoiFits(r: Rect, cols: int, rows: int)
  {
    0 <= r.x && 0 <= r.w && r.x + r.w <= cols && 0 <= r.y && 0 <= r.h && r.y + r.h <= rows
  }

  /** A clamped rectangle is accepted by `roi` exactly when its corner is inside the image. */
  lemma ClampedRoiFits(x: int, y: int, w: int, h: int, maxW: int, maxH: int)
    ensures RoiFits(ClampRect(x, y, w, h, maxW, maxH), maxW, maxH) <==> Max(0, x) < maxW && Max(0, y) < maxH
  {
  }

  /** The crop of one field on a page already at canonical scale: the region
      grown by the margin on every side, then clamped. */
  function FieldCrop(region: Rect, cols: int, rows: int): Rect
  {
    ClampRect(region.x - FieldMargin, region.y - FieldMargin,
              region.w + 2 * FieldMargin, region.h + 2 * FieldMargin, cols, rows)
  }

  /** The value `extractTextFields` records for one field, given the OCR text
      of its crop: `[unreadable]` when the crop is rejected or the trimmed text is empty. */
  function FieldValue(region: Rect, cols: int, rows: int, ocrText: string): (v: string)
    ensures v != []
    ensures !RoiFits(FieldCrop(region, cols, rows), cols, rows) ==> v == Unreadable
    ensures RoiFits(FieldCrop(region, cols, rows), cols, rows) && JsText.Trim(ocrText) != [] ==>
              v == JsText.Trim(ocrText)
    ensures RoiFits(FieldCrop(region, cols, rows), cols, rows) ==>
              (v == Unreadable <==> JsText.Trim(ocrText) == [] || JsText.Trim(ocrText) == Unreadable)
  {
    if !RoiFits(FieldCrop(region, cols, rows), cols, rows) then Unreadable
    else
      var t := JsText.Trim(ocrText);
      if t == [] then Unreadable else t
  }

  datatype Fields = Fields(name: string, section: string)

  /** `extractTextFields` with the default regions on a rectified page. */
  function ExtractTextFields(cols: int, rows: int, nameText: string, sectionText: string): (f: Fields)
    ensures f.name != [] && f.section != []
    ensures f.name == Unreadable || f.name == JsText.Trim(nameText)
    ensures f.section == Unreadable || f.section == JsText.Trim(sectionText)
  {
    var regions := TextFieldRegions();
    Fields(FieldValue(regions.name, cols, rows, nameText), FieldValue(regions.section, cols, rows, sectionText))
  }

  /** On the canonical page both crops fit, so a field is `[unreadable]` only
      when OCR returned nothing but white space; one field never affects the other. */
  lemma CanonicalFieldsReadable(nameText: string, sectionText: string)
    ensures var f := ExtractTextFields(A4Width, A4Height, nameText, sectionText);
      (f.name == Unreadable <==> JsText.Trim(nameText) == [] || JsText.Trim(nameText) == Unreadable) &&
      (f.section == Unreadable <==> JsText.Trim(sectionText) == [] || JsText.Trim(sectionText) == Unreadable)
  {
    var regions := TextFieldRegions();
    ClampedRoiFits(regions.name.x - FieldMargin, regions.name.y - FieldMargin,
                   regions.name.w + 2 * FieldMargin, regions.name.h + 2 * FieldMargin, A4Width, A4Height);
    ClampedRoiFits(regions.section.x - FieldMargin, regions.section.y - FieldMargin,
                   regions.section.w + 2 * FieldMargin, regions.section.h + 2 * FieldMargin, A4Width, A4Height);
  }

  // ---------------------------------------------------------------------------
  // Fill selection

  /** The label a row of mask means yields: the first strictly greatest mean
      (the running maximum starts at minus infinity). */
  function RowAnswer(means: seq<real>): Option<char>
  {
    LabelAt(IndexOrMinusOne(FirstBest(means, None)))
  }

  /** The inner loop of `detectFilledBubbles` for one row. */
  method BrightestChoice(means: seq<real>) returns (filledIdx: int)
    ensures filledIdx == IndexOrMinusOne(FirstBest(means, None))
    ensures |means| == 0 <==> filledIdx == -1
    ensures filledIdx != -1 ==> 0 <= filledIdx < |means|
    ensures filledIdx != -1 ==> forall j :: 0 <= j < |means| ==> means[j] <= means[filledIdx]
    ensures filledIdx != -1 ==> forall j :: 0 <= j < filledIdx ==> means[j] < means[filledIdx]
  {
    var maxFill: real := 0.0;  // read only once filledIdx is set; stands for -Infinity before
    filledIdx := -1;
    ghost var best: Option<nat> := None;
    for j := 0 to |means|
      invariant best == FirstBest(means[..j], None)
      invariant filledIdx == IndexOrMinusOne(best)
      invariant best.Some? ==> best.value < j && maxFill == means[best.value]
    {
      BrightestStep(means, j, best, filledIdx, maxFill);
      if filledIdx == -1 || means[j] > maxFill {
        maxFill := means[j];
        filledIdx := j;
        best := Some(j);
      }
    }
    assert means[..|means|] == means;
  }

  /** One step of the row scan is one step of `FirstBest`. */
  lemma BrightestStep(means: seq<real>, j: nat, best: Option<nat>, filledIdx: int, maxFill: real)
    requires j < |means|
    requires best == FirstBest(means[..j], None)
    requires filledIdx == IndexOrMinusOne(best)
    requires best.Some? ==> best.value < j && maxFill == means[best.value]
    ensures (if filledIdx == -1 || means[j] > maxFill then Some(j) else best) == FirstBest(means[..j + 1], None)
  {
    FirstBestSnoc(means[..j], means[j], None);
    assert means[..j + 1] == means[..j] + [means[j]];
  }

  /** The answer loop of `detectFilledBubbles`: one label (or null) per row, in row order. */
  method DetectFilledBubbles(rowMeans: seq<seq<real>>) returns (answers: seq<Option<char>>)
    ensures |answers| == |rowMeans|
    ensures forall i :: 0 <= i < |rowMeans| ==> answers[i] == RowAnswer(rowMeans[i])
  {
    answers := [];
    for i := 0 to |rowMeans|
      invariant |answers| == i
      invariant forall k :: 0 <= k < i ==> answers[k] == RowAnswer(rowMeans[k])
    {
      var filledIdx := BrightestChoice(rowMeans[i]);
      answers := answers + [LabelAt(filledIdx)];
    }
  }

  /** A row of one to six bubbles always yields a letter, the one of its first
      brightest bubble, so equal means go to the lower letter; an empty row yields null. */
  lemma RowAnswerCases(means: seq<real>)
    ensures |means| == 0 ==> RowAnswer(means) == None
    ensures 1 <= |means| <= |ChoiceLetters| ==> exists k ::
              && 0 <= k < |means| && RowAnswer(means) == Some(ChoiceLetters[k])
              && (forall j :: 0 <= j < |means| ==> means[j] <= means[k])
              && (forall j :: 0 <= j < k ==> means[j] < means[k])
  {
    if 1 <= |means| <= |ChoiceLetters| {
      var k := FirstBest(means, None).value;
      assert RowAnswer(means) == Some(ChoiceLetters[k]);
    }
  }

  // ---------------------------------------------------------------------------
  // Page boundary

  datatype Point = Point(x: int, y: int)

  /** One contour found on the edge map: the vertices of its polygon
      approximation and the area of the contour itself. */
  datatype Contour = Contour(approx: seq<Point>, area: real)

  /** The four corners of the page in the order the warp maps them. */
  datatype Corners = Corners(tl: Point, tr: Point, br: Point, bl: Point)

  predicate IsQuad(c: Contour) { |c.approx| == 4 }

  /** The score of a contour in the page search: its area when it is a quadrilateral. */
  function QuadArea(c: Contour): real
  {
    if IsQuad(c) then c.area else 0.0
  }

  function QuadAreas(contours: seq<Contour>): (s: seq<real>)
    ensures |s| == |contours|
    ensures forall k :: 0 <= k < |contours| ==> s[k] == QuadArea(contours[k])
  {
    seq(|contours|, k requires 0 <= k < |contours| => QuadArea(contours[k]))
  }

  /** The contour the page search keeps: the first quadrilateral of strictly
      greatest area, where the area has to beat the starting maximum 0. */
  function PageContour(contours: seq<Contour>): Option<nat>
  {
    FirstBest(QuadAreas(contours), Some(0.0))
  }

  /** The search keeps no contour exactly when no quadrilateral has positive area;
      otherwise it keeps a quadrilateral of positive area that no other quadrilateral
      exceeds and that every earlier quadrilateral falls short of. */
  lemma PageContourSpec(contours: seq<Contour>)
    ensures PageContour(contours).None? <==>
              forall k :: 0 <= k < |contours| && IsQuad(contours[k]) ==> contours[k].area <= 0.0
    ensures PageContour(contours).Some? ==>
              var k := PageContour(contours).value;
              && k < |contours| && IsQuad(contours[k]) && contours[k].area > 0.0
              && (forall j :: 0 <= j < |contours| && IsQuad(contours[j]) ==> contours[j].area <= contours[k].area)
              && (forall j :: 0 <= j < k && IsQuad(contours[j]) ==> contours[j].area < contours[k].area)
  {
    var s := QuadAreas(contours);
    if PageContour(contours).None? {
      assert forall k :: 0 <= k < |contours| ==> !Above(s[k], Some(0.0));
    } else {
      var k := PageContour(contours).value;
      assert s[k] > 0.0;
    }
  }

  /** The contour loop of `warpToA4`. */
  method FindPageContour(contours: seq<Contour>) returns (page: Option<nat>)
    ensures page == PageContour(contours)
  {
    var maxArea: real := 0.0;
    page := None;
    var areas := QuadAreas(contours);
    for i := 0 to |contours|
      invariant page == FirstBest(areas[..i], Some(0.0))
      invariant page.None? ==> maxArea == 0.0
      invariant page.Some? ==> page.value < i && maxArea == contours[page.value].area && IsQuad(contours[page.value])
    {
      FirstBestSnoc(areas[..i], areas[i], Some(0.0));
      assert areas[..i + 1] == areas[..i] + [areas[i]];
      var cnt := contours[i];
      if |cnt.approx| == 4 {
        var area := cnt.area;
        if area > maxArea {
          maxArea := area;
          page := Some(i);
        }
      }
    }
    assert areas[..|contours|] == areas;
  }

  function YKey(p: Point): (int, int) { (p.y, 0) }

  /** Ordering the four corners: sort by y, then the left point of the top pair
      and of the bottom pair comes first (a tie in x puts the later point left). */
  function OrderCorners(pts: seq<Point>): (c: Corners)
    requires |pts| == 4
    ensures multiset([c.tl, c.tr, c.br, c.bl]) == multiset(pts)
    ensures c.tl.y <= c.bl.y && c.tl.y <= c.br.y && c.tr.y <= c.bl.y && c.tr.y <= c.br.y
    ensures c.tl.x <= c.tr.x && c.bl.x <= c.br.x
  {
    var s := Sorting.SortByKey(pts, YKey);
    SortedCorners(pts, s);
    var topLeftFirst := s[0].x < s[1].x;
    var bottomLeftFirst := s[2].x < s[3].x;
    var tl := if topLeftFirst then s[0] else s[1];
    var tr := if topLeftFirst then s[1] else s[0];
    var bl := if bottomLeftFirst then s[2] else s[3];
    var br := if bottomLeftFirst then s[3] else s[2];
    PairsPermute(s, !topLeftFirst, bottomLeftFirst);
    Corners(tl, tr, br, bl)
  }

  /** Swapping within the first pair and within the second pair permutes a sequence of four. */
  lemma PairsPermute(s: seq<Point>, swapTop: bool, swapBottom: bool)
    requires |s| == 4
    ensures multiset([if swapTop then s[1] else s[0], if swapTop then s[0] else s[1],
                      if swapBottom then s[3] else s[2], if swapBottom then s[2] else s[3]]) == multiset(s)
  {
    var a, b, c, d := s[0], s[1], s[2], s[3];
    assert s == [a, b, c, d];
    if swapTop && swapBottom {
      SwapFront(a, b, d, c);
      SwapBack(a, b, c, d);
    } else if swapTop {
      SwapFront(a, b, c, d);
    } else if swapBottom {
      SwapBack(a, b, c, d);
    }
  }

  lemma SwapFront(a: Point, b: Point, c: Point, d: Point)
    ensures multiset([b, a, c, d]) == multiset([a, b, c, d])
  {
    assert [b, a, c, d] == [b, a] + [c, d];
    assert [a, b, c, d] == [a, b] + [c, d];
    assert multiset([b, a]) == multiset([a, b]);
  }

  lemma SwapBack(a: Point, b: Point, c: Point, d: Point)
    ensures multiset([a, b, d, c]) == multiset([a, b, c, d])
  {
    assert [a, b, d, c] == [a, b] + [d, c];
    assert [a, b, c, d] == [a, b] + [c, d];
    assert multiset([d, c]) == multiset([c, d]);
  }

  lemma SortedCorners(pts: seq<Point>, s: seq<Point>)
    requires |pts| == 4 && |s| == 4
    requires Sorting.SortedBy(s, YKey) && multiset(s) == multiset(pts)
    ensures s[0].y <= s[2].y && s[0].y <= s[3].y && s[1].y <= s[2].y && s[1].y <= s[3].y
  {
    assert Sorting.KeyLe(YKey(s[0]), YKey(s[2])) && Sorting.KeyLe(YKey(s[0]), YKey(s[3]));
    assert Sorting.KeyLe(YKey(s[1]), YKey(s[2])) && Sorting.KeyLe(YKey(s[1]), YKey(s[3]));
  }

  /** `warpToA4`: the ordered corners of the kept contour, or nothing. */
  method WarpToA4(contours: seq<Contour>) returns (corners: Option<Corners>)
    ensures corners.None? <==> PageContour(contours).None?
    ensures corners.Some? ==> PageContour(contours).value < |contours|
    ensures corners.Some? ==> corners.value == OrderCorners(contours[PageContour(contours).value].approx)
  {
    var page := FindPageContour(contours);
    PageContourSpec(contours);
    if page.Some? {
      corners := Some(OrderCorners(contours[page.value].approx));
    } else {
      corners := None;
    }
  }

  /** The image the recogniser samples: the warped page, or the photograph itself. */
  datatype Frame = Rectified(corners: Corners) | PassThrough

  /** `if (!warped) warped = src`: a failed search leaves the source image in use. */
  function NormalizedFrame(corners: Option<Corners>): (f: Frame)
    ensures f.PassThrough? <==> corners.None?
    ensures f.Rectified? ==> f.corners == corners.value
  {
    if corners.Some? then Rectified(corners.value) else PassThrough
  }

  /** The recogniser falls back to the unwarped image exactly when no
      quadrilateral contour of positive area exists; in particular a page
      whose only quadrilaterals have zero area is never warped. */
  lemma PassThroughIffNoQuad(contours: seq<Contour>, corners: Option<Corners>)
    requires corners.None? <==> PageContour(contours).None?
    ensures NormalizedFrame(corners).PassThrough? <==>
              forall k :: 0 <= k < |contours| && IsQuad(contours[k]) ==> contours[k].area <= 0.0
  {
    PageContourSpec(contours);
  }
}
