/** The printable sheet: defaults for the form values, the answer letters, and
    the page by page layout of headings, question numbers and bubbles. Pages
    hold up to 50 questions, split into groups of 10 or 20 drawn side by side
    and centred on the page. */
module Generate {
  import opened Common
  import opened JsText

  // ---------------------------------------------------------------------------
  // Form values

  /** `parseInt(form.numItems) || 50`. */
  function NumItemsFrom(text: string): (n: int)
    ensures n != 0
    ensures ParseInt(text).Some? && ParseInt(text).value != 0 ==> n == ParseInt(text).value
    ensures ParseInt(text).None? || ParseInt(text).value == 0 ==> n == 50
  {
    OrDefault(ParseInt(text), 50)
  }

  /** `parseInt(form.numChoices) || 4`. */
  function NumChoicesFrom(text: string): (n: int)
    ensures n != 0
    ensures ParseInt(text).Some? && ParseInt(text).value != 0 ==> n == ParseInt(text).value
    ensures ParseInt(text).None? || ParseInt(text).value == 0 ==> n == 4
  {
    OrDefault(ParseInt(text), 4)
  }

  /** A numeral reads as its value, except that 0 falls back to the default; text
      without digits falls back too. */
  lemma DefaultsFromText(n: nat, text: string)
    ensures NumItemsFrom(DecimalString(n)) == (if n == 0 then 50 else n)
    ensures NumChoicesFrom(DecimalString(n)) == (if n == 0 then 4 else n)
    ensures LeadingDigits(SignFree(TrimStart(text))) == [] ==> NumItemsFrom(text) == 50 && NumChoicesFrom(text) == 4
  {
    ParseIntDecimal(n);
  }

  /** `['A', …, 'F'].slice(0, numChoices)`. */
  function ChoiceLabels(numChoices: int): (labels: seq<char>)
    ensures 0 <= numChoices <= |ChoiceLetters| ==> labels == ChoiceLetters[..numChoices]
    ensures numChoices > |ChoiceLetters| ==> labels == ChoiceLetters
  {
    PrefixSlice(ChoiceLetters, numChoices)
  }

  /** The options of the choice-count menu. */
  const NumChoicesOptions: seq<string> :=
    ["2 (A, B)", "3 (A, B, C)", "4 (A, B, C, D)", "5 (A, B, C, D, E)", "6 (A, B, C, D, E, F)"]

  /** `option.split(' ')[0]`: the value stored when a menu option is picked. */
  function SelectedNumChoices(option: string): (token: string)
    ensures |token| <= |option| && token == option[..|token|]
    ensures ' ' !in token
    ensures |token| < |option| ==> option[|token|] == ' '
  {
    FirstToken(option)
  }

  /** Picking option `k` stores the numeral `k + 2`, which reads back as `k + 2`
      choices labelled with the first `k + 2` letters. */
  lemma {:induction false} OptionsStoreTheirCount(k: nat)
    requires k < |NumChoicesOptions|
    ensures SelectedNumChoices(NumChoicesOptions[k]) == DecimalString(k + 2)
    ensures NumChoicesFrom(SelectedNumChoices(NumChoicesOptions[k])) == k + 2
    ensures ChoiceLabels(NumChoicesFrom(SelectedNumChoices(NumChoicesOptions[k]))) == ChoiceLetters[..k + 2]
  {
    var option := NumChoicesOptions[k];
    assert |option| >= 2 && option[0] == DigitChar(k + 2) && option[1] == ' ';
    OptionReads(option, k + 2);
  }

  /** An option that starts with the digit of `n` and a space stores `n`. */
  lemma {:induction false} OptionReads(option: string, n: nat)
    requires 2 <= n <= |ChoiceLetters|
    requires |option| >= 2 && option[0] == DigitChar(n) && option[1] == ' '
    ensures SelectedNumChoices(option) == DecimalString(n)
    ensures NumChoicesFrom(SelectedNumChoices(option)) == n
    ensures ChoiceLabels(NumChoicesFrom(SelectedNumChoices(option))) == ChoiceLetters[..n]
  {
    assert FirstToken(option[1..]) == [];
    assert DecimalString(n) == [DigitChar(n)];
    ParseIntDecimal(n);
  }

  // ---------------------------------------------------------------------------
  // Pages

  const QuestionsPerPage: nat := 50

  /** The number of pages the page loop produces for `numItems` questions. */
  function PageCount(numItems: int): nat
  {
    if numItems < 1 then 0 else (numItems + QuestionsPerPage - 1) / QuestionsPerPage
  }

  /** The group size for a page of `questions` questions. */
  function GroupSizeFor(questions: int): (size: nat)
    ensures size > 0
  {
    if questions <= 30 then 10 else if questions <= 60 then 20 else if questions <= 100 then 25 else 30
  }

  /** `Math.ceil(a / b)` for a non-negative `a` and a positive `b`. */
  function CeilDiv(a: nat, b: nat): nat
    requires b > 0
  {
    (a + b - 1) / b
  }

  // Layout constants, in points.
  const GroupGap: real := 32.0
  const BubbleR: real := 7.0
  const RowH: real := 22.0
  const ColW: real := 20.0
  const NumW: real := 20.0

  /** Where the header leaves off: `renderHeader(48)` adds 22, 18, 28, 24, 36 and 48. */
  const HeadingY: real := 48.0 + 22.0 + 18.0 + 28.0 + 24.0 + 36.0 + 48.0

  /** The first row of bubbles starts 10 points under the letter headings. */
  const GridY: real := HeadingY + 10.0

  function GroupWidth(numChoices: int): real
  {
    NumW + (numChoices as real) * ColW
  }

  /** The left edge of group `g`, the groups being centred on the page. */
  function GroupX(pageWidth: real, numGroups: nat, numChoices: int, g: int): real
  {
    var gridWidth := (numGroups as real) * GroupWidth(numChoices) + ((numGroups as real) - 1.0) * GroupGap;
    var gridStartX := (pageWidth - gridWidth) / 2.0;
    gridStartX + (g as real) * (GroupWidth(numChoices) + GroupGap)
  }

  datatype Circle = Circle(x: real, y: real, r: real)
  datatype Heading = Heading(letter: char, x: real, y: real)
  datatype Question = Question(number: int, numberX: real, numberY: real, bubbles: seq<Circle>)
  datatype Page = Page(start: int, end: int, groupSize: nat, numGroups: nat,
                       headings: seq<seq<Heading>>, questions: seq<Question>)

  /** The centre x of choice `c` in a group whose left edge is `x`. */
  function ChoiceX(x: real, c: int): real
  {
    x + NumW + (c as real) * ColW + ColW / 2.0
  }

  /** The bubbles of one question row. */
  function RowBubbles(x: real, yRow: real, numChoices: int): (bubbles: seq<Circle>)
  {
    seq(Max(0, numChoices), c requires 0 <= c < Max(0, numChoices) => Circle(ChoiceX(x, c), yRow + BubbleR + 5.0, BubbleR))
  }

  /** The question drawn in row `i` of group `g`. */
  function QuestionAt(pageWidth: real, numGroups: nat, numChoices: int, i: int, g: int, qNum: int): Question
  {
    var x := GroupX(pageWidth, numGroups, numChoices, g);
    var yRow := GridY + (i as real) * RowH;
    Question(qNum, x + NumW / 2.0, yRow + BubbleR + 5.0 + BubbleR - 1.0, RowBubbles(x, yRow, numChoices))
  }

  function HeadingAt(pageWidth: real, numGroups: nat, numChoices: int, labels: seq<char>, g: int, c: int): Heading
    requires 0 <= c < |labels|
  {
    Heading(labels[c], ChoiceX(GroupX(pageWidth, numGroups, numChoices, g), c), HeadingY)
  }

  /** In a row the bubbles are `colW` apart, share the y `yRow + bubbleR + 5`
      and have radius 7; the next row is `rowH` lower. */
  lemma RowGeometry(pageWidth: real, numGroups: nat, numChoices: int, i: int, g: int, qNum: int, c: nat)
    requires c + 1 < numChoices
    ensures var q := QuestionAt(pageWidth, numGroups, numChoices, i, g, qNum);
            && |q.bubbles| == numChoices
            && q.bubbles[c + 1].x == q.bubbles[c].x + ColW
            && q.bubbles[c + 1].y == q.bubbles[c].y == GridY + (i as real) * RowH + BubbleR + 5.0
            && q.bubbles[c].r == BubbleR
    ensures QuestionAt(pageWidth, numGroups, numChoices, i + 1, g, qNum).bubbles[c].y
            == QuestionAt(pageWidth, numGroups, numChoices, i, g, qNum).bubbles[c].y + RowH
  {
  }

  /** Each letter heading is centred above its column of bubbles. */
  lemma HeadingAboveBubbles(pageWidth: real, numGroups: nat, numChoices: int, labels: seq<char>, i: int, g: int, qNum: int, c: nat)
    requires c < |labels| && c < numChoices && i >= 0
    ensures HeadingAt(pageWidth, numGroups, numChoices, labels, g, c).x
            == QuestionAt(pageWidth, numGroups, numChoices, i, g, qNum).bubbles[c].x
    ensures HeadingAt(pageWidth, numGroups, numChoices, labels, g, c).y
            < QuestionAt(pageWidth, numGroups, numChoices, i, g, qNum).bubbles[c].y - BubbleR
  {
  }

  /** The grid of groups is centred: the space left of the first group equals
      the space right of the last one. */
  lemma GridCentred(pageWidth: real, numGroups: nat, numChoices: int)
    requires numGroups >= 1
    ensures GroupX(pageWidth, numGroups, numChoices, 0)
            == pageWidth - (GroupX(pageWidth, numGroups, numChoices, numGroups - 1) + GroupWidth(numChoices))
  {
  }

  /** Question numbers of a sequence of drawn questions. */
  function Numbers(qs: seq<Question>): (ns: seq<int>)
    ensures |ns| == |qs|
    ensures forall k :: 0 <= k < |qs| ==> ns[k] == qs[k].number
  {
    seq(|qs|, k requires 0 <= k < |qs| => qs[k].number)
  }

  /** Row `i` and group `g` are determined by a question's offset from the page start. */
  lemma SlotOf(g: nat, i: nat, size: nat)
    requires i < size
    ensures (g * size + i) / size == g && (g * size + i) % size == i
  {
    var d := g * size + i;
    var q, r := d / size, d % size;
    assert d == q * size + r && 0 <= r < size;
    assert (q - g) * size == i - r;
    if q - g >= 1 {
      MulLower(q - g, size);
    } else if g - q >= 1 {
      MulLower(g - q, size);
    }
    assert q == g;
  }

  /** A positive multiple of a positive number is at least that number. */
  lemma MulLower(k: int, m: int)
    requires m > 0 && k >= 1
    ensures k * m >= m
  {
  }

  /** Every offset on the page falls into one of the `numGroups` groups. */
  lemma OffsetInSomeGroup(d: nat, questions: nat, size: nat)
    requires d < questions && size > 0
    ensures d / size < CeilDiv(questions, size)
  {
    var c := CeilDiv(questions, size);
    assert questions + size - 1 < (c + 1) * size;
    assert questions <= c * size;
    assert (d / size) * size <= d;
  }

  /** The slot (row, group) of `q` comes before the slot (i, g) in drawing order. */
  predicate DrawnBefore(q: int, start: int, size: nat, i: int, g: int)
    requires size > 0
  {
    (q - start) % size < i || ((q - start) % size == i && (q - start) / size < g)
  }

  /** One page: headings for each group, then the `(i, g)` loops that draw
      question `pageStart + g * localGroupSize + i` unless it lies past `pageEnd`. */
  method LayoutPage(pageStart: int, pageEnd: int, numChoices: int, labels: seq<char>, pageWidth: real)
    returns (page: Page)
    requires pageStart <= pageEnd < pageStart + QuestionsPerPage
    ensures page.start == pageStart && page.end == pageEnd
    ensures page.groupSize == (if pageEnd - pageStart + 1 <= 30 then 10 else 20)
    ensures page.numGroups == CeilDiv(pageEnd - pageStart + 1, page.groupSize)
    ensures |page.headings| == page.numGroups
    ensures forall g :: 0 <= g < page.numGroups ==> |page.headings[g]| == |labels|
    ensures forall g, c :: 0 <= g < page.numGroups && 0 <= c < |page.headings[g]| ==>
              page.headings[g][c] == HeadingAt(pageWidth, page.numGroups, numChoices, labels, g, c)
    ensures forall q :: q in Numbers(page.questions) <==> pageStart <= q <= pageEnd
    ensures Distinct(Numbers(page.questions))
    ensures forall k :: 0 <= k < |page.questions| ==>
              var n := page.questions[k].number;
              page.questions[k] == QuestionAt(pageWidth, page.numGroups, numChoices,
                (n - pageStart) % page.groupSize, (n - pageStart) / page.groupSize, n)
  {
    var pageQuestions := pageEnd - pageStart + 1;
    var localGroupSize := GroupSizeFor(pageQuestions);
    var numGroups := CeilDiv(pageQuestions, localGroupSize);
    var headings := DrawHeadings(numGroups, numChoices, labels, pageWidth);
    var questions: seq<Question> := [];
    for i := 0 to localGroupSize
      invariant forall q :: q in Numbers(questions) <==> pageStart <= q <= pageEnd && DrawnBefore(q, pageStart, localGroupSize, i, 0)
      invariant Distinct(Numbers(questions))
      invariant forall k :: 0 <= k < |questions| ==>
                  var n := questions[k].number;
                  questions[k] == QuestionAt(pageWidth, numGroups, numChoices, (n - pageStart) % localGroupSize, (n - pageStart) / localGroupSize, n)
    {
      for g := 0 to numGroups
        invariant forall q :: q in Numbers(questions) <==> pageStart <= q <= pageEnd && DrawnBefore(q, pageStart, localGroupSize, i, g)
        invariant Distinct(Numbers(questions))
        invariant forall k :: 0 <= k < |questions| ==>
                    var n := questions[k].number;
                    questions[k] == QuestionAt(pageWidth, numGroups, numChoices, (n - pageStart) % localGroupSize, (n - pageStart) / localGroupSize, n)
      {
        var qNum := pageStart + g * localGroupSize + i;
        if qNum > pageEnd {
          continue;
        }
        SlotOf(g, i, localGroupSize);
        assert qNum - pageStart == g * localGroupSize + i;
        var question := DrawQuestion(pageWidth, numGroups, numChoices, i, g, qNum);
        AppendQuestion(questions, question, pageStart, pageEnd, localGroupSize, i, g);
        questions := questions + [question];
      }
      RowComplete(pageStart, pageEnd, localGroupSize, i, numGroups);
    }
    assert forall q :: pageStart <= q <= pageEnd ==> DrawnBefore(q, pageStart, localGroupSize, localGroupSize, 0);
    page := Page(pageStart, pageEnd, localGroupSize, numGroups, headings, questions);
  }

  /** Once row `i` has been drawn in every group, every question of the page
      whose row is `i` has been drawn. */
  lemma RowComplete(pageStart: int, pageEnd: int, size: nat, i: int, numGroups: nat)
    requires size > 0 && pageStart <= pageEnd
    requires numGroups == CeilDiv(pageEnd - pageStart + 1, size)
    ensures forall q :: pageStart <= q <= pageEnd ==>
              (DrawnBefore(q, pageStart, size, i, numGroups) <==> DrawnBefore(q, pageStart, size, i + 1, 0))
  {
    forall q | pageStart <= q <= pageEnd
      ensures DrawnBefore(q, pageStart, size, i, numGroups) <==> DrawnBefore(q, pageStart, size, i + 1, 0)
    {
      OffsetInSomeGroup(q - pageStart, pageEnd - pageStart + 1, size);
    }
  }

  /** Appending the question of slot (i, g) extends the drawn set by exactly that number. */
  lemma AppendQuestion(questions: seq<Question>, question: Question, pageStart: int, pageEnd: int, size: nat, i: int, g: int)
    requires size > 0
    requires pageStart <= question.number <= pageEnd
    requires (question.number - pageStart) % size == i && (question.number - pageStart) / size == g
    requires forall q :: q in Numbers(questions) <==> pageStart <= q <= pageEnd && DrawnBefore(q, pageStart, size, i, g)
    requires Distinct(Numbers(questions))
    ensures forall q :: q in Numbers(questions + [question]) <==> pageStart <= q <= pageEnd && DrawnBefore(q, pageStart, size, i, g + 1)
    ensures Distinct(Numbers(questions + [question]))
  {
    assert Numbers(questions + [question]) == Numbers(questions) + [question.number];
    assert question.number !in Numbers(questions);
  }

  /** The letter headings of every group. */
  method DrawHeadings(numGroups: nat, numChoices: int, labels: seq<char>, pageWidth: real)
    returns (headings: seq<seq<Heading>>)
    ensures |headings| == numGroups
    ensures forall g :: 0 <= g < numGroups ==> |headings[g]| == |labels|
    ensures forall g, c :: 0 <= g < numGroups && 0 <= c < |labels| ==>
              headings[g][c] == HeadingAt(pageWidth, numGroups, numChoices, labels, g, c)
  {
    headings := [];
    for g := 0 to numGroups
      invariant |headings| == g
      invariant forall h :: 0 <= h < g ==> |headings[h]| == |labels|
      invariant forall h, c :: 0 <= h < g && 0 <= c < |labels| ==>
                  headings[h][c] == HeadingAt(pageWidth, numGroups, numChoices, labels, h, c)
    {
      var x := GroupX(pageWidth, numGroups, numChoices, g);
      var row: seq<Heading> := [];
      for cidx := 0 to |labels|
        invariant |row| == cidx
        invariant forall c :: 0 <= c < cidx ==> row[c] == HeadingAt(pageWidth, numGroups, numChoices, labels, g, c)
      {
        row := row + [Heading(labels[cidx], x + NumW + (cidx as real) * ColW + ColW / 2.0, HeadingY)];
      }
      headings := headings + [row];
    }
  }

  /** One question: its number left of the group and a circle per choice. */
  method DrawQuestion(pageWidth: real, numGroups: nat, numChoices: int, i: int, g: int, qNum: int)
    returns (question: Question)
    ensures question == QuestionAt(pageWidth, numGroups, numChoices, i, g, qNum)
  {
    var x := GroupX(pageWidth, numGroups, numChoices, g);
    var yRow := GridY + (i as real) * RowH;
    var cx := x + NumW / 2.0;
    var cy := yRow + BubbleR + 5.0;
    var bubbles: seq<Circle> := [];
    var cidx := 0;
    while cidx < numChoices
      invariant 0 <= cidx <= Max(0, numChoices)
      invariant bubbles == RowBubbles(x, yRow, numChoices)[..cidx]
    {
      bubbles := bubbles + [Circle(x + NumW + (cidx as real) * ColW + ColW / 2.0, yRow + BubbleR + 5.0, BubbleR)];
      cidx := cidx + 1;
    }
    assert bubbles == RowBubbles(x, yRow, numChoices);
    question := Question(qNum, cx, cy + BubbleR - 1.0, bubbles);
  }

  /** The page loop: pages start at 1, 51, 101, … while the start does not pass
      `numItems`, each ending 49 questions later or at `numItems`. */
  method GeneratePages(numItems: int, numChoices: int, pageWidth: real) returns (pages: seq<Page>)
    ensures |pages| == PageCount(numItems)
    ensures forall p :: 0 <= p < |pages| ==>
              && pages[p].start == 1 + QuestionsPerPage * p
              && pages[p].end == Min(pages[p].start + QuestionsPerPage - 1, numItems)
              && pages[p].start <= pages[p].end
    ensures forall p :: 0 <= p < |pages| ==>
              forall q :: q in Numbers(pages[p].questions) <==> pages[p].start <= q <= pages[p].end
    ensures forall p :: 0 <= p < |pages| ==> Distinct(Numbers(pages[p].questions))
  {
    var labels := ChoiceLabels(numChoices);
    pages := [];
    var pageStart := 1;
    var page := 0;
    while pageStart <= numItems
      invariant pageStart == 1 + QuestionsPerPage * page
      invariant |pages| == page
      invariant page > 0 ==> pageStart - QuestionsPerPage <= numItems
      invariant forall p :: 0 <= p < page ==>
                  && pages[p].start == 1 + QuestionsPerPage * p
                  && pages[p].end == Min(pages[p].start + QuestionsPerPage - 1, numItems)
                  && pages[p].start <= pages[p].end
      invariant forall p :: 0 <= p < page ==>
                  forall q :: q in Numbers(pages[p].questions) <==> pages[p].start <= q <= pages[p].end
      invariant forall p :: 0 <= p < page ==> Distinct(Numbers(pages[p].questions))
      decreases numItems - pageStart
    {
      var pageEnd := Min(pageStart + QuestionsPerPage - 1, numItems);
      var laid := LayoutPage(pageStart, pageEnd, numChoices, labels, pageWidth);
      pages := pages + [laid];
      pageStart := pageStart + QuestionsPerPage;
      page := page + 1;
    }
    PageCountIs(numItems, page);
  }

  lemma PageCountIs(numItems: int, page: nat)
    requires 1 + QuestionsPerPage * page > numItems
    requires page > 0 ==> 1 + QuestionsPerPage * (page - 1) <= numItems
    ensures page == PageCount(numItems)
  {
    if numItems >= 1 {
      var n := numItems + QuestionsPerPage - 1;
      assert QuestionsPerPage * page <= n < QuestionsPerPage * (page + 1);
    }
  }

  /** Every question from 1 to `numItems` is on exactly one page: page `(q - 1) / 50`. */
  lemma QuestionOnOnePage(numItems: int, q: int, p: nat)
    requires 1 <= q <= numItems
    ensures p < PageCount(numItems) && 1 + QuestionsPerPage * p <= q <= Min(QuestionsPerPage * p + QuestionsPerPage, numItems)
            <==> p == (q - 1) / QuestionsPerPage
  {
    var n := numItems + QuestionsPerPage - 1;
    assert (q - 1) / QuestionsPerPage * QuestionsPerPage <= q - 1;
    assert q - 1 < ((q - 1) / QuestionsPerPage + 1) * QuestionsPerPage;
  }
}
