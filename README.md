# Bubble-sheet engine, modelled in Dafny

The system prints multiple-choice answer sheets, keeps an answer key for each sheet, and reads photographed or scanned sheets back. It then scores each sheet against its key. Five pieces of its code make up the engine modelled here:

- **The printable sheet** (`frontend/src/pages/generate.jsx`, module `Generate`): the form defaults for the number of items and choices, and the answer letters. It also builds the page-by-page layout. Pages hold up to 50 questions, split into groups of 10 or 20 rows that are drawn side by side and centred. Each group has letter headings, question numbers and one circle per choice.
- **The browser recogniser** (`frontend/src/utils/imageProcessing.js`, module `ImageProcessing`):
  - the canonical two-column bubble layout;
  - the identity-field regions and the clamping of their crops;
  - the "brightest mask mean wins" rule for each row;
  - choosing the page outline among the contours, and ordering its four corners.
- **The upload page** (`frontend/src/pages/upload.jsx`, module `Upload`):
  - finding bubbles by the shape of their bounding rectangles;
  - reading order, and grouping rows with a tolerance of 20;
  - keeping only rows of four;
  - the "darkest bubble below 255" rule;
  - the `'-'`-sentinel scorer with its score, total and percentage;
  - the file-type filter and file removal.
- **The checking service** (`backend/app.py`, module `Backend`):
  - layout parameters with their defaults;
  - the bubble-coordinate loop;
  - thresholded fill detection;
  - mapping indices to letters;
  - `zip`-based scoring.
- **The answer-key editor** (`frontend/src/pages/answer.jsx`, module `AnswerKey`):
  - when it renders at all;
  - splitting the items into one to three columns;
  - normalising a stored key to the number of items;
  - the editor's state (`answers`, `lastSaved`, edit mode, the "Saved!" flash and the stored key), as the class `AnswerKeyEditor` whose methods are the handlers.

Four support modules hold what the pieces share:

- `Common`: options, rectangles, the letters A–F, `filter`, `slice`, ranges.
- `Selection`: `FirstBest`, the "strictly better than the running best" rule that all three recognisers use with different scores and floors.
- `Sorting`: the stable sort behind both calls to `Array.prototype.sort`.
- `JsText`: `parseInt`, `trim`, `split(' ')[0]`, `startsWith`/`endsWith` and `toLowerCase`.

Loops in the source are methods whose loop invariants tie them to a specification function. Properties of those functions are lemmas.

## Model

| member | source | states |
|---|---|---|
| Common.LabelAt | frontend/src/utils/imageProcessing.js:52-53 | An index yields a letter exactly when it lies in 0..5, and then the letter at that position of A..F; -1 and indices past F yield nothing |
| Common.Filter | frontend/src/pages/upload.jsx:65-69 | The kept elements are no more than the input, and an element is kept exactly when it is in the input and passes the predicate |
| Common.FilterConcat | frontend/src/pages/upload.jsx:244 | Filtering a concatenation is the concatenation of the filtered parts, so filtering keeps relative order |
| Common.FilterKeepsAll | frontend/src/pages/upload.jsx:71-73 | A filter keeps the full length exactly when every element passes |
| Common.PrefixSlice | frontend/src/pages/generate.jsx:131 | `slice(0, n)` / `[:n]` is a prefix of length `min(n, len)` for `n >= 0`, and of length `max(0, len + n)` for negative `n` |
| Common.Range | frontend/src/pages/answer.jsx:24 | `start + i` for `i` below `count`: length `max(0, b - a)`, entry `i` equal to `a + i` |
| Selection.FirstBest | frontend/src/utils/imageProcessing.js:39-50 | The running-best scan yields nothing exactly when no score strictly beats the floor. Otherwise it yields an index above the floor, no smaller than any score, and strictly greater than every earlier one (ties go to the first) |
| Sorting.SortByKey | frontend/src/pages/upload.jsx:221 | The sort is a permutation of its input, of the same length, ordered by the lexicographic key |
| Sorting.InsertKeepsTies | frontend/src/pages/upload.jsx:221 | Inserting an element places it before every element of the same key, leaving their order as it was |
| Sorting.SortByKeyStable | frontend/src/pages/upload.jsx:221 | The sort is stable: for every key, the elements with that key come out in their input order |
| JsText.Trim | frontend/src/utils/imageProcessing.js:108 | The result is a contiguous slice of the input, with only white space cut off on either side, and neither starts nor ends with white space |
| JsText.ParseInt | frontend/src/pages/generate.jsx:129-130 | `parseInt` gives NaN exactly when no digit follows the leading white space and the optional sign |
| JsText.ParseIntReads | frontend/src/pages/generate.jsx:129-130 | White space, an optional `+` or `-`, a run of digits and any text not starting with a digit parse to the signed value of the digits: the trailing text is ignored |
| JsText.ParseIntNumeral | frontend/src/pages/generate.jsx:129-130 | The same for a canonical numeral of `n`: the result is `n`, or `-n` after a minus sign |
| JsText.OrDefault | frontend/src/pages/generate.jsx:129-130 | `x \|\| d` on a parse result: the parsed value unless it is NaN or 0, then the default |
| JsText.ParseIntDecimal | frontend/src/pages/generate.jsx:129-130 | Every decimal numeral parses back to its own value |
| JsText.FirstToken | frontend/src/pages/generate.jsx:73 | `split(' ')[0]` is the longest space-free prefix, followed by a space or by the end of the text |
| JsText.ToLower | frontend/src/pages/upload.jsx:68 | Lower-casing keeps the length and maps each character on its own |
| ImageProcessing.GetBubblePositions | frontend/src/utils/imageProcessing.js:124-158 | Exactly `numItems` rows, each of exactly `numChoices` bubbles. Bubble `c` of item `i` sits in column `i / 25`, row `i % 25`, at the layout position for that slot. Defined only while the two-entry column table covers every item (at most 50) |
| ImageProcessing.ChoiceSpacing | frontend/src/utils/imageProcessing.js:147-153 | Every bubble has radius 7. Neighbouring choices of an item share y and lie exactly 20 apart in x |
| ImageProcessing.SecondColumn | frontend/src/utils/imageProcessing.js:143-146 | Item `i + 25` is item `i` moved right by one column width, at the same height |
| ImageProcessing.BubblesOnPage | frontend/src/utils/imageProcessing.js:128-153 | For 1 to 6 choices every bubble circle lies inside the 595 x 842 page |
| ImageProcessing.TextFieldRegions | frontend/src/utils/imageProcessing.js:161-167 | The name box is 200 x 24 at x 48 and y 88, and the section box lies directly below it |
| ImageProcessing.ClampRect | frontend/src/utils/imageProcessing.js:230-237 | The clamped corner is at least 0 and at most the given corner pushed to 0; width and height are at least 1 and never exceed the larger of 1 and the given size. When the corner is inside the image, the rectangle ends inside it |
| ImageProcessing.ClampIdempotent | frontend/src/utils/imageProcessing.js:230-237 | Clamping twice is clamping once |
| ImageProcessing.ClampInside | frontend/src/utils/imageProcessing.js:230-237 | A rectangle already inside the image is returned unchanged |
| ImageProcessing.ClampedRoiFits | frontend/src/utils/imageProcessing.js:89-98 | A clamped crop is accepted as a region of interest exactly when its corner lies inside the image |
| ImageProcessing.FieldValue | frontend/src/utils/imageProcessing.js:80-108 | A field value is never empty. A rejected crop gives `[unreadable]`; an accepted crop with non-blank text gives the trimmed text. For an accepted crop the value is `[unreadable]` exactly when the text trims to nothing or to that marker |
| ImageProcessing.ExtractTextFields | frontend/src/utils/imageProcessing.js:72-116 | Both fields are non-empty, and each is either `[unreadable]` or its own trimmed OCR text |
| ImageProcessing.NormalizedFrame | frontend/src/utils/imageProcessing.js:20-21 | The source image is used exactly when no corners were found; otherwise the page is warped with the corners found |
| ImageProcessing.CanonicalFieldsReadable | frontend/src/utils/imageProcessing.js:72-112 | On the canonical page each field is `[unreadable]` exactly when its own OCR text trims to nothing (or to that marker itself), independently of the other field |
| ImageProcessing.BrightestChoice | frontend/src/utils/imageProcessing.js:39-51 | The inner loop computes `FirstBest` from minus infinity: -1 exactly for an empty row, otherwise an index whose mean is the greatest and strictly exceeds every earlier mean |
| ImageProcessing.DetectFilledBubbles | frontend/src/utils/imageProcessing.js:36-54 | One answer per row, in row order, each the row's label |
| ImageProcessing.RowAnswerCases | frontend/src/utils/imageProcessing.js:39-53 | An empty row yields null. A row of 1 to 6 bubbles always yields the letter of its first brightest bubble, so ties go to the lower letter |
| ImageProcessing.QuadAreas | frontend/src/utils/imageProcessing.js:189-191 | A contour competes with its area when its approximation has four vertices, and with 0 otherwise |
| ImageProcessing.PageContourSpec | frontend/src/utils/imageProcessing.js:182-201 | No contour is kept exactly when no quadrilateral has positive area. Otherwise the kept one is a quadrilateral of positive area that no quadrilateral exceeds and every earlier quadrilateral falls short of |
| ImageProcessing.FindPageContour | frontend/src/utils/imageProcessing.js:182-201 | The contour loop, starting from `maxArea = 0`, keeps exactly the page contour of the specification |
| ImageProcessing.OrderCorners | frontend/src/utils/imageProcessing.js:205-211 | The four corners are a permutation of the input points. Both top corners are no lower than both bottom corners, and `tl.x <= tr.x`, `bl.x <= br.x` |
| ImageProcessing.WarpToA4 | frontend/src/utils/imageProcessing.js:170-228 | Gives no corners exactly when no page contour is found. Otherwise gives the ordered corners of the kept contour |
| ImageProcessing.PassThroughIffNoQuad | frontend/src/utils/imageProcessing.js:20-21 | The recogniser samples the unwarped image exactly when no quadrilateral of positive area exists, so zero-area quadrilaterals never trigger a warp |
| Upload.CollectBubbles | frontend/src/pages/upload.jsx:211-218 | The contour loop keeps, in order, exactly the bubble-shaped rectangles (width 16..49, width and height within 9) |
| Upload.ReadingOrder | frontend/src/pages/upload.jsx:221 | The sorted bubbles are a permutation of the candidates, top to bottom and, on one line, left to right |
| Upload.JoinRow | frontend/src/pages/upload.jsx:231-233 | A bubble within the tolerance of the open row, or the very first bubble, joins it and keeps the grouping state |
| Upload.BreakRow | frontend/src/pages/upload.jsx:234-238 | A bubble at least the tolerance away closes the open row and opens a new one, keeping the grouping state |
| Upload.GroupRows | frontend/src/pages/upload.jsx:226-241 | Concatenating the rows gives back the sorted bubbles. Rows are non-empty, neighbours in a row differ by less than 20 in y, and a new row starts where the gap to the previous bubble is at least 20 |
| Upload.KeepFullRows | frontend/src/pages/upload.jsx:244 | Every kept row has exactly four bubbles, and a row is kept exactly when it had four |
| Upload.KeepFullRowsConcat | frontend/src/pages/upload.jsx:244 | The length filter keeps row order |
| Upload.DarkestSpec | frontend/src/pages/upload.jsx:249-258 | No choice is marked exactly when every mean is at least 255. Otherwise the marked one is below 255, no brighter than any other, and strictly darker than every earlier one |
| Upload.DarkestChoice | frontend/src/pages/upload.jsx:249-258 | The inner loop, from `minMean = 255` and `markedIdx = -1`, computes the darkest-choice specification and stays in -1..len-1 |
| Upload.RowAnswerSpec | frontend/src/pages/upload.jsx:248-261 | A row yields no letter exactly when all four means are at least 255; otherwise it yields one of A..D |
| Upload.DetectDarkest | frontend/src/pages/upload.jsx:248-262 | Answers for exactly the first `min(50, rows)` rows, item `q + 1` taken from row `q` |
| Upload.Total | frontend/src/pages/upload.jsx:275-276 | The total counts at most every item |
| Upload.Score | frontend/src/pages/upload.jsx:275-278 | The score never exceeds the total |
| Upload.Results | frontend/src/pages/upload.jsx:270-286 | The corrected results list has exactly 50 items |
| Upload.ResultsAsWritten | frontend/src/pages/upload.jsx:270-286 | The results list as the page writes it also has exactly 50 items |
| Upload.ResultsSpec | frontend/src/pages/upload.jsx:270-286 | Item `j` is numbered `j + 1`. It is correct exactly when a detection and a key entry both exist at the item's position, are equal, and are not `'-'` |
| Upload.DetectedLabel | frontend/src/pages/upload.jsx:271 | The detected label of item `i` (from 1) is the detection of row `i - 1` when there is one, and `'-'` otherwise |
| Upload.KeyLabel | frontend/src/pages/upload.jsx:272 | Corrected: the key label of item `i` (from 1) is key entry `i - 1` when there is one, and `'-'` otherwise |
| Upload.KeyLabelAsWritten | frontend/src/pages/upload.jsx:272 | As written: the key label of item `i` is key entry `i`, one past the item's own entry, and `'-'` when that entry is missing |
| Upload.ScoreSheet | frontend/src/pages/upload.jsx:266-286 | Corrected (the key read at `i - 1`): the scoring loop builds the results list, with score and total as counted over it. `0 <= score <= total <= 50`, and the items are numbered 1..50 in order |
| Upload.UncountedSuffix | frontend/src/pages/upload.jsx:275-278 | Items nobody answered change neither score nor total |
| Upload.AsWrittenMisalignsKey | frontend/src/pages/upload.jsx:272 | As written, key A,B,C,D against a sheet marked A,B,(blank),D scores 0 of 4 |
| Upload.CorrectedAlignsKey | frontend/src/pages/upload.jsx:272 | With the key read at the item's own position, the same sheet scores 3 of 4 |
| Upload.Percentage | frontend/src/pages/upload.jsx:296 | The percentage (before rounding) is 0 when nothing is counted, lies in 0..100, and is the share correct times 100 |
| Upload.AnalyzeSheet | frontend/src/pages/upload.jsx:209-286 | Corrected (the key read at `i - 1`): the whole pipeline from contour rectangles gives 50 results numbered 1..50, with `score <= total <= 50` |
| Upload.Accepted | frontend/src/pages/upload.jsx:65-69 | A file is taken when its type starts with `image/`, is `application/pdf`, or its lower-cased name ends in `.pdf` |
| Upload.ValidFiles | frontend/src/pages/upload.jsx:90-94 | A file is kept exactly when its type starts with `image/`, is `application/pdf`, or its lower-cased name ends in `.pdf` |
| Upload.SkippedIffRejected | frontend/src/pages/upload.jsx:71-73 | The "files were skipped" warning appears exactly when some file is not accepted |
| Upload.ValidFilesConcat | frontend/src/pages/upload.jsx:65-69 | Taking files keeps their order: the files taken from a concatenation are those taken from each part, one after the other |
| Upload.ValidFilesSingle | frontend/src/pages/upload.jsx:65-69 | A single file is taken whole or dropped |
| Upload.AddFiles | frontend/src/pages/upload.jsx:75 | The previous list stays as a prefix, and what follows is exactly the accepted new files, in their order |
| Upload.RemoveFile | frontend/src/pages/upload.jsx:107-109 | Exactly position `index` is dropped when it exists; otherwise the list is unchanged |
| Backend.DetectRowSpec | backend/app.py:38-48 | Nothing is chosen exactly when no fill exceeds both 0 and `threshold * 255`. Otherwise the chosen bubble passes both bounds, has the greatest fill, and strictly exceeds every earlier bubble |
| Backend.RowFill | backend/app.py:38-48 | The inner loop, from `max_fill = 0`, computes that choice |
| Backend.DetectBubbles | backend/app.py:35-49 | Exactly one entry per bubble row, each the row's choice |
| Backend.ResolveLayout | backend/app.py:72-97 | With grid parameters, each missing key takes its default: 25 items per column, radius 10, grid start 0 plus 3, centred group offset. Without them the fixed layout applies: two columns at 60 and 60 + (595 - 120) / 2, rows 22, choices 20, radius 7, grid start `int(grid_start_y)` (default 120, truncated toward zero) plus 3 |
| Backend.PyInt | backend/app.py:96 | `int()` of a number truncates toward zero: the result lies within 1 of the input, on the zero side |
| Backend.EmptyGridDiffersOnlyInRadiusAndStart | backend/app.py:73-97 | A grid dictionary holding none of the read keys changes only the radius (10 instead of 7) and the grid start (3 instead of `int(grid_start_y) + 3`) |
| Backend.EmptyDictIsNoGrid | backend/app.py:72-73 | An empty dictionary behaves as no dictionary |
| Backend.ColumnOf | backend/app.py:124 | The column index is 0 or 1 |
| Backend.BubbleCoords | backend/app.py:122-133 | Exactly `num_items` rows of `num_choices` circles, each at the position of its slot. Requires a column position for every item, as the service does |
| Backend.ChoiceStep | backend/app.py:127-131 | Within an item, x grows by `col_w` per choice, and y is constant at `grid_start_y + idx_in_col * row_h + bubble_r + 7`, with radius `bubble_r` |
| Backend.ColumnWrap | backend/app.py:124-127 | Item `i` of the left column and item `i + items_per_column` share a line, one column distance apart |
| Backend.NoThirdColumn | backend/app.py:124-125 | Items past two columns stay in column 1, below its last row: there is no third column |
| Backend.ChoiceLabels | backend/app.py:137 | The labels are the first `num_choices` letters of A..F, with Python's slice rules for large and negative counts |
| Backend.LabelAnswers | backend/app.py:138 | One answer per index: `None` stays `None`, and an index becomes its label |
| Backend.LabelAnswersInverse | backend/app.py:137-138 | With distinct labels, each detected index is recovered from its letter |
| Backend.Matches | backend/app.py:143-146 | The agreeing pairs among the first `n` are at most `n` |
| Backend.CorrectCount | backend/app.py:145-146 | The items marked correct are at most all items |
| Backend.ScoreItems | backend/app.py:141-152 | The `zip` loop gives `min(len(answers), len(key))` items, numbered from 1, each correct exactly when answer and key entry are equal (`None == None` included). The score is the number of correct items |
| Backend.BlankAgainstEmptyKeyIsFullMarks | backend/app.py:143-146 | A blank sheet against an empty key scores full marks |
| Backend.FullMarksIffAllAgree | backend/app.py:143-146 | Full marks exactly when every paired item agrees |
| Backend.CheckSheet | backend/app.py:122-152 | Coordinates, detection at threshold 0.5, labels and scoring give `min(num_items, len(key))` items numbered from 1, each carrying its key entry, with score at most the item count |
| AnswerKey.ShouldRender | frontend/src/pages/answer.jsx:13 | The editor renders only with exam data and both counts parsing to at least 1 |
| AnswerKey.RendersDecimalCounts | frontend/src/pages/answer.jsx:8-13 | For counts written as numerals, the editor renders exactly when both are at least 1 |
| AnswerKey.NoDigitsNoRender | frontend/src/pages/answer.jsx:8-13 | An item count with no leading digits renders nothing |
| AnswerKey.Choices | frontend/src/pages/answer.jsx:10 | The offered letters are the first `min(numChoices, 6)` of A..F |
| AnswerKey.NumCols | frontend/src/pages/answer.jsx:15-17 | Between 1 and 3 columns; exactly 1 for at most 10 items, exactly 3 for more than 20 |
| AnswerKey.BuildColumns | frontend/src/pages/answer.jsx:19-27 | `NumCols` columns whose concatenation is 0..numItems-1 in order. Column `k` has `baseRows` items plus one when `k < extra` |
| AnswerKey.ColumnStartClosed | frontend/src/pages/answer.jsx:21-26 | Column `k` starts after `k * baseRows + min(k, extra)` items |
| AnswerKey.ColumnStartEnd | frontend/src/pages/answer.jsx:19-26 | The columns together hold exactly `numItems` items |
| AnswerKey.ColumnsNonEmpty | frontend/src/pages/answer.jsx:19-23 | Even the shorter columns hold at least one item |
| AnswerKey.InitialKey | frontend/src/pages/answer.jsx:29-39 | The first state has `numItems` entries: the stored key when its length matches, otherwise all empty |
| AnswerKey.Normalize | frontend/src/pages/answer.jsx:43-62 | The reloaded key has `numItems` entries, keeps the common prefix of the stored key, and is empty elsewhere |
| AnswerKey.NormalizeExact | frontend/src/pages/answer.jsx:45-47 | A key of the right length reloads as itself |
| AnswerKey.NormalizeIdempotent | frontend/src/pages/answer.jsx:43-62 | Normalising twice is normalising once |
| AnswerKey.InitialMatchesReload | frontend/src/pages/answer.jsx:29-62 | When nothing, or a key of the right length, is stored, the first state and the reload agree |
| AnswerKey.AllAnswered | frontend/src/pages/answer.jsx:64 | Every one of the `numItems` entries holds an answer |
| AnswerKey.IsEdited | frontend/src/pages/answer.jsx:65 | Some saved position is not matched by the answer at that position |
| AnswerKey.EditedIffDifferent | frontend/src/pages/answer.jsx:65 | For keys of equal length, `isEdited` holds exactly when the answers differ from the saved key |
| AnswerKey.ExtensionIsNotEdit | frontend/src/pages/answer.jsx:65 | Only saved positions are compared: answers that extend the saved key are not an edit |
| AnswerKey.AnswerKeyEditor.constructor | frontend/src/pages/answer.jsx:29-40 | Both keys start from the initial key; not in edit mode, no flash |
| AnswerKey.AnswerKeyEditor.Reload | frontend/src/pages/answer.jsx:43-62 | Both keys become the normalised stored key and edit mode ends; nothing is left edited |
| AnswerKey.AnswerKeyEditor.Edit | frontend/src/pages/answer.jsx:67 | Enters edit mode and changes nothing else |
| AnswerKey.AnswerKeyEditor.Cancel | frontend/src/pages/answer.jsx:68-71 | The answers return to the last saved key and edit mode ends; nothing else changes |
| AnswerKey.AnswerKeyEditor.Save | frontend/src/pages/answer.jsx:72-79 | Does nothing unless every item is answered. Otherwise it stores the answers, makes them the saved key, raises the flash and ends edit mode, and the stored key reloads to the same answers |
| AnswerKey.AnswerKeyEditor.FlashElapsed | frontend/src/pages/answer.jsx:78 | The flash goes out and nothing else changes |
| AnswerKey.AnswerKeyEditor.Select | frontend/src/pages/answer.jsx:81-88 | Outside edit mode nothing changes; in edit mode only the answer of item `idx` changes |
| AnswerKey.AnswerKeyEditor.Primary | frontend/src/pages/answer.jsx:136-151 | The button runs Edit outside edit mode, changing nothing else. In edit mode it cancels when the answers are not edited (the flash and the stored key stay). When they are edited and all answered it saves: the answers stay, become the saved and stored key, and the flash goes on. A disabled Save (edited, not all answered) changes nothing |
| Generate.NumItemsFrom | frontend/src/pages/generate.jsx:129 | The item count is never 0: the parsed value when it is a non-zero number, otherwise 50 |
| Generate.NumChoicesFrom | frontend/src/pages/generate.jsx:130 | The choice count is never 0: the parsed value when it is a non-zero number, otherwise 4 |
| Generate.SelectedNumChoices | frontend/src/pages/generate.jsx:73 | The stored value is the longest space-free prefix of the option, followed by a space or the end |
| Generate.DefaultsFromText | frontend/src/pages/generate.jsx:129-130 | A numeral reads as its value, except that 0 (and text without digits) falls back to 50 items and 4 choices |
| Generate.ChoiceLabels | frontend/src/pages/generate.jsx:131 | The labels are the first `numChoices` letters of A..F, all six for larger counts |
| Generate.OptionsStoreTheirCount | frontend/src/pages/generate.jsx:72-74 | Picking menu option `k` stores the numeral `k + 2`, which reads back as `k + 2` choices labelled by the first `k + 2` letters |
| Generate.OptionReads | frontend/src/pages/generate.jsx:72-74 | An option starting with the digit of `n` and a space stores the numeral `n`, read back as `n` choices |
| Generate.GroupSizeFor | frontend/src/pages/generate.jsx:150-154 | The group size is positive, so the group count is defined |
| Generate.RowGeometry | frontend/src/pages/generate.jsx:174-183 | In a question row the bubbles are 20 apart, share y `yRow + bubbleR + 5`, and have radius 7; the next row is 22 lower |
| Generate.HeadingAboveBubbles | frontend/src/pages/generate.jsx:160-183 | Each letter heading is centred on its column of bubbles and lies above every bubble of it |
| Generate.GridCentred | frontend/src/pages/generate.jsx:156-161 | The space left of the first group equals the space right of the last |
| Generate.SlotOf | frontend/src/pages/generate.jsx:171 | A question's row and group are recovered from its offset on the page |
| Generate.OffsetInSomeGroup | frontend/src/pages/generate.jsx:155 | Every offset on the page falls in one of the `numGroups` groups |
| Generate.RowComplete | frontend/src/pages/generate.jsx:169-172 | After row `i` has been drawn in every group, every question of row `i` has been drawn |
| Generate.AppendQuestion | frontend/src/pages/generate.jsx:171-172 | Drawing slot (i, g) adds exactly that question number, which was not drawn before |
| Generate.LayoutPage | frontend/src/pages/generate.jsx:147-185 | A page uses groups of 10 for at most 30 questions and 20 otherwise, with `ceil(questions / size)` groups and headings in each. It draws every number from `pageStart` to `pageEnd` exactly once and nothing else, each at the geometry of its row and group |
| Generate.DrawHeadings | frontend/src/pages/generate.jsx:160-167 | One heading per label in every group, centred above its choice |
| Generate.DrawQuestion | frontend/src/pages/generate.jsx:173-183 | A question is its number and a circle per choice, in its slot's geometry |
| Generate.GeneratePages | frontend/src/pages/generate.jsx:142-190 | `ceil(numItems / 50)` pages. Page `p` starts at `1 + 50p` and ends at `min(start + 49, numItems)`, with each of its numbers drawn exactly once |
| Generate.PageCountIs | frontend/src/pages/generate.jsx:145 | The page loop stops after exactly `ceil(numItems / 50)` pages |
| Generate.QuestionOnOnePage | frontend/src/pages/generate.jsx:145-148 | Question `q` lies on page `p` exactly when `p == (q - 1) / 50` |

## Left out

- OpenCV operations are inputs, not models. This covers image reading, colour conversion, thresholds, blur, edge detection, contour search with polygon approximation and area, the perspective warp, bounding rectangles and masked means. Rectangles, contour records and functions `mean` stand for their outputs.
- Tesseract and pytesseract OCR are inputs. Only the blank-text fallback to `[unreadable]` is modelled. The service's `ocr_region` (backend/app.py:22-32) and name and section boxes (backend/app.py:110-119) are not part of this model.
- Scaling from page points to pixels with `Math.round` and `int()` is left out (imageProcessing.js:23-31 and 83-88, app.py:100-108), because it is floating-point rounding. `Backend.BubbleCoords` works on an already scaled integer layout.
- ImageProcessing.ExtractTextFields: the crops are not scaled by `cols / 595` and `rows / 842` (imageProcessing.js:83-88), so the model matches the source only on a frame of canonical size, 595 x 842 (`CanonicalFieldsReadable`). On other frames, such as an un-warped photograph, the outcomes can differ. With `cols <= 40`, for instance, the model's unscaled crop is rejected and gives `[unreadable]`, while the source's scaled crop fits and is passed to OCR.
- ImageProcessing.FieldValue: the same unscaled crop; it takes the region in page points as given.
- Upload.Percentage: Math.round is not modelled. The percentage is stated before rounding.
- jsPDF drawing is modelled as data (headings, numbers, circles). Fonts, text rendering, the page border and `addPage` are left out.
- Storage is left out: `loadAnswerKey` and `getAnswerKey`/`setAnswerKey`, JSON parsing and result persistence. The stored key is a parameter, or the `stored` field of `AnswerKeyEditor`.
- Flask routing, request parsing, annotation drawing and base64 encoding are server plumbing and are left out. The annotation loop (backend/app.py:156-159) reads `answer_key[i]` only for the bubble detected in item `i`, because the `and` at app.py:157 short-circuits. So the service raises `IndexError` exactly when some item at or past `len(answer_key)` has a detected bubble. With a short key and blank trailing items it answers with the `zip`-truncated result that `Backend.CheckSheet` models. The model does not capture that error: where the service fails, `Backend.CheckSheet` still returns `min(num_items, len(key))` items.
- File reading, PDF rasterising, image loading and all UI wiring (dropdowns, resizing, navigation) are I/O or rendering and are left out.
- The `setTimeout` that clears the flash is modelled as the separate method `FlashElapsed`, with no timing.
- JsText.ParseInt: reads base 10 only. Hexadecimal `0x` prefixes, and results too large for a double, are not modelled.
- JsText.ToLower: lower-cases ASCII letters only. Unicode case mapping is not modelled.
- ImageProcessing.GetBubblePositions: requires at most 50 items. The two-entry column table gives no position past item 50, where the source reads `undefined`.
- Backend.BubbleCoords: requires a column position for every item. The service raises `IndexError` otherwise.
- Backend.CheckSheet: requires at most six choices, since `choice_labels[idx]` would fail past F. It does not restate the detected answers; `ScoreItems` and `DetectBubbles` state them.
- Upload.DetectDarkest: requires every row to have at least four bubbles. After `KeepFullRows` every row has exactly four, which discharges this in `AnalyzeSheet`.
- AnswerKey.AnswerKeyEditor.Select: requires `idx` to be an item index. The editor only calls it with the index of a rendered item. An out-of-range index, which JavaScript would use to grow the array, is not modelled.
- Only letters and null are modelled as key values and answers. JSON allows other values; those are not modelled.
- NaN intensities and areas are not modelled. Means and areas are exact reals.
- The unused page-independent `groupSize` of generate.jsx:132-136 is not modelled; only the per-page `localGroupSize` is used.
- No property relates the printed layout to either recogniser's layout. Their constants differ: groups of 10 or 20 centred on the page, against two fixed 25-item columns and a radius of 10 when grid parameters are present. Each is modelled as written.
- The service does not check that the key and the answers have the same length: `zip` drops the excess (app.py:143), and the upload page fills a missing key entry with `'-'` (upload.jsx:271-272). The model does the same.
- Files of other types are skipped, with a warning (upload.jsx:65-75, 90-100); no error is raised.
- Backend.ResolveLayout: `grid_start_y` is a number. A string value, which Python's `int()` would also parse, is not modelled; a fractional number is truncated toward zero, as `int()` does.

## Findings

| source | as written | input that shows it | evidently intended | confidence | as-written member | corrected member |
|---|---|---|---|---|---|---|
| frontend/src/pages/upload.jsx:272 | `answerKey[i]` is read for item `i`, counted from 1, but the editor saves the key as a 0-based array (answer.jsx:74). Each item is compared with the next item's key | key `[A, B, C, D]`, detected A, B, (blank), D: scores 0 of 4 | `answerKey[i - 1]`: the same sheet scores 3 of 4 | not executed | Upload.KeyLabelAsWritten, Upload.ResultsAsWritten, Upload.AsWrittenMisalignsKey | Upload.KeyLabel, Upload.Results, Upload.ScoreSheet, Upload.AnalyzeSheet, Upload.CorrectedAlignsKey |
