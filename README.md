# Jami-K/Util in Dafny

A model of six small Python utilities, with proofs of what they do:

- **img_sorter.py** is a Tk image classifier. It shows a folder's images one at a time. Space moves the current image into the folder's `OK` or `NG` sub-folder, Left and Right choose which, and "undo" moves the last classified image back. Module `ImgSorter` models it twice. `Session` holds the state as a value, and one function per handler says what the handler does to it. The class `ImageClassifier` keeps the same state in mutable fields, and each of its methods is proved to follow its function.
- **labeling_tool.py** works on a directory of YOLO label files. It rewrites one class id to another in every box, counts the boxes per class, picks the rarest class, and lists the files holding a box of that class. Module `LabelingTool` models it.
- **json2txt.py** converts LabelMe polygon annotations into YOLO lines. Each shape with a known label becomes the normalised bounding box of its points, appended to `<output>/<stem>.txt`. Module `Json2Txt` models it.
- **PPM.py** extracts figures from SAP spreadsheet exports and upserts them into two CSV databases:
  - a per-product table, read from 41-row blocks;
  - a per-month table, built from a factory report with KPIs from cost statements added.

  Module `Ppm` models the extraction: `_to_int`, the date patterns, the product code pattern, the block walk, `pick` and `pick_total`. Module `PpmDb` models `_upsert_csv` and `main`.
- **make_txt.py** builds the Train/Valid list files of a YOLO data set. Module `MakeTxt` models it.
- **rename.py** renames every file of a folder to `<path><cName><counter>.jpg`. Module `Rename` models it.

Modules `Strings` and `Paths` hold the Python string and `os.path` operations the tools share. This includes `split`, `strip`, `str(int)`, `os.path.join`, `basename` and `splitext`.

Modelling conventions:
- A spreadsheet is a sequence of rows of cells, and a cell outside the sheet reads as empty. This matches pandas, which pads ragged rows with NaN.
- A directory is a map from name (or path) to contents, together with its listing in `os.listdir` order, which is given as an input.
- A file operation that raises becomes `None` in an `Option` result, or an `ok` flag that ends the run.
- Loops in the source are methods with loop invariants. Each such method is proved equal to a function, and the lemmas state what that function means.

The first write of `_upsert_csv`, when `DB.csv` does not exist yet, keeps duplicate keys as they come (PPM.py:116-117). `PpmDb.Upsert` models that faithfully. `PpmDb.UpsertTwice` therefore needs an existing file, or incoming rows with unique keys.

## Model

| member | source | states |
|---|---|---|
| ImgSorter.ImageNames | img_sorter.py:60-64 | a name is kept exactly when it is in the listing and its lower-cased form ends in one of the five image extensions |
| ImgSorter.ListImagePaths | img_sorter.py:60-64 | the list comprehension yields the kept names, in listing order, each joined to the folder |
| ImgSorter.SelectFolderResets | img_sorter.py:55-71 | choosing a folder sets the folder, lists exactly the image files of its listing joined to it, and resets the cursor and the history |
| ImgSorter.SelectFolderCancelled | img_sorter.py:56-58 | a cancelled dialog clears the folder but keeps the list, the cursor and the history |
| ImgSorter.StatusBindings | img_sorter.py:50-51 | the outcome starts as OK; Left makes it OK and Right makes it NG |
| ImgSorter.ClassifyAtEndIsNoOp | img_sorter.py:88-89 | with the cursor past the end, classify changes nothing |
| ImgSorter.ClassifyMovesCurrent | img_sorter.py:87-98 | classify moves the current file to `<folder>/<status>/<basename>`, records (moved path, cursor) and advances the cursor |
| ImgSorter.UndoEmptyIsNoOp | img_sorter.py:101-102 | undo with an empty history changes nothing |
| ImgSorter.UndoRestoresLast | img_sorter.py:100-111 | undo pops the last record, moves the file back into the folder, re-inserts its path at the recorded cursor (at the end when the cursor is past it, as `list.insert` does), moves the cursor there, and leaves every other file, the folder and the status alone |
| ImgSorter.SelectFolderPathsInFolder | img_sorter.py:60-64 | after choosing a folder every listed path lies directly in it |
| ImgSorter.StepsKeepPathsInFolder | img_sorter.py:87-111 | classify and undo preserve that invariant |
| ImgSorter.DestinationRoundTrip | img_sorter.py:92-105 | a file's destination differs from its path, and undo's path for that destination is the file's original path |
| ImgSorter.MoveThereAndBack | img_sorter.py:95-106 | moving a file to a free path and back restores the file map |
| ImgSorter.ClassifySucceeds | img_sorter.py:91-97 | the whole session after a classify whose file exists |
| ImgSorter.UndoSucceeds | img_sorter.py:104-110 | the whole session after an undo whose file exists |
| ImgSorter.ClassifyThenUndoDuplicatesPath | img_sorter.py:96-109 | classify then undo restores files, cursor and history, but the path list gains a second copy of the path |
| ImgSorter.ClassifyAfterUndoStalls | img_sorter.py:87-109 | after classify, undo and classify, the cursor sits on the duplicate whose file is gone, so every further classify fails |
| ImgSorter.DisplayFinishedIff | img_sorter.py:73-85 | the completion message shows exactly when the cursor is past the end; otherwise the current path with `index + 1 / len` |
| ImgSorter.ClassifyRemovingThenUndoRestores | img_sorter.py:100-111 | with a classify that takes the path out of the list, the unchanged undo restores the whole session |
| ImgSorter.InsertWhereRemoved | img_sorter.py:109 | `list.insert` at the index an element was removed from restores the list |
| ImgSorter.ImageClassifier.constructor | img_sorter.py:14-19 | the fields start as the initial session: no folder, no paths, cursor 0, empty history, OK |
| ImgSorter.ImageClassifier.SelectFolder | img_sorter.py:55-71 | the new fields are the select-folder function of the old ones |
| ImgSorter.ImageClassifier.PressLeft | img_sorter.py:50 | the new fields are the old ones with status OK |
| ImgSorter.ImageClassifier.PressRight | img_sorter.py:51 | the new fields are the old ones with status NG |
| ImgSorter.ImageClassifier.LoadImage | img_sorter.py:73-85 | returns the view of the current state: finished exactly when the cursor is past the end |
| ImgSorter.ImageClassifier.ClassifyImage | img_sorter.py:87-98 | the new fields are the classify function of the old ones, a failed move leaving them unchanged |
| ImgSorter.ImageClassifier.UndoLast | img_sorter.py:100-111 | the new fields are the undo function of the old ones, a failed move having already popped the history |
| LabelingTool.Retag | labeling_tool.py:24-26 | the first token becomes the new class exactly when it equals the old one; the other tokens are kept |
| LabelingTool.RelabelFile | labeling_tool.py:18-28 | the line loop yields the rewritten non-blank lines in order |
| LabelingTool.RelabelFileText | labeling_tool.py:13-34 | one file's new text is its rewritten lines joined by newlines with a final newline, or empty |
| LabelingTool.ChangeLabelAll | labeling_tool.py:4-34 | the directory after the loop is the relabelling of every listed label file |
| LabelingTool.ChangeLabelAllFile | labeling_tool.py:9-34 | afterwards every `.txt` file holds its rewritten text and every other file is unchanged |
| LabelingTool.RelabelLineDropsBlank | labeling_tool.py:20-22 | a line is dropped exactly when it is blank |
| LabelingTool.RelabelLineTokens | labeling_tool.py:24-28 | a kept line reads back as the retagged tokens of the original line, with no newline |
| LabelingTool.RelabelTextIdempotent | labeling_tool.py:18-34 | rewriting a file twice gives the same text as rewriting it once, for different ids |
| LabelingTool.RenderReadsBack | labeling_tool.py:30-34 | the written text reads back, line by line, as the new lines followed by an empty remainder, for lines holding neither `\n` nor `\r` (as every rewritten line is) |
| LabelingTool.LinesOfCrLf | labeling_tool.py:15-16 | text-mode reading ends a line at `\r\n` as it does at `\n` |
| LabelingTool.LinesOfLoneCr | labeling_tool.py:15-16 | text-mode reading ends a line at a lone `\r` as it does at `\n` |
| LabelingTool.LineClass | labeling_tool.py:50-54 | a blank line has no class; otherwise its class is its first token |
| LabelingTool.TallyKeys | labeling_tool.py:40-55 | the counter's keys are the counted classes, each once |
| LabelingTool.TallyCounts | labeling_tool.py:55 | each count is the number of occurrences of its class |
| LabelingTool.TallyOrder | labeling_tool.py:55-64 | the counter's keys are in order of first appearance |
| LabelingTool.TallySum | labeling_tool.py:40-55 | the counts add up to the number of boxes |
| LabelingTool.Minority | labeling_tool.py:61-64 | `None` exactly for an empty counter; otherwise a key with the least count, before which every key has a larger count |
| LabelingTool.MinorityOfTally | labeling_tool.py:64 | that key is the minority of the boxes: fewest boxes, first seen among ties |
| LabelingTool.MinorityUnique | labeling_tool.py:64 | there is only one minority class |
| LabelingTool.CountClasses | labeling_tool.py:40-55 | the counting loops give the counter of all box classes of the listed label files |
| LabelingTool.LabelChecker | labeling_tool.py:38-67 | `None` exactly when there is no box; otherwise the minority class of all boxes |
| LabelingTool.HasClass | labeling_tool.py:84-92 | the inner loop answers whether some non-blank line has that class |
| LabelingTool.ListFilesWithClass | labeling_tool.py:76-92 | the outer loop yields the label files with a box of that class, in listing order |
| LabelingTool.LabelCheckerMinor | labeling_tool.py:69-92 | `None` exactly when there is no box; otherwise the files holding the minority class. The source prints that list and returns `None`; the model returns the list as its result |
| LabelingTool.FilesWithClassMember | labeling_tool.py:78-92 | a file is reported exactly when it is a listed `.txt` file with a box of that class |
| LabelingTool.FilesWithClassDistinct | labeling_tool.py:90-92 | no file is reported twice |
| Json2Txt.IndexOf | json2txt.py:23 | `class_list.index`: the first position holding the label |
| Json2Txt.MinIsElement | json2txt.py:28-29 | `min` is a lower bound that is one of the values |
| Json2Txt.MaxIsElement | json2txt.py:30-31 | `max` is an upper bound that is one of the values |
| Json2Txt.LabelmeToYolo | json2txt.py:4-46 | the output file gains the lines of the converted shapes, in order, and `ok` is false when a shape raised |
| Json2Txt.ConvertDirectory | json2txt.py:48-53 | the loop converts every `.json` name of the listing in order and stops at the first exception |
| Json2Txt.ConvertShapeKeptIff | json2txt.py:19-20 | a shape yields a line exactly when its label is a class, it has points and the image size is non-zero; it is skipped exactly when the label is unknown |
| Json2Txt.ConvertOkIff | json2txt.py:17-36 | a document converts without an exception exactly when every known-label shape has points and the image size is non-zero |
| Json2Txt.ConvertLinesMatchShapes | json2txt.py:17-39 | the lines correspond in order to the known-label shapes; each is the normalised bounding box of its shape's points and carries the first index of its label |
| Json2Txt.ConvertBoxesInUnit | json2txt.py:17-39 | when every known-label shape has points inside an image of positive size, the conversion raises nothing and every line written lies in the unit square |
| Json2Txt.ConvertAtMostOnePerShape | json2txt.py:17-46 | never more lines than shapes |
| Json2Txt.BoxCorners | json2txt.py:28-36 | un-normalising a box gives back the extremes of the points |
| Json2Txt.BoxNonNegative | json2txt.py:35-36 | the width and the height are never negative |
| Json2Txt.BoxInUnit | json2txt.py:33-36 | for points inside the image, the centre, the size and both edges lie in [0, 1] |
| Json2Txt.OutputPathName | json2txt.py:42-43 | the output file is the JSON file's stem with `.txt` |
| Json2Txt.ConvertTwiceAppends | json2txt.py:45-46 | converting a document twice appends its lines twice |
| Json2Txt.DirRunJsonOnly | json2txt.py:50-51 | the run over the listing is the run over its `.json` names |
| Json2Txt.DirRunStopped | json2txt.py:48-53 | once a conversion raised, the run stays stopped |
| Strings.StripEmptyIffBlank | PPM.py:36 | `x.strip() == ""` exactly when the text is all whitespace |
| Strings.WordsEmptyIffBlank | labeling_tool.py:20-24 | `split()` gives no word exactly when the line is blank |
| Strings.NatTextValue | PPM.py:69 | `int` reads back `str` of a natural |
| Strings.IntTextInjective | rename.py:11 | different integers have different decimal texts |
| Strings.SplitOnAppend | make_txt.py:20 | splitting on a separator distributes over text joined by that separator |
| Paths.BasenameOfJoin | img_sorter.py:93 | `basename(join(dir, name))` is `name` for a name without `/` |
| Ppm.Trunc | PPM.py:50 | `int(float)` truncates toward zero |
| Ppm.ToIntOfIntText | PPM.py:34-53 | `_to_int` reads back the decimal text of every integer |
| Ppm.ToIntOfNumber | PPM.py:38-44 | a sign, digits and an optional fraction read as the signed value of the digits |
| Ppm.ToIntOfParenthesised | PPM.py:42-43 | `(n)` reads as `-n` |
| Ppm.ToIntTruncatesText | PPM.py:44 | a fractional part is dropped, so negative values round toward zero |
| Ppm.ToIntBlank | PPM.py:36-37 | an empty cell and blank text give 0 |
| Ppm.SearchFromSpec | PPM.py:67-76 | `str.extract` finds nothing exactly when no index matches, and otherwise the leftmost match |
| Ppm.DotDateFound | PPM.py:66-70 | `YYYY.M` after text without a point gives that year and month |
| Ppm.NoPointNoDotDate | PPM.py:67 | text without a point has no `YYYY.M` date |
| Ppm.HangulDateFound | PPM.py:72-76 | `YYYY년M월` in text without a point gives that year and month |
| Ppm.FilenameDateFound | PPM.py:281-291 | a file named `YYYY[.-_]MM.ext` in any directory gives that year and month |
| Ppm.CodeSpanAt | PPM.py:132 | a match's code is a non-empty run of `[0-9A-Za-z_-]` followed by `/` |
| Ppm.ParsedCodeIsCode | PPM.py:132-133 | the parsed code is made of code characters, and is empty exactly when the pattern does not match |
| Ppm.NoCodeMarkNoCode | PPM.py:132-133 | a cell without `제품코드(명)` gives no code |
| Ppm.ParseCodeNameRoundTrip | PPM.py:126-141 | `제품코드(명) :<code> / <name>` parses back to the code and the name |
| Ppm.ProductYearMonth | PPM.py:144-165 | the scan returns the date of the first candidate that has one, (0, 0) if none |
| Ppm.FirstDateIsFirst | PPM.py:160-163 | the first candidate with a date decides |
| Ppm.ExtractProducts | PPM.py:168-205 | the loop collects the rows of the blocks at rows 1, 42, 83, … |
| Ppm.ProductRowsAreBlocks | PPM.py:174-203 | a row is returned exactly when it is the row of a block starting at `1 + 41k` inside the sheet, and its code is non-empty |
| Ppm.BlockRowCode | PPM.py:176-178 | a block gives at most one row, and only with a non-empty code |
| Ppm.Pick | PPM.py:225-246 | the scan returns the value `pick` specifies |
| Ppm.PickValueAt | PPM.py:233-245 | `pick` returns column `col` of the first row matching the path |
| Ppm.PickValueNone | PPM.py:246 | `pick` returns 0 when no row matches |
| Ppm.PickTotal | PPM.py:320-352 | the scan returns the value `pick_total` specifies |
| Ppm.TotalValueAt | PPM.py:329-349 | `pick_total` returns column H of the first total row of a non-empty sheet |
| Ppm.TotalValueNone | PPM.py:326-352 | `pick_total` returns 0 when no row is a total row |
| Ppm.FactoryMonthlySpec | PPM.py:212-274 | the factory record holds exactly 년, 월 and the thirteen figure names, with the header period and each figure's `pick` |
| Ppm.FactoryPicksNames | PPM.py:248-272 | the thirteen figure names are distinct and none is 년 or 월 |
| Ppm.CostStatementKpisSpec | PPM.py:354-359 | the KPI record holds exactly the four KPI names, each bound to its `pick_total` |
| PpmDb.DedupLastMember | PPM.py:115 | `drop_duplicates(keep="last")` keeps a row exactly when no later row has its key |
| PpmDb.DedupLastUnique | PPM.py:115 | after deduplication no two rows share a key |
| PpmDb.DedupLastKeys | PPM.py:115 | deduplication keeps every key |
| PpmDb.DedupLastOfUnique | PPM.py:115 | rows with unique keys are left as they are |
| PpmDb.DedupLastAppend | PPM.py:114-115 | old rows followed by new ones deduplicate to the old rows of keys the new rows lack, then the deduplicated new rows |
| PpmDb.UpsertKeys | PPM.py:104-119 | the database afterwards holds its old keys and the incoming ones |
| PpmDb.UpsertNewRowsWin | PPM.py:111-115 | merging into an existing file leaves one row per key, and an incoming key keeps its last incoming row |
| PpmDb.UpsertTwice | PPM.py:104-119 | upserting the same rows twice is upserting them once |
| PpmDb.UpsertEachKeys | PPM.py:380-382 | after the product loop a key is in the database exactly when it was there or some download carries it |
| PpmDb.UpdateProductDb | PPM.py:380-382 | the product loop upserts each download's rows, in order, keyed by (년, 월, 제품코드) |
| PpmDb.GatherFactories | PPM.py:384-390 | the factory loop builds the month-keyed dict and its key order |
| PpmDb.MonthOrderSpec | PPM.py:389-400 | the dict's key order lists every key once and nothing else |
| PpmDb.LatestByMonthIsLast | PPM.py:389-390 | a month's entry is the last factory record of that month |
| PpmDb.UpdateEveryMonth | PPM.py:395-396 | the inner loop updates every month's record with the same KPIs |
| PpmDb.AddKpisToEveryMonth | PPM.py:393-396 | the KPI loop as written applies every statement to every month |
| PpmDb.MonthlyRowsAsWritten | PPM.py:384-400 | the monthly rows `main` builds as written |
| PpmDb.AllKpisFromLastStatement | PPM.py:393-396 | as written, every month gets each KPI from the last statement carrying it, whatever that statement's month |
| PpmDb.KpisOfAnotherMonth | PPM.py:393-396 | as written, statements for March then April leave April's value on March's row |
| PpmDb.OwnKpisFromOwnStatement | PPM.py:392-396 | attached by month, a month's KPI comes from the last statement of that month carrying it |
| PpmDb.OwnKpisIgnoreOtherMonths | PPM.py:392-396 | statements of other months leave a month's record alone |
| PpmDb.AddKpisToOwnMonth | PPM.py:393-396 | corrected (see Findings PPM.py:392-396): the KPI loop attaches each statement's KPIs to the month of its file name, where the source as written adds them to every month (`PpmDb.AddKpisToEveryMonth`) |
| PpmDb.UpdateMonthlyDb | PPM.py:384-401 | corrected (see Findings PPM.py:392-396): the monthly half of `main` upserts the month rows, with KPIs by month, into `DB.csv` keyed by (년, 월); the rows the source builds as written are `PpmDb.MonthlyRowsAsWritten` |
| PpmDb.MonthlyRowsUnique | PPM.py:398-401 | the rows written hold each factory month once and no other month |
| MakeTxt.Kept | make_txt.py:14-16 | a name is kept exactly when it is listed, ends in `.jpg` and does not start with `._` |
| MakeTxt.StemOfPlain | make_txt.py:20-21 | the stem of `x.jpg` is `x` |
| MakeTxt.StemOfDotted | make_txt.py:20-21 | only the part between the last two dots is kept |
| MakeTxt.CollectStems | make_txt.py:19-21 | the loop collects the stem of every kept name, in order |
| MakeTxt.FirstOccurrences | make_txt.py:23-24 | some list holds every stem once |
| MakeTxt.MakeListTxt | make_txt.py:6-40 | the result lists every stem once; Train gets one line per stem of its first `int(n*0.8)` and Valid the rest |
| MakeTxt.WriteList | make_txt.py:30-40 | a write loop writes one `<dir>/<stem>.jpg` line per stem, in order |
| MakeTxt.ListFileLines | make_txt.py:30-40 | a list file reads back, line by line, as `<dir>/<stem>.jpg` per stem, then an empty remainder |
| MakeTxt.ListFileAppend | make_txt.py:30-40 | Train followed by Valid is the list of all stems |
| MakeTxt.TrainValidPartition | make_txt.py:26-40 | Train and Valid share no stem, hold every stem between them, and Train has `int(n*0.8)` of them |
| Rename.ChangeName | rename.py:7-12 | the loop renames the listed files in order to `<path><cName><counter>.jpg`, counting from `date`, and stops at the first missing file |
| Rename.FailureStays | rename.py:11 | once a rename fails, the run has failed |
| Rename.NewNamesDistinct | rename.py:11-12 | different counter values give different names |
| Rename.TargetPathsDistinct | rename.py:8-12 | the counter rises by one per file, so no two files of one run get the same new name |
| Rename.SourcePathsDistinct | rename.py:9-11 | distinct listed names give distinct old paths |
| Rename.ListingRenamable | rename.py:7-12 | a listing without repeats of present files that are no new names satisfies the conditions under which every rename succeeds |
| Rename.MoveAllKeys | rename.py:9-12 | with present, distinct sources that are no targets, the renames remove exactly the sources and add exactly the targets |
| Rename.MoveAllMoves | rename.py:9-12 | each target then holds its source's contents and every other path keeps its contents |
| Rename.RenameAllMoves | rename.py:7-12 | for a listing without repeats of present files that are no new names, every file ends under its own counter's name, and nothing else changes |

## Left out

- The Tk window, the image thumbnail, the fonts and the `q`/`Q` keys (img_sorter.py:20-53, 80-84). `load_image` is modelled by the view it shows.
- `os.makedirs` of the `OK`/`NG` folders (img_sorter.py:68-69) and of json2txt's output directory. A move into a sub-folder is a map update.
- The console output of all scripts (`print`), `input()` and the menu loops at module level. This covers labeling_tool.py:99-129 (which also uses an undefined `label_dir`), json2txt.py:56-60, make_txt.py:43-44 and rename.py:14.
- labeling_tool.py:30-34 does not parse as written. There is a stray `f.write(...)` before the `with open(..., "w")`. The model writes what the two branches evidently mean: the lines joined by newlines with a final newline, or the empty text.
- rename.py:3 does not parse either (a stray `.` after the path). `changeName` is modelled as written.
- File reading and parsing are left out: JSON parsing, `pd.read_excel` and `pd.read_csv`, including `_read_cost_statement_xls` (PPM.py:81-101) with its encodings. Their results are inputs: documents, texts, sheets of cells. Label files are texts; `readlines` is modelled by `LabelingTool.LinesOf`, including the newline translation of text mode, but not text decoding.
- `Path.glob` and `sorted` (PPM.py:375-377), `os.listdir` order and `os.path.abspath` are inputs.
- In `_upsert_csv`, `astype(str)` and `dtype=str` are left out. The model keeps each row as typed values, so the string form of numbers in the CSV is not captured.
- Float arithmetic is left out. LabelMe coordinates and YOLO boxes are exact reals, and the text formatting of the YOLO line is not modelled.
- `_to_int` reads only the decimal forms `[+-]digits[.digits]` and `[+-].digits`. Python's `float` also accepts exponents, `inf`, `nan`, underscores and surrounding Unicode whitespace; the model treats those texts as unreadable, giving 0. `int(float(s))` goes through a 64-bit float, so above 2**53 it loses precision ("9007199254740993" gives 9007199254740992); the model reads every decimal exactly, so `Ppm.ToIntOfIntText` holds only up to that bound in the source. Numeric cells are reals truncated toward zero, and there are no booleans.
- Whitespace is the ASCII characters `str.isspace` accepts (space, `\t`, `\n`, `\v`, `\f`, `\r` and `\x1c` to `\x1f`); non-ASCII whitespace is left out. Digits are ASCII digits, and `lower()` folds ASCII letters only.
- MakeTxt.TrainCount: computes `int(n * 0.8)` as `n * 4 / 5`. The two agree for any list length a folder can hold, but float rounding is not modelled.
- MakeTxt.MakeListTxt: `list(set(temp))` has an order Python does not fix. The model takes any order that lists every stem once, so the contract states that property and not a particular order.
- PpmDb.RowMonth: reads a missing 년/월 column as 0. Every factory record has both columns (`Ppm.FactoryMonthly`), so this default is never used.

## Findings

| source | as written | input that shows it | evidently intended | confidence | as-written member | corrected member |
|---|---|---|---|---|---|---|
| img_sorter.py:96-109 | classify leaves the moved path in `image_paths` and only advances the cursor; undo inserts the path again | a folder holding `a.jpg` and `b.jpg`: classify, then undo; the list becomes `[a, a, b]` and the next classify fails on the second `a`, whose file is gone | undo re-inserts the path "back into the list", so classify should take it out | high (not executed) | ImgSorter.ClassifyThenUndoDuplicatesPath | ImgSorter.ClassifyRemovingThenUndoRestores |
| PPM.py:392-396 | every cost statement's KPIs are written into every month's record, so all months end with the last statement's values; the statement's month read at 306-310 is never used | factory reports for March and April, and statements for March (노무비 100) then April (노무비 200): March's row gets 200 | the comment at 392 says the KPIs go to the same month; each statement's KPIs go to the month its file name gives | high (not executed) | PpmDb.KpisOfAnotherMonth | PpmDb.UpdateMonthlyDb |
