/** The YOLO label-file tools: every `.txt` file of a label directory holds one
    box per line, `<class> <xc> <yc> <w> <h>`. The tools rewrite the class of
    every box from one id to another, count the boxes per class and pick the
    rarest class, and list the files that contain a box of that class.

    A directory is a map from file name to text together with its listing
    (the names in `os.listdir` order). Lines are what `readlines` gives on a
    file opened in text mode: `\r\n` and a lone `\r` are first read as `\n`,
    then the text is cut at each `\n`. */
module LabelingTool {
  import opened Strings

  type Dir = map<string, string>

  /** Only these files are read or rewritten. */
  predicate IsLabelFile(name: string) {
    EndsWith(name, ".txt")
  }

  /** `listing` is a listing of `dir`: every file once, nothing else. */
  ghost predicate IsListing(dir: Dir, listing: seq<string>) {
    && (forall i, j :: 0 <= i < j < |listing| ==> listing[i] != listing[j])
    && (forall n :: n in listing <==> n in dir)
  }

  /** Text-mode reading with universal newlines: `\r\n` and a lone `\r`
      both become `\n`. */
  function UniversalNewlines(text: string): (r: string)
    ensures '\r' !in r
  {
    if text == [] then []
    else if text[0] == '\r' then
      "\n" + UniversalNewlines(if |text| > 1 && text[1] == '\n' then text[2..] else text[1..])
    else [text[0]] + UniversalNewlines(text[1..])
  }

  /** Text without `\r` reads as it is. */
  lemma {:induction false} UniversalNewlinesWithoutCr(text: string)
    requires '\r' !in text
    ensures UniversalNewlines(text) == text
  {
    if text != [] {
      UniversalNewlinesWithoutCr(text[1..]);
    }
  }

  /** Text without `\r` before the rest is read as it is. */
  lemma {:induction false} UniversalNewlinesPrefix(a: string, rest: string)
    requires '\r' !in a
    ensures UniversalNewlines(a + rest) == a + UniversalNewlines(rest)
  {
    if a == [] {
      assert a + rest == rest;
    } else {
      assert (a + rest)[1..] == a[1..] + rest;
      UniversalNewlinesPrefix(a[1..], rest);
      assert [a[0]] + (a[1..] + UniversalNewlines(rest)) == a + UniversalNewlines(rest);
    }
  }

  function LinesOf(text: string): (lines: seq<string>)
    ensures forall k :: 0 <= k < |lines| ==> '\n' !in lines[k] && '\r' !in lines[k]
  {
    var t := UniversalNewlines(text);
    var lines := SplitOn(t, '\n');
    SplitOnParts(t, '\n', '\r');
    lines
  }
  /** Reading one cut at a translated line end. */
  lemma LinesOfCut(a: string, rest: string, b: string)
    requires '\n' !in a && '\r' !in a
    requires UniversalNewlines(rest) == "\n" + UniversalNewlines(b)
    ensures LinesOf(a + rest) == [a] + LinesOf(b)
  {
    UniversalNewlinesPrefix(a, rest);
    var t := UniversalNewlines(a + rest);
    assert t == a + ['\n'] + UniversalNewlines(b);
    SplitOnCut(a, UniversalNewlines(b), '\n');
    assert LinesOf(a + rest) == SplitOn(t, '\n');
    assert LinesOf(b) == SplitOn(UniversalNewlines(b), '\n');
  }

  /** `\r\n` ends a line, like `\n`. */
  lemma LinesOfCrLf(a: string, b: string)
    requires '\n' !in a && '\r' !in a
    ensures LinesOf(a + "\r\n" + b) == [a] + LinesOf(b)
  {
    var rest := "\r\n" + b;
    assert rest[2..] == b;
    assert UniversalNewlines(rest) == "\n" + UniversalNewlines(b);
    assert a + "\r\n" + b == a + rest;
    LinesOfCut(a, rest, b);
  }

  /** A lone `\r` ends a line, like `\n`. */
  lemma LinesOfLoneCr(a: string, b: string)
    requires '\n' !in a && '\r' !in a
    requires b == [] || b[0] != '\n'
    ensures LinesOf(a + "\r" + b) == [a] + LinesOf(b)
  {
    var rest := "\r" + b;
    assert rest[1..] == b;
    assert !(|rest| > 1 && rest[1] == '\n');
    assert UniversalNewlines(rest) == "\n" + UniversalNewlines(b);
    assert a + "\r" + b == a + rest;
    LinesOfCut(a, rest, b);
  }



  // ---------------------------------------------------------------------------
  // change_label_all
  // ---------------------------------------------------------------------------

  /** The tokens of a rewritten line: the first one becomes `newClass` when it
      is exactly `oldClass`, the others are kept. */
  function Retag(ws: seq<string>, oldClass: string, newClass: string): (r: seq<string>)
    requires ws != []
    ensures |r| == |ws| && r[1..] == ws[1..]
    ensures r[0] == (if ws[0] == oldClass then newClass else ws[0])
  {
    [if ws[0] == oldClass then newClass else ws[0]] + ws[1..]
  }

  /** One line of the rewrite: a blank line is dropped; otherwise its
      whitespace-separated tokens are retagged and joined with single spaces. */
  function RelabelLine(line: string, oldClass: string, newClass: string): Option<string> {
    var parts := Words(line);
    if parts == [] then None else Some(JoinWith(Retag(parts, oldClass, newClass), " "))
  }

  /** The rewritten lines of a file, in order. */
  function RelabelLines(lines: seq<string>, oldClass: string, newClass: string): seq<string> {
    if lines == [] then []
    else
      var prefix := RelabelLines(lines[..|lines| - 1], oldClass, newClass);
      match RelabelLine(lines[|lines| - 1], oldClass, newClass)
      case None => prefix
      case Some(l) => prefix + [l]
  }

  /** The text written back: the lines joined by `\n` with a final `\n`, or
      nothing at all when no line is left. */
  function Render(lines: seq<string>): string {
    if lines == [] then "" else JoinWith(lines, "\n") + "\n"
  }

  function RelabelText(text: string, oldClass: string, newClass: string): string {
    Render(RelabelLines(LinesOf(text), oldClass, newClass))
  }

  /** The per-file loop of `change_label_all`. */
  method RelabelFile(lines: seq<string>, oldClass: string, newClass: string) returns (newLines: seq<string>)
    ensures newLines == RelabelLines(lines, oldClass, newClass)
  {
    newLines := [];
    for i := 0 to |lines|
      invariant newLines == RelabelLines(lines[..i], oldClass, newClass)
    {
      assert lines[..i + 1][..i] == lines[..i];
      var parts := Words(lines[i]);
      if parts != [] {
        if parts[0] == oldClass {
          parts := [newClass] + parts[1..];
        }
        newLines := newLines + [JoinWith(parts, " ")];
      }
    }
    assert lines[..|lines|] == lines;
  }

  /** One file of `change_label_all`: read its lines, rewrite them, write them back. */
  method RelabelFileText(text: string, oldClass: string, newClass: string) returns (r: string)
    ensures r == RelabelText(text, oldClass, newClass)
  {
    var newLines := RelabelFile(LinesOf(text), oldClass, newClass);
    r := Render(newLines);
  }

  function Rewriter(oldClass: string, newClass: string): string -> string {
    t => RelabelText(t, oldClass, newClass)
  }

  function RelabelStep(d: Dir, name: string, rewrite: string -> string): (out: Dir)
    requires name in d
    ensures out.Keys == d.Keys
  {
    if IsLabelFile(name) then d[name := rewrite(d[name])] else d
  }

  function RelabelPrefix(dir: Dir, listing: seq<string>, count: nat, rewrite: string -> string): (out: Dir)
    requires count <= |listing|
    requires forall k :: 0 <= k < |listing| ==> listing[k] in dir
    ensures out.Keys == dir.Keys
  {
    if count == 0 then dir
    else RelabelStep(RelabelPrefix(dir, listing, count - 1, rewrite), listing[count - 1], rewrite)
  }

  method RelabelEntry(d: Dir, name: string, oldClass: string, newClass: string) returns (out: Dir)
    requires name in d
    ensures out == RelabelStep(d, name, Rewriter(oldClass, newClass))
  {
    out := d;
    if IsLabelFile(name) {
      var text := RelabelFileText(d[name], oldClass, newClass);
      out := d[name := text];
    }
  }

  method ChangeLabelAll(dir: Dir, listing: seq<string>, oldClass: string, newClass: string) returns (out: Dir)
    requires forall k :: 0 <= k < |listing| ==> listing[k] in dir
    ensures out == RelabelPrefix(dir, listing, |listing|, Rewriter(oldClass, newClass))
  {
    out := dir;
    for i := 0 to |listing|
      invariant out == RelabelPrefix(dir, listing, i, Rewriter(oldClass, newClass))
    {
      out := RelabelEntry(out, listing[i], oldClass, newClass);
    }
  }

  /** The first `count` names of the listing include `name`. */
  ghost predicate ListedBefore(listing: seq<string>, count: nat, name: string) {
    exists k :: 0 <= k < count && k < |listing| && listing[k] == name
  }

  lemma {:induction false} RelabelPrefixFile(dir: Dir, listing: seq<string>, count: nat, rewrite: string -> string, n: string)
    requires IsListing(dir, listing) && count <= |listing| && n in dir
    ensures RelabelPrefix(dir, listing, count, rewrite)[n]
      == if ListedBefore(listing, count, n) && IsLabelFile(n) then rewrite(dir[n]) else dir[n]
  {
    if count > 0 {
      RelabelPrefixFile(dir, listing, count - 1, rewrite, n);
      ListedBeforeStep(listing, count, n);
      if n == listing[count - 1] {
        NotListedBefore(listing, count);
      }
    }
  }

  /** After `change_label_all` every label file holds its rewritten text and
      every other file is as it was. */
  lemma ChangeLabelAllFile(dir: Dir, listing: seq<string>, oldClass: string, newClass: string, n: string)
    requires IsListing(dir, listing) && n in dir
    ensures n in RelabelPrefix(dir, listing, |listing|, Rewriter(oldClass, newClass))
    ensures RelabelPrefix(dir, listing, |listing|, Rewriter(oldClass, newClass))[n]
      == if IsLabelFile(n) then RelabelText(dir[n], oldClass, newClass) else dir[n]
  {
    RelabelPrefixFile(dir, listing, |listing|, Rewriter(oldClass, newClass), n);
    var k :| 0 <= k < |listing| && listing[k] == n;
    assert ListedBefore(listing, |listing|, n);
  }

  // ---------------------------------------------------------------------------
  // Properties of the rewrite
  // ---------------------------------------------------------------------------

  lemma {:induction false} JoinWordsNoNewline(ws: seq<string>)
    requires forall k :: 0 <= k < |ws| ==> IsWord(ws[k])
    ensures '\n' !in JoinWith(ws, " ") && '\r' !in JoinWith(ws, " ")
  {
    if ws != [] {
      assert forall i :: 0 <= i < |ws[0]| ==> ws[0][i] != '\n' && ws[0][i] != '\r';
      if |ws| > 1 {
        JoinWordsNoNewline(ws[1..]);
      }
    }
  }

  /** A rewritten line is dropped exactly when it is blank. */
  lemma RelabelLineDropsBlank(line: string, oldClass: string, newClass: string)
    ensures RelabelLine(line, oldClass, newClass).None? <==> IsBlank(line)
  {
    WordsEmptyIffBlank(line);
  }

  /** A kept line reads back as the retagged tokens of the original line. */
  lemma RelabelLineTokens(line: string, oldClass: string, newClass: string)
    requires IsWord(newClass) && !IsBlank(line)
    ensures RelabelLine(line, oldClass, newClass).Some?
    ensures Words(RelabelLine(line, oldClass, newClass).value) == Retag(Words(line), oldClass, newClass)
    ensures '\n' !in RelabelLine(line, oldClass, newClass).value && '\r' !in RelabelLine(line, oldClass, newClass).value
  {
    WordsEmptyIffBlank(line);
    var ws := Words(line);
    var r := Retag(ws, oldClass, newClass);
    assert forall k :: 0 <= k < |r| ==> IsWord(r[k]) by {
      WordsAreWords(line);
    }
    WordsOfJoin(r);
    JoinWordsNoNewline(r);
  }

  /** A line that has been through the rewrite comes out of it unchanged when
      the old and new ids differ: its first token is no longer `oldClass`. */
  lemma RelabelLineStable(line: string, oldClass: string, newClass: string)
    requires oldClass != newClass && IsWord(newClass) && !IsBlank(line)
    ensures RelabelLine(line, oldClass, newClass).Some?
    ensures var l := RelabelLine(line, oldClass, newClass).value;
      && !IsBlank(l) && '\n' !in l && '\r' !in l
      && ClassOfLine(l) != [oldClass]
      && RelabelLine(l, oldClass, newClass) == Some(l)
  {
    RelabelLineTokens(line, oldClass, newClass);
    var l := RelabelLine(line, oldClass, newClass).value;
    var r := Retag(Words(line), oldClass, newClass);
    assert Words(l) == r;
    assert Retag(r, oldClass, newClass) == r;
    WordsEmptyIffBlank(l);
    FirstTokenOfWords(l);
  }

  /** Lines that the rewrite keeps as they are make a file that the rewrite keeps as it is. */
  lemma {:induction false} RelabelLinesFixed(lines: seq<string>, oldClass: string, newClass: string)
    requires forall k :: 0 <= k < |lines| ==> RelabelLine(lines[k], oldClass, newClass) == Some(lines[k])
    ensures RelabelLines(lines, oldClass, newClass) == lines
  {
    if lines != [] {
      var init := lines[..|lines| - 1];
      RelabelLinesFixed(init, oldClass, newClass);
      assert init + [lines[|lines| - 1]] == lines;
    }
  }

  /** Every line of a rewritten file is non-blank, has no `\n`, and is left as it
      is by a second rewrite. */
  lemma {:induction false} RelabelLinesStable(lines: seq<string>, oldClass: string, newClass: string)
    requires oldClass != newClass && IsWord(newClass)
    ensures var out := RelabelLines(lines, oldClass, newClass);
      && |out| <= |lines|
      && forall k :: 0 <= k < |out| ==>
           && '\n' !in out[k] && '\r' !in out[k] && !IsBlank(out[k])
           && RelabelLine(out[k], oldClass, newClass) == Some(out[k])
  {
    if lines != [] {
      var init := lines[..|lines| - 1];
      var last := lines[|lines| - 1];
      RelabelLinesStable(init, oldClass, newClass);
      if !IsBlank(last) {
        RelabelLineStable(last, oldClass, newClass);
      } else {
        RelabelLineDropsBlank(last, oldClass, newClass);
      }
    }
  }

  lemma RelabelLinesAppendBlank(lines: seq<string>, oldClass: string, newClass: string)
    ensures RelabelLines(lines + [""], oldClass, newClass) == RelabelLines(lines, oldClass, newClass)
  {
    assert (lines + [""])[..|lines|] == lines;
    WordsEmptyIffBlank("");
  }

  /** Rewriting a file twice gives the same text as rewriting it once, when the
      old and new ids differ and the new id is a single token. */
  lemma RelabelTextIdempotent(text: string, oldClass: string, newClass: string)
    requires oldClass != newClass && IsWord(newClass)
    ensures RelabelText(RelabelText(text, oldClass, newClass), oldClass, newClass)
      == RelabelText(text, oldClass, newClass)
  {
    var out := RelabelLines(LinesOf(text), oldClass, newClass);
    RelabelLinesStable(LinesOf(text), oldClass, newClass);
    RelabelLinesFixed(out, oldClass, newClass);
    if out == [] {
      assert LinesOf("") == [""];
      WordsEmptyIffBlank("");
    } else {
      JoinWithAvoids(out, "\n", '\r');
      UniversalNewlinesWithoutCr(Render(out));
      SplitOnJoinTerminated(out, '\n');
      assert LinesOf(Render(out)) == out + [""];
      RelabelLinesAppendBlank(out, oldClass, newClass);
    }
  }

  /** The written text is empty, or the surviving lines each ended by `\n`:
      reading it back gives those lines and the empty tail after the last `\n`. */
  lemma RenderReadsBack(lines: seq<string>)
    requires forall k :: 0 <= k < |lines| ==> '\n' !in lines[k] && '\r' !in lines[k]
    ensures lines == [] ==> Render(lines) == ""
    ensures lines != [] ==> LinesOf(Render(lines)) == lines + [""] && Render(lines)[|Render(lines)| - 1] == '\n'
  {
    if lines != [] {
      JoinWithAvoids(lines, "\n", '\r');
      UniversalNewlinesWithoutCr(Render(lines));
      SplitOnJoinTerminated(lines, '\n');
    }
  }

  // ---------------------------------------------------------------------------
  // label_checker: counting classes
  // ---------------------------------------------------------------------------

  /** The class of a line, its first whitespace-separated token, when the line
      is not blank. */
  function ClassOfLine(line: string): seq<string> {
    if IsBlank(line) then [] else [FirstToken(line)]
  }

  /** One line of the `label_checker` loops: a blank line (`not line.strip()`)
      is skipped, otherwise the class is `line.split()[0]`. */
  method LineClass(line: string) returns (cls: seq<string>)
    ensures cls == ClassOfLine(line)
  {
    StripEmptyIffBlank(line);
    if Strip(line) == [] {
      return [];
    }
    FirstTokenOfWords(line);
    var ws := Words(line);
    return [ws[0]];
  }

  /** The classes of the first `count` lines, in order. */
  function ClassesOfLines(lines: seq<string>, count: nat): seq<string>
    requires count <= |lines|
  {
    if count == 0 then [] else ClassesOfLines(lines, count - 1) + ClassOfLine(lines[count - 1])
  }

  /** The class of every box of a label file, in order. */
  function ClassesOfText(text: string): seq<string> {
    ClassesOfLines(LinesOf(text), |LinesOf(text)|)
  }

  /** The classes of the boxes in the label files among the first `count`
      names of the listing, in listing order. */
  function ClassesOfDir(dir: Dir, listing: seq<string>, count: nat): seq<string>
    requires count <= |listing|
    requires forall k :: 0 <= k < |listing| ==> listing[k] in dir
  {
    if count == 0 then []
    else
      var name := listing[count - 1];
      ClassesOfDir(dir, listing, count - 1) + (if IsLabelFile(name) then ClassesOfText(dir[name]) else [])
  }

  /** The class of every box of the directory. */
  ghost function AllClasses(dir: Dir, listing: seq<string>): seq<string>
    requires IsListing(dir, listing)
  {
    ClassesOfDir(dir, listing, |listing|)
  }

  /** A `collections.Counter`: a dict that remembers the order in which its
      keys were first added. */
  datatype Counter = Counter(order: seq<string>, counts: map<string, nat>)

  function Increment(c: Counter, x: string): Counter {
    if x in c.counts then Counter(c.order, c.counts[x := c.counts[x] + 1])
    else Counter(c.order + [x], c.counts[x := 1])
  }

  /** The counter after counting `ids` one by one from empty. */
  function Tally(ids: seq<string>): Counter {
    if ids == [] then Counter([], map[]) else Increment(Tally(ids[..|ids| - 1]), ids[|ids| - 1])
  }

  function Occurrences(ids: seq<string>, x: string): nat {
    if ids == [] then 0
    else Occurrences(ids[..|ids| - 1], x) + (if ids[|ids| - 1] == x then 1 else 0)
  }

  /** The position of the first occurrence of `x`, or `|ids|` when there is none. */
  function FirstIndex(ids: seq<string>, x: string): (i: nat)
    ensures i <= |ids|
    ensures i < |ids| ==> ids[i] == x
    ensures forall k :: 0 <= k < i ==> ids[k] != x
  {
    if ids == [] then 0 else if ids[0] == x then 0 else 1 + FirstIndex(ids[1..], x)
  }

  function SumCounts(order: seq<string>, counts: map<string, nat>): nat
    requires forall x :: x in order ==> x in counts
  {
    if order == [] then 0 else SumCounts(order[..|order| - 1], counts) + counts[order[|order| - 1]]
  }

  ghost predicate Distinct(xs: seq<string>) {
    forall i, j :: 0 <= i < j < |xs| ==> xs[i] != xs[j]
  }

  lemma TallySnoc(ids: seq<string>, x: string)
    ensures Tally(ids + [x]) == Increment(Tally(ids), x)
  {
    assert (ids + [x])[..|ids|] == ids;
  }

  lemma OccurrencesSnoc(ids: seq<string>, x: string, y: string)
    ensures Occurrences(ids + [x], y) == Occurrences(ids, y) + (if x == y then 1 else 0)
  {
    assert (ids + [x])[..|ids|] == ids;
  }

  /** `FirstIndex` is the one index before which `x` does not occur. */
  lemma FirstIndexUnique(ids: seq<string>, x: string, i: nat)
    requires i <= |ids| && (i < |ids| ==> ids[i] == x)
    requires forall k :: 0 <= k < i ==> ids[k] != x
    ensures FirstIndex(ids, x) == i
  {
  }

  /** The counter's keys are the counted classes, each once. */
  lemma {:induction false} TallyKeys(ids: seq<string>)
    ensures Distinct(Tally(ids).order)
    ensures forall x :: x in Tally(ids).order <==> x in ids
    ensures forall x :: x in Tally(ids).counts <==> x in ids
  {
    if ids != [] {
      var init := ids[..|ids| - 1];
      assert ids == init + [ids[|ids| - 1]];
      TallyKeys(init);
    }
  }

  /** Each count is the number of occurrences of its class. */
  lemma {:induction false} TallyCounts(ids: seq<string>)
    ensures forall x :: x in Tally(ids).counts ==> Tally(ids).counts[x] == Occurrences(ids, x)
  {
    if ids != [] {
      var init := ids[..|ids| - 1];
      var x := ids[|ids| - 1];
      assert ids == init + [x];
      TallyCounts(init);
      TallyKeys(init);
      forall y ensures Occurrences(ids, y) == Occurrences(init, y) + (if x == y then 1 else 0) {
        OccurrencesSnoc(init, x, y);
      }
      forall y | y in Tally(ids).counts && y !in init ensures Occurrences(init, y) == 0 {
        OccurrencesAbsent(init, y);
      }
    }
  }

  lemma {:induction false} OccurrencesAbsent(ids: seq<string>, y: string)
    requires y !in ids
    ensures Occurrences(ids, y) == 0
  {
    if ids != [] {
      OccurrencesAbsent(ids[..|ids| - 1], y);
    }
  }

  lemma FirstIndexSnoc(init: seq<string>, x: string, y: string)
    requires y in init
    ensures FirstIndex(init, y) < |init| && FirstIndex(init + [x], y) == FirstIndex(init, y)
  {
    var f := FirstIndex(init, y);
    assert f < |init| by {
      var i :| 0 <= i < |init| && init[i] == y;
    }
    FirstIndexUnique(init + [x], y, f);
  }

  /** The counter's keys are in order of first appearance. */
  lemma {:induction false} TallyOrder(ids: seq<string>)
    ensures forall i, j :: 0 <= i < j < |Tally(ids).order| ==>
      FirstIndex(ids, Tally(ids).order[i]) < FirstIndex(ids, Tally(ids).order[j])
  {
    if ids != [] {
      var init := ids[..|ids| - 1];
      var x := ids[|ids| - 1];
      assert ids == init + [x];
      TallyOrder(init);
      TallyKeys(init);
      var p := Tally(init).order;
      var o := Tally(ids).order;
      assert o == p || (o == p + [x] && x !in init);
      forall i, j | 0 <= i < j < |o| ensures FirstIndex(ids, o[i]) < FirstIndex(ids, o[j]) {
        assert o[i] == p[i] && p[i] in init;
        FirstIndexSnoc(init, x, o[i]);
        if j < |p| {
          assert o[j] == p[j] && p[j] in init;
          FirstIndexSnoc(init, x, o[j]);
        } else {
          FirstIndexUnique(ids, x, |init|);
        }
      }
    }
  }

  lemma SumCountsOther(order: seq<string>, counts: map<string, nat>, x: string, v: nat)
    requires forall y :: y in order ==> y in counts
    requires x !in order
    ensures SumCounts(order, counts[x := v]) == SumCounts(order, counts)
  {
    if order != [] {
      SumCountsOther(order[..|order| - 1], counts, x, v);
    }
  }

  lemma {:induction false} SumCountsBump(order: seq<string>, counts: map<string, nat>, x: string)
    requires forall y :: y in order ==> y in counts
    requires Distinct(order) && x in order
    ensures SumCounts(order, counts[x := counts[x] + 1]) == SumCounts(order, counts) + 1
  {
    var init := order[..|order| - 1];
    var last := order[|order| - 1];
    if last == x {
      assert x !in init;
      SumCountsOther(init, counts, x, counts[x] + 1);
    } else {
      assert x in init;
      SumCountsBump(init, counts, x);
    }
  }

  lemma SumCountsSnoc(order: seq<string>, counts: map<string, nat>, x: string)
    requires forall y :: y in order ==> y in counts
    requires x in counts
    ensures SumCounts(order + [x], counts) == SumCounts(order, counts) + counts[x]
  {
    assert (order + [x])[..|order|] == order;
  }

  /** The counts add up to the number of boxes counted. */
  lemma {:induction false} TallySum(ids: seq<string>)
    ensures forall x :: x in Tally(ids).order ==> x in Tally(ids).counts
    ensures SumCounts(Tally(ids).order, Tally(ids).counts) == |ids|
  {
    if ids != [] {
      var init := ids[..|ids| - 1];
      var x := ids[|ids| - 1];
      var p := Tally(init);
      var c := Tally(ids);
      assert c == Increment(p, x);
      TallySum(init);
      if x in p.counts {
        assert Distinct(p.order) && x in p.order by {
          TallyKeys(init);
        }
        SumCountsBump(p.order, p.counts, x);
      } else {
        assert x !in p.order by {
          TallyKeys(init);
        }
        SumCountsOther(p.order, p.counts, x, 1);
        SumCountsSnoc(p.order, c.counts, x);
      }
    }
  }

  /** `m` is what `min(counter, key=counter.get)` gives for the counter of
      `ids`: a class with the fewest boxes, and among those the first seen. */
  ghost predicate IsMinority(ids: seq<string>, m: string) {
    && m in ids
    && (forall x :: x in ids ==> Occurrences(ids, m) <= Occurrences(ids, x))
    && (forall x :: x in ids && FirstIndex(ids, x) < FirstIndex(ids, m) ==> Occurrences(ids, m) < Occurrences(ids, x))
  }

  /** There is at most one such class. */
  lemma MinorityUnique(ids: seq<string>, a: string, b: string)
    requires IsMinority(ids, a) && IsMinority(ids, b)
    ensures a == b
  {
    var fa := FirstIndex(ids, a);
    var fb := FirstIndex(ids, b);
    assert fa < |ids| && fb < |ids| by {
      var i :| 0 <= i < |ids| && ids[i] == a;
      var j :| 0 <= j < |ids| && ids[j] == b;
    }
  }

  /** Python's `min(counter, key=counter.get)`: the first key, in counter
      order, whose count is the smallest. */
  method Minority(c: Counter) returns (m: Option<string>, ghost k: nat)
    requires forall x :: x in c.order ==> x in c.counts
    ensures m.None? <==> c.order == []
    ensures m.Some? ==> k < |c.order| && c.order[k] == m.value
    ensures m.Some? ==> forall j :: 0 <= j < |c.order| ==> c.counts[m.value] <= c.counts[c.order[j]]
    ensures m.Some? ==> forall j :: 0 <= j < k ==> c.counts[m.value] < c.counts[c.order[j]]
  {
    k := 0;
    if c.order == [] {
      return None, k;
    }
    var best := 0;
    for i := 1 to |c.order|
      invariant 0 <= best < i
      invariant forall j :: 0 <= j < i ==> c.counts[c.order[best]] <= c.counts[c.order[j]]
      invariant forall j :: 0 <= j < best ==> c.counts[c.order[best]] < c.counts[c.order[j]]
    {
      if c.counts[c.order[i]] < c.counts[c.order[best]] {
        best := i;
      }
    }
    m, k := Some(c.order[best]), best;
  }

  /** The key `Minority` picks from the counter of `ids` is the minority of `ids`. */
  lemma MinorityOfTally(ids: seq<string>, k: nat)
    requires k < |Tally(ids).order|
    requires forall x :: x in Tally(ids).order ==> x in Tally(ids).counts
    requires var c := Tally(ids);
      forall j :: 0 <= j < |c.order| ==> c.counts[c.order[k]] <= c.counts[c.order[j]]
    requires var c := Tally(ids);
      forall j :: 0 <= j < k ==> c.counts[c.order[k]] < c.counts[c.order[j]]
    ensures IsMinority(ids, Tally(ids).order[k])
  {
    var c := Tally(ids);
    var m := c.order[k];
    TallyKeys(ids);
    TallyCounts(ids);
    TallyOrder(ids);
    forall x | x in ids ensures Occurrences(ids, m) <= Occurrences(ids, x) {
      var j :| 0 <= j < |c.order| && c.order[j] == x;
    }
    forall x | x in ids && FirstIndex(ids, x) < FirstIndex(ids, m)
      ensures Occurrences(ids, m) < Occurrences(ids, x)
    {
      var j :| 0 <= j < |c.order| && c.order[j] == x;
      assert j != k;
    }
  }

  /** `c0` with the first `n` ids counted one after the other. */
  function TallyOnto(c0: Counter, ids: seq<string>, n: nat): Counter
    requires n <= |ids|
  {
    if n == 0 then c0 else Increment(TallyOnto(c0, ids, n - 1), ids[n - 1])
  }

  lemma {:induction false} TallyOntoPrefix(c0: Counter, a: seq<string>, b: seq<string>, n: nat)
    requires n <= |a| && n <= |b|
    requires forall k :: 0 <= k < n ==> a[k] == b[k]
    ensures TallyOnto(c0, a, n) == TallyOnto(c0, b, n)
  {
    if n > 0 {
      TallyOntoPrefix(c0, a, b, n - 1);
    }
  }

  /** Counting a whole sequence from empty is `Tally`. */
  lemma {:induction false} TallyOntoIsTally(ids: seq<string>, n: nat)
    requires n <= |ids|
    ensures TallyOnto(Counter([], map[]), ids, n) == Tally(ids[..n])
  {
    if n > 0 {
      TallyOntoIsTally(ids, n - 1);
      assert ids[..n][..n - 1] == ids[..n - 1];
    }
  }

  /** Counting `b` after `a` is counting `a + b`. */
  lemma {:induction false} TallyOntoAppend(c0: Counter, a: seq<string>, b: seq<string>, m: nat)
    requires m <= |b|
    ensures TallyOnto(TallyOnto(c0, a, |a|), b, m) == TallyOnto(c0, a + b, |a| + m)
  {
    if m == 0 {
      TallyOntoPrefix(c0, a, a + b, |a|);
    } else {
      TallyOntoAppend(c0, a, b, m - 1);
      assert (a + b)[|a| + m - 1] == b[m - 1];
    }
  }

  /** The inner loop of `label_checker`: count the class of every non-blank line. */
  method CountLines(c0: Counter, lines: seq<string>) returns (c: Counter)
    ensures c == TallyOnto(c0, ClassesOfLines(lines, |lines|), |ClassesOfLines(lines, |lines|)|)
  {
    c := c0;
    for j := 0 to |lines|
      invariant c == TallyOnto(c0, ClassesOfLines(lines, j), |ClassesOfLines(lines, j)|)
    {
      var cls := LineClass(lines[j]);
      ghost var counted := ClassesOfLines(lines, j);
      assert ClassesOfLines(lines, j + 1) == counted + cls;
      TallyOntoPrefix(c0, counted + cls, counted, |counted|);
      if cls != [] {
        c := Increment(c, cls[0]);
      }
    }
  }

  lemma TallyOntoAll(ids: seq<string>)
    ensures TallyOnto(Counter([], map[]), ids, |ids|) == Tally(ids)
  {
    TallyOntoIsTally(ids, |ids|);
    assert ids[..|ids|] == ids;
  }

  /** One name of the counting loops: count the classes of its boxes when it is a label file. */
  method CountEntry(c0: Counter, dir: Dir, listing: seq<string>, i: nat) returns (c: Counter)
    requires IsListing(dir, listing) && i < |listing|
    requires c0 == TallyOnto(Counter([], map[]), ClassesOfDir(dir, listing, i), |ClassesOfDir(dir, listing, i)|)
    ensures c == TallyOnto(Counter([], map[]), ClassesOfDir(dir, listing, i + 1), |ClassesOfDir(dir, listing, i + 1)|)
  {
    c := c0;
    var name := listing[i];
    ghost var counted := ClassesOfDir(dir, listing, i);
    if IsLabelFile(name) {
      var lines := LinesOf(dir[name]);
      c := CountLines(c, lines);
      TallyOntoAppend(Counter([], map[]), counted, ClassesOfLines(lines, |lines|), |ClassesOfLines(lines, |lines|)|);
    } else {
      assert ClassesOfDir(dir, listing, i + 1) == counted;
    }
  }

  /** The counting loops of `label_checker`. */
  method CountClasses(dir: Dir, listing: seq<string>) returns (c: Counter)
    requires IsListing(dir, listing)
    ensures c == Tally(AllClasses(dir, listing))
  {
    c := Counter([], map[]);
    for i := 0 to |listing|
      invariant c == TallyOnto(Counter([], map[]), ClassesOfDir(dir, listing, i), |ClassesOfDir(dir, listing, i)|)
    {
      c := CountEntry(c, dir, listing, i);
    }
    TallyOntoAll(AllClasses(dir, listing));
  }

  /** `label_checker`: `None` exactly when there is no box at all; otherwise
      the minority class. */
  method LabelChecker(dir: Dir, listing: seq<string>) returns (m: Option<string>)
    requires IsListing(dir, listing)
    ensures m.None? <==> AllClasses(dir, listing) == []
    ensures m.Some? ==> IsMinority(AllClasses(dir, listing), m.value)
  {
    var c := CountClasses(dir, listing);
    ghost var ids := AllClasses(dir, listing);
    TallySum(ids);
    TallyKeys(ids);
    assert ids == [] <==> c.order == [] by {
      if ids != [] {
        assert ids[0] in c.order;
      }
    }
    ghost var k;
    m, k := Minority(c);
    if m.Some? {
      MinorityOfTally(ids, k);
    }
  }

  // ---------------------------------------------------------------------------
  // label_checker_minor
  // ---------------------------------------------------------------------------

  /** The label files among the first `count` names of the listing that hold a
      box of class `cls`, in listing order. */
  function FilesWithClass(dir: Dir, listing: seq<string>, count: nat, cls: string): seq<string>
    requires count <= |listing|
    requires forall k :: 0 <= k < |listing| ==> listing[k] in dir
  {
    if count == 0 then []
    else
      var name := listing[count - 1];
      FilesWithClass(dir, listing, count - 1, cls)
        + (if IsLabelFile(name) && cls in ClassesOfText(dir[name]) then [name] else [])
  }

  lemma {:induction false} ClassesOfLinesPrefix(lines: seq<string>, j: nat, n: nat)
    requires j <= n <= |lines|
    ensures forall x :: x in ClassesOfLines(lines, j) ==> x in ClassesOfLines(lines, n)
  {
    if j < n {
      ClassesOfLinesPrefix(lines, j, n - 1);
    }
  }

  /** The inner loop of `label_checker_minor`: does a non-blank line start with `cls`?
      The loop stops at the first one. */
  method HasClass(lines: seq<string>, cls: string) returns (found: bool)
    ensures found <==> cls in ClassesOfLines(lines, |lines|)
  {
    for j := 0 to |lines|
      invariant cls !in ClassesOfLines(lines, j)
    {
      var lineClass := LineClass(lines[j]);
      if lineClass == [cls] {
        assert cls in ClassesOfLines(lines, j + 1);
        ClassesOfLinesPrefix(lines, j + 1, |lines|);
        return true;
      }
    }
    return false;
  }

  /** The outer loop of `label_checker_minor`. */
  method ListFilesWithClass(dir: Dir, listing: seq<string>, cls: string) returns (files: seq<string>)
    requires IsListing(dir, listing)
    ensures files == FilesWithClass(dir, listing, |listing|, cls)
  {
    files := [];
    for i := 0 to |listing|
      invariant files == FilesWithClass(dir, listing, i, cls)
    {
      var name := listing[i];
      if IsLabelFile(name) {
        var found := HasClass(LinesOf(dir[name]), cls);
        if found {
          files := files + [name];
        }
      }
    }
  }

  /** `label_checker_minor`: `None` when there is no box; otherwise the files,
      in listing order, that hold at least one box of the minority class. */
  method LabelCheckerMinor(dir: Dir, listing: seq<string>) returns (files: Option<seq<string>>)
    requires IsListing(dir, listing)
    ensures files.None? <==> AllClasses(dir, listing) == []
    ensures files.Some? ==>
      exists m :: IsMinority(AllClasses(dir, listing), m) && files.value == FilesWithClass(dir, listing, |listing|, m)
  {
    var minority := LabelChecker(dir, listing);
    if minority.None? {
      return None;
    }
    var result := ListFilesWithClass(dir, listing, minority.value);
    files := Some(result);
  }

  /** In a listing without repeats, no name is listed before its own position. */
  lemma NotListedBefore(listing: seq<string>, count: nat)
    requires 0 < count <= |listing|
    requires forall i, j :: 0 <= i < j < |listing| ==> listing[i] != listing[j]
    ensures !ListedBefore(listing, count - 1, listing[count - 1])
  {
  }

  lemma ListedBeforeStep(listing: seq<string>, count: nat, n: string)
    requires 0 < count <= |listing|
    ensures ListedBefore(listing, count, n) <==> ListedBefore(listing, count - 1, n) || n == listing[count - 1]
  {
    if ListedBefore(listing, count, n) && n != listing[count - 1] {
      var k :| 0 <= k < count && k < |listing| && listing[k] == n;
      assert k < count - 1;
    }
  }

  /** A file is reported exactly when it is a listed label file with a box of that class. */
  lemma {:induction false} FilesWithClassMember(dir: Dir, listing: seq<string>, count: nat, cls: string, n: string)
    requires IsListing(dir, listing) && count <= |listing|
    ensures n in FilesWithClass(dir, listing, count, cls) <==>
      ListedBefore(listing, count, n) && n in dir && IsLabelFile(n) && cls in ClassesOfText(dir[n])
  {
    if count > 0 {
      FilesWithClassMember(dir, listing, count - 1, cls, n);
      ListedBeforeStep(listing, count, n);
    }
  }

  lemma DistinctAppendOne(xs: seq<string>, ys: seq<string>)
    requires Distinct(xs) && |ys| <= 1
    requires forall k :: 0 <= k < |ys| ==> ys[k] !in xs
    ensures Distinct(xs + ys)
  {
  }

  /** One more position reports its name or nothing. */
  lemma FilesWithClassStep(dir: Dir, listing: seq<string>, count: nat, cls: string) returns (extra: seq<string>)
    requires 0 < count <= |listing| && forall k :: 0 <= k < |listing| ==> listing[k] in dir
    ensures FilesWithClass(dir, listing, count, cls) == FilesWithClass(dir, listing, count - 1, cls) + extra
    ensures extra == [] || extra == [listing[count - 1]]
  {
    var name := listing[count - 1];
    extra := if IsLabelFile(name) && cls in ClassesOfText(dir[name]) then [name] else [];
  }

  /** The name at a position has not been reported by the earlier positions. */
  lemma NotYetReported(dir: Dir, listing: seq<string>, count: nat, cls: string)
    requires IsListing(dir, listing) && 0 < count <= |listing|
    ensures listing[count - 1] !in FilesWithClass(dir, listing, count - 1, cls)
  {
    FilesWithClassMember(dir, listing, count - 1, cls, listing[count - 1]);
    NotListedBefore(listing, count);
  }

  /** No file is reported twice. */
  lemma {:induction false} FilesWithClassDistinct(dir: Dir, listing: seq<string>, count: nat, cls: string)
    requires IsListing(dir, listing) && count <= |listing|
    ensures Distinct(FilesWithClass(dir, listing, count, cls))
  {
    if count > 0 {
      var name := listing[count - 1];
      var prev := FilesWithClass(dir, listing, count - 1, cls);
      FilesWithClassDistinct(dir, listing, count - 1, cls);
      NotYetReported(dir, listing, count, cls);
      var extra := FilesWithClassStep(dir, listing, count, cls);
      DistinctAppendOne(prev, extra);
    }
  }
}
