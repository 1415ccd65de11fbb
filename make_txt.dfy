/** The dataset list writer: from the listing of a labelled image folder it
    keeps the `.jpg` files that are not macOS dump files (`._*`), takes the
    stem of each, drops repeated stems, and writes the first 80% of them to
    `Train.txt` and the rest to `Valid.txt`, one `<folder>/<stem>.jpg` line
    each. The folder's absolute path is a parameter; the written files are
    the two strings returned. */
module MakeTxt {
  import opened Strings

  /** The two filters: a `.jpg` file that does not start with `._`. */
  predicate IsListed(name: string) {
    EndsWith(name, ".jpg") && !StartsWith(name, "._")
  }

  /** The listing after the two list comprehensions, in listing order. */
  function Kept(listing: seq<string>): (kept: seq<string>)
    ensures forall x :: x in kept <==> x in listing && IsListed(x)
    ensures forall k :: 0 <= k < |kept| ==> IsListed(kept[k])
  {
    if listing == [] then []
    else
      assert forall x :: x in listing <==> x == listing[0] || x in listing[1..];
      (if IsListed(listing[0]) then [listing[0]] else []) + Kept(listing[1..])
  }

  /** `name.split(".")[-2]`: the part before the last dot, after any dot
      before it. */
  function Stem(name: string): (stem: string)
    requires '.' in name
    ensures '.' !in stem
  {
    SplitOnHasTwo(name, '.');
    var parts := SplitOn(name, '.');
    parts[|parts| - 2]
  }

  lemma KeptHaveDot(name: string)
    requires IsListed(name)
    ensures '.' in name
  {
    assert name[|name| - 4] == '.';
  }

  /** The stem of `x.jpg` is `x` when `x` has no dot. */
  lemma StemOfPlain(stem: string)
    requires '.' !in stem
    ensures Stem(stem + ".jpg") == stem
  {
    assert stem + ".jpg" == stem + ['.'] + "jpg";
    SplitOnCut(stem, "jpg", '.');
    SplitOnWithout("jpg", '.');
  }

  /** Only the part between the last two dots is kept: `a.b.jpg` gives `b`. */
  lemma StemOfDotted(prefix: string, stem: string)
    requires '.' !in stem
    ensures Stem(prefix + "." + stem + ".jpg") == stem
  {
    var name := prefix + "." + stem + ".jpg";
    assert name == prefix + ['.'] + (stem + ['.'] + "jpg");
    SplitOnAppend(prefix, stem + ['.'] + "jpg", '.');
    SplitOnCut(stem, "jpg", '.');
    SplitOnWithout("jpg", '.');
  }

  /** The stems of the kept files, in order. */
  function Stems(kept: seq<string>): (stems: seq<string>)
    requires forall k :: 0 <= k < |kept| ==> IsListed(kept[k])
    ensures |stems| == |kept|
  {
    seq(|kept|, k requires 0 <= k < |kept| => KeptHaveDot(kept[k]); Stem(kept[k]))
  }

  /** `result` lists every element of `temp` once, in some order:
      `list(set(temp))`. */
  predicate IsEnumeration(result: seq<string>, temp: seq<string>) {
    && (forall i, j :: 0 <= i < j < |result| ==> result[i] != result[j])
    && (forall x :: x in result ==> x in temp)
    && (forall x :: x in temp ==> x in result)
  }

  /** One enumeration: the first occurrence of each element. */
  function FirstOccurrences(temp: seq<string>): (r: seq<string>)
    ensures IsEnumeration(r, temp)
  {
    if temp == [] then []
    else
      var init := FirstOccurrences(temp[..|temp| - 1]);
      assert forall x :: x in temp <==> x in temp[..|temp| - 1] || x == temp[|temp| - 1];
      if temp[|temp| - 1] in init then init else init + [temp[|temp| - 1]]
  }

  /** The line written for a stem. */
  function Line(dir: string, stem: string): string {
    dir + "/" + stem + ".jpg\n"
  }

  /** A list file: one line per stem, in order. */
  function ListFile(dir: string, stems: seq<string>): string {
    if stems == [] then [] else ListFile(dir, stems[..|stems| - 1]) + Line(dir, stems[|stems| - 1])
  }

  /** `int(len(result) * 0.8)`. */
  function TrainCount(total: nat): (n: nat)
    ensures n <= total
  {
    total * 4 / 5
  }

  /** `make_list_txt`: filter the listing, collect the stems, enumerate them
      once each, and write the first `TrainCount` to the train list and the
      rest to the valid list. */
  method MakeListTxt(listing: seq<string>, dir: string)
    returns (result: seq<string>, train: string, valid: string)
    ensures IsEnumeration(result, Stems(Kept(listing)))
    ensures train == ListFile(dir, result[..TrainCount(|result|)])
    ensures valid == ListFile(dir, result[TrainCount(|result|)..])
  {
    var kept := Kept(listing);
    var temp := CollectStems(kept);
    ghost var firstSeen := FirstOccurrences(temp);
    result :| IsEnumeration(result, temp);
    var n := TrainCount(|result|);
    train := WriteList(dir, result[..n]);
    valid := WriteList(dir, result[n..]);
  }

  /** The loop that appends the stem of every kept name to `temp`. */
  method CollectStems(kept: seq<string>) returns (temp: seq<string>)
    requires forall k :: 0 <= k < |kept| ==> IsListed(kept[k])
    ensures temp == Stems(kept)
  {
    temp := [];
    for k := 0 to |kept|
      invariant temp == Stems(kept[..k])
    {
      KeptHaveDot(kept[k]);
      temp := temp + [Stem(kept[k])];
    }
    assert kept[..|kept|] == kept;
  }

  /** A write loop: one line per stem, in order. */
  method WriteList(dir: string, stems: seq<string>) returns (text: string)
    ensures text == ListFile(dir, stems)
  {
    text := [];
    for j := 0 to |stems|
      invariant text == ListFile(dir, stems[..j])
    {
      assert stems[..j + 1][..j] == stems[..j];
      text := text + Line(dir, stems[j]);
    }
    assert stems[..|stems|] == stems;
  }

  /** The two lists together are the list of all stems, train first. */
  lemma {:induction false} ListFileAppend(dir: string, a: seq<string>, b: seq<string>)
    ensures ListFile(dir, a + b) == ListFile(dir, a) + ListFile(dir, b)
    decreases |b|
  {
    if b == [] {
      assert a + b == a;
    } else {
      assert (a + b)[..|a + b| - 1] == a + b[..|b| - 1];
      ListFileAppend(dir, a, b[..|b| - 1]);
    }
  }

  /** A list file reads back, line by line, as `<dir>/<stem>.jpg` for each
      stem in order, followed by the empty text after the last newline. */
  lemma {:induction false} ListFileLines(dir: string, stems: seq<string>)
    requires stems != [] && '\n' !in dir
    requires forall k :: 0 <= k < |stems| ==> '\n' !in stems[k]
    ensures SplitOn(ListFile(dir, stems), '\n')
         == seq(|stems|, k requires 0 <= k < |stems| => dir + "/" + stems[k] + ".jpg") + [[]]
  {
    var lines := seq(|stems|, k requires 0 <= k < |stems| => dir + "/" + stems[k] + ".jpg");
    ListFileJoin(dir, stems);
    SplitOnJoinTerminated(lines, '\n');
  }

  lemma {:induction false} ListFileJoin(dir: string, stems: seq<string>)
    requires stems != [] && '\n' !in dir
    requires forall k :: 0 <= k < |stems| ==> '\n' !in stems[k]
    ensures var lines := seq(|stems|, k requires 0 <= k < |stems| => dir + "/" + stems[k] + ".jpg");
            && ListFile(dir, stems) == JoinWith(lines, "\n") + "\n"
            && forall k :: 0 <= k < |lines| ==> '\n' !in lines[k]
    decreases |stems|
  {
    var lines := seq(|stems|, k requires 0 <= k < |stems| => dir + "/" + stems[k] + ".jpg");
    if |stems| > 1 {
      var init := stems[..|stems| - 1];
      ListFileJoin(dir, init);
      var initLines := seq(|init|, k requires 0 <= k < |init| => dir + "/" + init[k] + ".jpg");
      assert initLines + [lines[|lines| - 1]] == lines;
      JoinWithSnoc(initLines, lines[|lines| - 1], "\n");
      assert ListFile(dir, stems) == ListFile(dir, init) + Line(dir, stems[|stems| - 1]);
    }
  }

  /** Joining one more part puts the separator before it. */
  lemma {:induction false} JoinWithSnoc(parts: seq<string>, last: string, sep: string)
    requires parts != []
    ensures JoinWith(parts + [last], sep) == JoinWith(parts, sep) + sep + last
  {
    if |parts| == 1 {
      assert (parts + [last])[1..] == [last];
    } else {
      assert (parts + [last])[1..] == parts[1..] + [last];
      JoinWithSnoc(parts[1..], last, sep);
    }
  }

  /** Train and valid share no stem, and between them hold every stem once;
      the train list has `TrainCount` stems. */
  lemma TrainValidPartition(result: seq<string>, temp: seq<string>)
    requires IsEnumeration(result, temp)
    ensures var n := TrainCount(|result|);
            && |result[..n]| == n
            && (forall x :: x in result[..n] ==> x !in result[n..])
            && (forall x :: x in temp <==> x in result[..n] || x in result[n..])
  {
    var n := TrainCount(|result|);
    assert result == result[..n] + result[n..];
  }
}
