/** The batch renamer: every file listed in a folder is renamed, in listing
    order, to `<path><cName><counter>.jpg`, the counter starting at the
    shooting date and going up by one per file. The folder is a map from full
    path to contents; `os.rename` replaces whatever the target path held and
    fails, ending the run, when the source is missing. */
module Rename {
  import opened Strings

  type Files = map<string, string>

  /** The new path of the file renamed with counter value `counter`: plain
      concatenation, no separator added. */
  function NewName(path: string, cName: string, counter: int): string {
    path + cName + IntText(counter) + ".jpg"
  }

  /** `os.rename(src, dst)`. */
  function Move<K(==), V>(fs: map<K, V>, src: K, dst: K): Option<map<K, V>> {
    if src !in fs then None else Some((fs - {src})[dst := fs[src]])
  }

  /** The first `k` moves of `srcs[i]` to `dsts[i]`, or nothing once one fails. */
  function MoveAll<K(==), V>(fs: map<K, V>, srcs: seq<K>, dsts: seq<K>, k: nat): Option<map<K, V>>
    requires k <= |srcs| == |dsts|
  {
    if k == 0 then Some(fs)
    else match MoveAll(fs, srcs, dsts, k - 1)
      case None => None
      case Some(cur) => Move(cur, srcs[k - 1], dsts[k - 1])
  }

  /** The paths of the listed files. */
  function SourcePaths(path: string, listing: seq<string>): (srcs: seq<string>)
    ensures |srcs| == |listing|
  {
    seq(|listing|, k requires 0 <= k < |listing| => path + listing[k])
  }

  /** Their new names: the counter starts at `date`. */
  function TargetPaths(path: string, cName: string, date: int, n: nat): (dsts: seq<string>)
    ensures |dsts| == n
  {
    seq(n, k requires 0 <= k < n => NewName(path, cName, date + k))
  }

  /** The folder after renaming the first `k` listed files. */
  function RenameFirst(fs: Files, path: string, cName: string, date: int, listing: seq<string>, k: nat)
    : Option<Files>
    requires k <= |listing|
  {
    MoveAll(fs, SourcePaths(path, listing), TargetPaths(path, cName, date, |listing|), k)
  }

  /** `changeName`: walk the listing with a counter from `date`, renaming
      each file. */
  method ChangeName(fs: Files, path: string, cName: string, date: int, listing: seq<string>)
    returns (result: Option<Files>)
    ensures result == RenameFirst(fs, path, cName, date, listing, |listing|)
  {
    ghost var srcs, dsts := SourcePaths(path, listing), TargetPaths(path, cName, date, |listing|);
    var i := date;
    var files := fs;
    for k := 0 to |listing|
      invariant i == date + k
      invariant MoveAll(fs, srcs, dsts, k) == Some(files)
    {
      var src := path + listing[k];
      assert src == srcs[k] && NewName(path, cName, i) == dsts[k];
      if src !in files {
        FailureStays(fs, srcs, dsts, k + 1, |listing|);
        return None;
      }
      files := (files - {src})[NewName(path, cName, i) := files[src]];
      i := i + 1;
    }
    return Some(files);
  }

  /** Once a move fails, the run has failed. */
  lemma {:induction false} FailureStays<K, V>(fs: map<K, V>, srcs: seq<K>, dsts: seq<K>, k: nat, n: nat)
    requires k <= n <= |srcs| == |dsts|
    requires MoveAll(fs, srcs, dsts, k) == None
    ensures MoveAll(fs, srcs, dsts, n) == None
    decreases n - k
  {
    if k < n {
      FailureStays(fs, srcs, dsts, k + 1, n);
    }
  }

  /** Different counter values give different names. */
  lemma NewNamesDistinct(path: string, cName: string, a: int, b: int)
    requires a != b
    ensures NewName(path, cName, a) != NewName(path, cName, b)
  {
    var na, nb := NewName(path, cName, a), NewName(path, cName, b);
    if na == nb {
      var p := |path + cName|;
      assert IntText(a) == na[p..|na| - 4];
      assert IntText(b) == nb[p..|nb| - 4];
      IntTextInjective(a, b);
    }
  }

  predicate Distinct<K(==)>(xs: seq<K>) {
    forall i, j :: 0 <= i < j < |xs| ==> xs[i] != xs[j]
  }

  /** The first `n` elements, as a set. */
  function Prefix<K>(xs: seq<K>, n: nat): set<K>
    requires n <= |xs|
  {
    if n == 0 then {} else Prefix(xs, n - 1) + {xs[n - 1]}
  }

  lemma {:induction false} PrefixMember<K>(xs: seq<K>, n: nat, p: K)
    requires n <= |xs|
    ensures p in Prefix(xs, n) <==> exists i :: 0 <= i < n && xs[i] == p
  {
    if n > 0 {
      PrefixMember(xs, n - 1, p);
    }
  }

  lemma {:induction false} PrefixExcludes<K>(xs: seq<K>, n: nat, x: K)
    requires n <= |xs|
    requires forall k :: 0 <= k < n ==> xs[k] != x
    ensures x !in Prefix(xs, n)
  {
    if n > 0 {
      PrefixExcludes(xs, n - 1, x);
    }
  }

  /** One move of a present file: the source path goes, the target path
      holds its contents, every other path is unchanged. */
  lemma MoveOne<K, V>(cur: map<K, V>, src: K, dst: K)
    requires src in cur
    ensures Move(cur, src, dst).Some?
    ensures var out := Move(cur, src, dst).value;
            && out.Keys == cur.Keys - {src} + {dst}
            && out[dst] == cur[src]
            && forall p :: p in out && p != dst ==> out[p] == cur[p]
  {
  }

  /** The conditions under which a run of moves cannot fail and loses no
      file: every source is present, no path is moved twice or moved to
      twice, and no target is a source. */
  predicate Renamable<K(==), V>(fs: map<K, V>, srcs: seq<K>, dsts: seq<K>) {
    && |srcs| == |dsts|
    && Distinct(srcs) && Distinct(dsts)
    && (forall k :: 0 <= k < |srcs| ==> srcs[k] in fs)
    && (forall i, j :: 0 <= i < |srcs| && 0 <= j < |dsts| ==> srcs[i] != dsts[j])
  }

  /** Such a run removes exactly the moved paths and adds exactly the
      targets. */
  lemma {:induction false} MoveAllKeys<K, V>(fs: map<K, V>, srcs: seq<K>, dsts: seq<K>, n: nat)
    requires Renamable(fs, srcs, dsts) && n <= |srcs|
    ensures MoveAll(fs, srcs, dsts, n).Some?
    ensures MoveAll(fs, srcs, dsts, n).value.Keys == fs.Keys - Prefix(srcs, n) + Prefix(dsts, n)
  {
    if n > 0 {
      MoveAllKeys(fs, srcs, dsts, n - 1);
      var cur := MoveAll(fs, srcs, dsts, n - 1).value;
      PrefixExcludes(srcs, n - 1, srcs[n - 1]);
      PrefixExcludes(dsts, n - 1, srcs[n - 1]);
      MoveOne(cur, srcs[n - 1], dsts[n - 1]);
    }
  }

  /** In such a run each target holds the contents of its source and every
      path that is no target keeps its contents. */
  lemma {:induction false} MoveAllMoves<K, V>(fs: map<K, V>, srcs: seq<K>, dsts: seq<K>, n: nat)
    requires Renamable(fs, srcs, dsts) && n <= |srcs|
    ensures MoveAll(fs, srcs, dsts, n).Some?
    ensures var out := MoveAll(fs, srcs, dsts, n).value;
            && (forall k :: 0 <= k < n ==> dsts[k] in out && out[dsts[k]] == fs[srcs[k]])
            && (forall p :: p in out && p !in Prefix(dsts, n) ==> p in fs && out[p] == fs[p])
  {
    MoveAllKeys(fs, srcs, dsts, n);
    if n > 0 {
      MoveAllMoves(fs, srcs, dsts, n - 1);
      MoveAllKeys(fs, srcs, dsts, n - 1);
      var cur := MoveAll(fs, srcs, dsts, n - 1).value;
      var src, dst := srcs[n - 1], dsts[n - 1];
      PrefixExcludes(srcs, n - 1, src);
      MoveOne(cur, src, dst);
    }
  }

  /** A listing without repeats of present files that are no new names meets
      the conditions of `Renamable`. */
  lemma ListingRenamable(fs: Files, path: string, cName: string, date: int, listing: seq<string>)
    requires forall j, k :: 0 <= j < k < |listing| ==> listing[j] != listing[k]
    requires forall k :: 0 <= k < |listing| ==> path + listing[k] in fs
    requires forall k :: 0 <= k < |listing| ==> path + listing[k] !in TargetPaths(path, cName, date, |listing|)
    ensures Renamable(fs, SourcePaths(path, listing), TargetPaths(path, cName, date, |listing|))
  {
    var srcs, dsts := SourcePaths(path, listing), TargetPaths(path, cName, date, |listing|);
    SourcePathsDistinct(path, listing);
    TargetPathsDistinct(path, cName, date, |listing|);
    forall i, j | 0 <= i < |srcs| && 0 <= j < |dsts|
      ensures srcs[i] != dsts[j]
    {
      assert srcs[i] == path + listing[i];
      assert dsts[j] in dsts;
    }
  }

  /** Distinct listed names give distinct source paths. */
  lemma SourcePathsDistinct(path: string, listing: seq<string>)
    requires forall j, k :: 0 <= j < k < |listing| ==> listing[j] != listing[k]
    ensures Distinct(SourcePaths(path, listing))
  {
    var srcs := SourcePaths(path, listing);
    forall i, j | 0 <= i < j < |srcs|
      ensures srcs[i] != srcs[j]
    {
      assert srcs[i][|path|..] == listing[i] && srcs[j][|path|..] == listing[j];
    }
  }

  /** Distinct counters give distinct new names. */
  lemma TargetPathsDistinct(path: string, cName: string, date: int, n: nat)
    ensures Distinct(TargetPaths(path, cName, date, n))
  {
    var dsts := TargetPaths(path, cName, date, n);
    forall i, j | 0 <= i < j < n
      ensures dsts[i] != dsts[j]
    {
      NewNamesDistinct(path, cName, date + i, date + j);
    }
  }

  /** When no listed name repeats, every listed file is present and no
      listed path is one of the new names, every listed file, whatever its
      extension, ends up under the name with its own counter and its old
      path is gone; a path that is no new name keeps its contents. */
  lemma RenameAllMoves(fs: Files, path: string, cName: string, date: int, listing: seq<string>)
    requires forall j, k :: 0 <= j < k < |listing| ==> listing[j] != listing[k]
    requires forall k :: 0 <= k < |listing| ==> path + listing[k] in fs
    requires forall k :: 0 <= k < |listing| ==> path + listing[k] !in TargetPaths(path, cName, date, |listing|)
    ensures RenameFirst(fs, path, cName, date, listing, |listing|).Some?
    ensures var out := RenameFirst(fs, path, cName, date, listing, |listing|).value;
            var targets := TargetPaths(path, cName, date, |listing|);
            && (forall p :: p in out <==> (p in fs && p !in SourcePaths(path, listing)) || p in targets)
            && (forall k :: 0 <= k < |listing| ==> out[targets[k]] == fs[path + listing[k]])
            && (forall p :: p in out && p !in targets ==> out[p] == fs[p])
  {
    var srcs, dsts := SourcePaths(path, listing), TargetPaths(path, cName, date, |listing|);
    ListingRenamable(fs, path, cName, date, listing);
    MoveAllKeys(fs, srcs, dsts, |listing|);
    MoveAllMoves(fs, srcs, dsts, |listing|);
    forall p
      ensures p in Prefix(srcs, |srcs|) <==> p in srcs
      ensures p in Prefix(dsts, |dsts|) <==> p in dsts
    {
      PrefixMember(srcs, |srcs|, p);
      PrefixMember(dsts, |dsts|, p);
    }
  }
}
