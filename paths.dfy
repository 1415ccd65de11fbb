/** POSIX path helpers as the scripts use them: `os.path.join` with two
    arguments, `os.path.basename`, the stem of `os.path.splitext` and pathlib's
    `Path.stem`. */
module Paths {
  import opened Strings

  /** The index of the last occurrence of `c` in `s`, or -1 (`str.rfind`). */
  function LastIndexOf(s: string, c: char): (i: int)
    ensures -1 <= i < |s|
    ensures i >= 0 ==> s[i] == c
    ensures forall j :: i < j < |s| ==> s[j] != c
  {
    if s == [] then -1
    else if s[|s| - 1] == c then |s| - 1
    else LastIndexOf(s[..|s| - 1], c)
  }

  /** `os.path.join(a, b)`: an absolute `b` wins, otherwise one `/` is put
      between the parts unless `a` is empty or already ends with one. */
  function Join(a: string, b: string): string {
    if b != [] && b[0] == '/' then b
    else if a == [] || a[|a| - 1] == '/' then a + b
    else a + "/" + b
  }

  /** `os.path.basename(p)`: what follows the last `/`. */
  function Basename(p: string): (b: string)
    ensures '/' !in b
  {
    p[LastIndexOf(p, '/') + 1..]
  }

  lemma {:induction false} LastIndexOfAppend(q: string, name: string, c: char)
    requires c !in name
    ensures LastIndexOf(q + name, c) == LastIndexOf(q, c)
  {
    if name != [] {
      var n' := name[..|name| - 1];
      assert (q + name)[..|q + name| - 1] == q + n';
      LastIndexOfAppend(q, n', c);
    } else {
      assert q + name == q;
    }
  }

  /** A name without `/` is what `basename` gives back after joining it to any directory. */
  lemma BasenameOfJoin(dir: string, name: string)
    requires '/' !in name
    ensures Basename(Join(dir, name)) == name
  {
    if name != [] {
      assert name[0] in name;
    }
    var q := if dir == [] || dir[|dir| - 1] == '/' then dir else dir + "/";
    assert Join(dir, name) == q + name;
    LastIndexOfAppend(q, name, '/');
    assert q != [] ==> q[|q| - 1] == '/';
    assert LastIndexOf(q, '/') == |q| - 1;
    assert (q + name)[|q|..] == name;
  }

  /** Joining a relative, non-empty name to a directory keeps both and adds at most one `/`. */
  lemma JoinLength(dir: string, name: string)
    requires name != [] && name[0] != '/'
    ensures |dir| + |name| <= |Join(dir, name)| <= |dir| + 1 + |name|
    ensures dir != [] && dir[|dir| - 1] != '/' ==> |Join(dir, name)| == |dir| + 1 + |name|
    ensures Join(dir, name)[|Join(dir, name)| - 1] == name[|name| - 1]
  {
  }

  /** The stem given by `os.path.splitext(name)[0]`: the text before the last
      dot, unless that dot is preceded only by dots (a leading-dot name has no
      extension). */
  function SplitExtStem(name: string): (stem: string)
    ensures |stem| <= |name| && stem == name[..|stem|]
  {
    var d := LastIndexOf(name, '.');
    if d > 0 && exists k :: 0 <= k < d && name[k] != '.' then name[..d] else name
  }

  /** pathlib's `Path(name).stem` (the last component): the text before the
      last dot when that dot is neither the first nor the last character. */
  function PathStem(name: string): (stem: string)
    ensures |stem| <= |name| && stem == name[..|stem|]
  {
    var d := LastIndexOf(name, '.');
    if 0 < d < |name| - 1 then name[..d] else name
  }
}
