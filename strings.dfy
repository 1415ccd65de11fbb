/** Text helpers shared by the scripts: the parts of Python's `str` that they use
    (`strip`, `split`, `join`, `lower`, `endswith`, `in`) and the decimal text of
    integers (`str(int)`, `int(...)` on digit strings). Whitespace and letter case
    are the ASCII ones. */
module Strings {

  datatype Option<+T> = None | Some(value: T)

  /** Python's whitespace characters in the ASCII range (`str.isspace`): space,
      `\t`, `\n`, `\v`, `\f`, `\r` and the separators `\x1c` to `\x1f`. */
  predicate IsSpace(c: char) {
    || c == ' ' || c == '\t' || c == '\n' || c == '\r' || c == '\U{000B}' || c == '\U{000C}'
    || '\U{001C}' <= c <= '\U{001F}'
  }

  predicate IsDigit(c: char) {
    '0' <= c <= '9'
  }

  function DigitValue(c: char): (d: nat)
    requires IsDigit(c)
    ensures d < 10
  {
    (c as int) - ('0' as int)
  }

  function DigitChar(d: nat): (c: char)
    requires d < 10
    ensures IsDigit(c) && DigitValue(c) == d
  {
    (('0' as int) + d) as char
  }

  predicate AllDigits(s: string) {
    forall i :: 0 <= i < |s| ==> IsDigit(s[i])
  }

  predicate StartsWith(s: string, prefix: string) {
    |prefix| <= |s| && s[..|prefix|] == prefix
  }

  predicate EndsWith(s: string, suffix: string) {
    |suffix| <= |s| && s[|s| - |suffix|..] == suffix
  }

  /** `sub` occurs in `s` starting at index `i`. */
  predicate OccursAt(s: string, sub: string, i: int) {
    0 <= i <= |s| - |sub| && s[i..i + |sub|] == sub
  }

  /** Python's `sub in s`. */
  predicate Contains(s: string, sub: string) {
    exists i :: 0 <= i <= |s| - |sub| && OccursAt(s, sub, i)
  }

  /** `c.lower()` for ASCII letters. */
  function LowerChar(c: char): (r: char)
    ensures 'A' <= c <= 'Z' ==> r as int == c as int + 32
    ensures !('A' <= c <= 'Z') ==> r == c
  {
    if 'A' <= c <= 'Z' then (c as int + 32) as char else c
  }

  function Lower(s: string): (r: string)
    ensures |r| == |s| && forall i :: 0 <= i < |s| ==> r[i] == LowerChar(s[i])
  {
    if s == [] then [] else [LowerChar(s[0])] + Lower(s[1..])
  }

  /** `s.lstrip()`: drop leading whitespace. */
  function LStrip(s: string): (r: string)
    ensures |r| <= |s| && r == s[|s| - |r|..]
    ensures r == [] || !IsSpace(r[0])
    ensures forall i :: 0 <= i < |s| - |r| ==> IsSpace(s[i])
  {
    if s != [] && IsSpace(s[0]) then LStrip(s[1..]) else s
  }

  /** `s.rstrip()`: drop trailing whitespace. */
  function RStrip(s: string): (r: string)
    ensures |r| <= |s| && r == s[..|r|]
    ensures r == [] || !IsSpace(r[|r| - 1])
    ensures forall i :: |r| <= i < |s| ==> IsSpace(s[i])
  {
    if s != [] && IsSpace(s[|s| - 1]) then RStrip(s[..|s| - 1]) else s
  }

  /** `s.strip()`. */
  function Strip(s: string): string {
    RStrip(LStrip(s))
  }

  predicate IsBlank(s: string) {
    forall i :: 0 <= i < |s| ==> IsSpace(s[i])
  }

  lemma {:induction false} StripEmptyIffBlank(s: string)
    ensures Strip(s) == [] <==> IsBlank(s)
  {
    var l := LStrip(s);
    if Strip(s) == [] {
      assert l == [];
    } else {
      assert l != [];
      assert !IsSpace(l[0]) && l[0] == s[|s| - |l|];
    }
  }

  /** No whitespace in `w`. */
  predicate NoSpace(w: string) {
    forall i :: 0 <= i < |w| ==> !IsSpace(w[i])
  }

  predicate IsWord(w: string) {
    w != [] && NoSpace(w)
  }

  /** `s.split()` with no argument: the maximal runs of non-whitespace. */
  function Words(s: string): seq<string> {
    WordsAfter(s, [])
  }

  /** The words of `cur + s` when `cur` is the start of a word not yet ended. */
  function WordsAfter(s: string, cur: string): seq<string>
    decreases |s|
  {
    if s == [] then (if cur == [] then [] else [cur])
    else if IsSpace(s[0]) then (if cur == [] then [] else [cur]) + WordsAfter(s[1..], [])
    else WordsAfter(s[1..], cur + [s[0]])
  }

  /** The first whitespace-separated token, `s.split()[0]` for a non-blank `s`. */
  function FirstToken(s: string): string {
    if s == [] then [] else if IsSpace(s[0]) then FirstToken(s[1..]) else TokenFrom(s)
  }

  /** The run of non-whitespace at the start of `s`. */
  function TokenFrom(s: string): string {
    if s == [] || IsSpace(s[0]) then [] else [s[0]] + TokenFrom(s[1..])
  }

  lemma {:induction false} WordsAfterAreWords(s: string, cur: string)
    requires NoSpace(cur)
    ensures forall k :: 0 <= k < |WordsAfter(s, cur)| ==> IsWord(WordsAfter(s, cur)[k])
    decreases |s|
  {
    if s != [] {
      if IsSpace(s[0]) {
        WordsAfterAreWords(s[1..], []);
      } else {
        WordsAfterAreWords(s[1..], cur + [s[0]]);
      }
    }
  }

  /** Every word is non-empty and has no whitespace. */
  lemma WordsAreWords(s: string)
    ensures forall k :: 0 <= k < |Words(s)| ==> IsWord(Words(s)[k])
  {
    WordsAfterAreWords(s, []);
  }

  lemma {:induction false} WordsAfterEmpty(s: string, cur: string)
    ensures WordsAfter(s, cur) == [] <==> cur == [] && IsBlank(s)
    decreases |s|
  {
    if s != [] {
      if IsSpace(s[0]) {
        WordsAfterEmpty(s[1..], []);
        assert IsBlank(s) <==> IsBlank(s[1..]) by {
          if IsBlank(s[1..]) {
            forall i | 0 <= i < |s| ensures IsSpace(s[i]) {
              if i > 0 {
                assert s[i] == s[1..][i - 1];
              }
            }
          }
        }
      } else {
        WordsAfterEmpty(s[1..], cur + [s[0]]);
      }
    }
  }

  /** A line has no words exactly when it is blank. */
  lemma WordsEmptyIffBlank(s: string)
    ensures Words(s) == [] <==> IsBlank(s)
  {
    WordsAfterEmpty(s, []);
  }

  lemma {:induction false} WordsAfterFirst(s: string, cur: string)
    requires cur != [] || !IsBlank(s)
    ensures WordsAfter(s, cur) != []
    ensures WordsAfter(s, cur)[0] == if cur == [] then FirstToken(s) else cur + TokenFrom(s)
    decreases |s|
  {
    if s == [] {
    } else if IsSpace(s[0]) && cur == [] {
      assert !IsBlank(s[1..]) by {
        var i :| 0 <= i < |s| && !IsSpace(s[i]);
        assert s[1..][i - 1] == s[i];
      }
      WordsAfterFirst(s[1..], []);
    } else if IsSpace(s[0]) {
      assert WordsAfter(s, cur) == [cur] + WordsAfter(s[1..], []);
    } else {
      WordsAfterFirst(s[1..], cur + [s[0]]);
      assert cur + [s[0]] + TokenFrom(s[1..]) == cur + TokenFrom(s);
    }
  }

  /** `FirstToken` is the first of the words. */
  lemma FirstTokenOfWords(s: string)
    requires !IsBlank(s)
    ensures Words(s) != [] && Words(s)[0] == FirstToken(s)
  {
    WordsAfterFirst(s, []);
  }

  /** `sep.join(parts)`. */
  function JoinWith(parts: seq<string>, sep: string): (r: string)
    ensures parts == [] ==> r == []
  {
    if parts == [] then []
    else if |parts| == 1 then parts[0]
    else parts[0] + sep + JoinWith(parts[1..], sep)
  }

  lemma {:induction false} WordsAfterRun(w: string, rest: string, cur: string)
    requires NoSpace(w)
    ensures WordsAfter(w + rest, cur) == WordsAfter(rest, cur + w)
    decreases |w|
  {
    if w == [] {
      assert w + rest == rest && cur + w == cur;
    } else {
      assert (w + rest)[1..] == w[1..] + rest;
      WordsAfterRun(w[1..], rest, cur + [w[0]]);
      assert cur + [w[0]] + w[1..] == cur + w;
    }
  }

  lemma WordsAfterSpace(x: string, cur: string)
    ensures WordsAfter(" " + x, cur) == (if cur == [] then [] else [cur]) + Words(x)
  {
    assert (" " + x)[1..] == x;
  }

  /** Splitting on whitespace what was joined with single spaces gives back the words. */
  lemma {:induction false} WordsOfJoin(ws: seq<string>)
    requires forall k :: 0 <= k < |ws| ==> IsWord(ws[k])
    ensures Words(JoinWith(ws, " ")) == ws
  {
    if |ws| == 1 {
      WordsAfterRun(ws[0], [], []);
      assert ws[0] + [] == ws[0] && [] + ws[0] == ws[0];
    } else if |ws| > 1 {
      var rest := JoinWith(ws[1..], " ");
      assert JoinWith(ws, " ") == ws[0] + (" " + rest);
      WordsAfterRun(ws[0], " " + rest, []);
      assert [] + ws[0] == ws[0];
      WordsAfterSpace(rest, ws[0]);
      WordsOfJoin(ws[1..]);
    }
  }

  /** `s.split(sep)` with a one-character separator. */
  function SplitOn(s: string, sep: char): (parts: seq<string>)
    ensures |parts| >= 1
    ensures forall k :: 0 <= k < |parts| ==> sep !in parts[k]
  {
    if s == [] then [[]]
    else
      var rest := SplitOn(s[1..], sep);
      if s[0] == sep then [[]] + rest
      else [[s[0]] + rest[0]] + rest[1..]
  }

  lemma {:induction false} SplitOnWithout(a: string, sep: char)
    requires sep !in a
    ensures SplitOn(a, sep) == [a]
  {
    if a != [] {
      SplitOnWithout(a[1..], sep);
      assert [a[0]] + a[1..] == a;
    }
  }

  lemma {:induction false} SplitOnCut(a: string, b: string, sep: char)
    requires sep !in a
    ensures SplitOn(a + [sep] + b, sep) == [a] + SplitOn(b, sep)
  {
    if a == [] {
      assert a + [sep] + b == [sep] + b;
      assert ([sep] + b)[1..] == b;
    } else {
      var s := a + [sep] + b;
      assert s[1..] == a[1..] + [sep] + b;
      SplitOnCut(a[1..], b, sep);
      assert [a[0]] + a[1..] == a;
    }
  }

  /** A character absent from the text is absent from every part. */
  lemma {:induction false} SplitOnParts(s: string, sep: char, c: char)
    requires c !in s
    ensures forall k :: 0 <= k < |SplitOn(s, sep)| ==> c !in SplitOn(s, sep)[k]
  {
    if s != [] {
      SplitOnParts(s[1..], sep, c);
    }
  }

  /** A character absent from the parts and from the separator is absent from the joined text. */
  lemma {:induction false} JoinWithAvoids(parts: seq<string>, sep: string, c: char)
    requires c !in sep && forall k :: 0 <= k < |parts| ==> c !in parts[k]
    ensures c !in JoinWith(parts, sep)
  {
    if |parts| > 1 {
      JoinWithAvoids(parts[1..], sep, c);
    }
  }

  /** Reading back lines written as `sep.join(lines) + sep` yields the lines and one empty tail. */
  lemma {:induction false} SplitOnJoinTerminated(lines: seq<string>, sep: char)
    requires lines != []
    requires forall k :: 0 <= k < |lines| ==> sep !in lines[k]
    ensures SplitOn(JoinWith(lines, [sep]) + [sep], sep) == lines + [[]]
  {
    if |lines| == 1 {
      SplitOnCut(lines[0], [], sep);
      assert lines[0] + [sep] + [] == JoinWith(lines, [sep]) + [sep];
    } else {
      var rest := JoinWith(lines[1..], [sep]);
      assert JoinWith(lines, [sep]) + [sep] == lines[0] + [sep] + (rest + [sep]);
      SplitOnCut(lines[0], rest + [sep], sep);
      SplitOnJoinTerminated(lines[1..], sep);
      assert [lines[0]] + lines[1..] == lines;
    }
  }

  /** Splitting at a separator splits the two sides independently. */
  lemma {:induction false} SplitOnAppend(a: string, b: string, sep: char)
    ensures SplitOn(a + [sep] + b, sep) == SplitOn(a, sep) + SplitOn(b, sep)
  {
    if a == [] {
      assert a + [sep] + b == [sep] + b;
      assert ([sep] + b)[1..] == b;
    } else {
      var s := a + [sep] + b;
      assert s[0] == a[0] && s[1..] == a[1..] + [sep] + b;
      SplitOnAppend(a[1..], b, sep);
      var left := SplitOn(a[1..], sep);
      var rest := left + SplitOn(b, sep);
      assert SplitOn(s, sep) == if a[0] == sep then [[]] + rest else [[a[0]] + rest[0]] + rest[1..];
      if a[0] != sep {
        assert rest[0] == left[0] && rest[1..] == left[1..] + SplitOn(b, sep);
      }
    }
  }

  /** A string holding the separator splits into at least two parts. */
  lemma {:induction false} SplitOnHasTwo(s: string, sep: char)
    requires sep in s
    ensures |SplitOn(s, sep)| >= 2
  {
    if s[0] != sep {
      assert sep in s[1..];
      SplitOnHasTwo(s[1..], sep);
    }
  }

  /** `s.replace(c, "")` for a single character. */
  function RemoveChar(s: string, c: char): (r: string)
    ensures c !in r
    ensures forall x :: x in r <==> x in s && x != c
    ensures |r| <= |s|
  {
    if s == [] then []
    else if s[0] == c then RemoveChar(s[1..], c)
    else [s[0]] + RemoveChar(s[1..], c)
  }

  /** `"".join(s.split())`: every whitespace character removed. */
  function RemoveSpaces(s: string): (r: string)
    ensures forall i :: 0 <= i < |r| ==> !IsSpace(r[i])
    ensures forall x :: x in r <==> x in s && !IsSpace(x)
  {
    if s == [] then []
    else if IsSpace(s[0]) then RemoveSpaces(s[1..])
    else [s[0]] + RemoveSpaces(s[1..])
  }

  // ---------------------------------------------------------------------------
  // Decimal text of integers
  // ---------------------------------------------------------------------------

  /** The value of a string of decimal digits, most significant first. */
  function DigitsValue(s: string): (v: nat)
    requires AllDigits(s)
  {
    if s == [] then 0 else DigitsValue(s[..|s| - 1]) * 10 + DigitValue(s[|s| - 1])
  }

  /** `str(n)` for a natural number: no leading zeros, at least one digit. */
  function NatText(n: nat): (s: string)
    ensures |s| >= 1 && AllDigits(s)
    ensures |s| > 1 ==> s[0] != '0'
  {
    if n < 10 then [DigitChar(n)] else NatText(n / 10) + [DigitChar(n % 10)]
  }

  /** `str(i)` for any integer. */
  function IntText(i: int): (s: string)
    ensures |s| >= 1
  {
    if i < 0 then "-" + NatText(-i) else NatText(i)
  }

  lemma {:induction false} NatTextValue(n: nat)
    ensures DigitsValue(NatText(n)) == n
  {
    if n >= 10 {
      NatTextValue(n / 10);
      var s := NatText(n);
      assert s[..|s| - 1] == NatText(n / 10);
    }
  }

  lemma NatTextInjective(a: nat, b: nat)
    ensures NatText(a) == NatText(b) <==> a == b
  {
    NatTextValue(a);
    NatTextValue(b);
  }

  lemma IntTextSign(i: int)
    ensures IntText(i)[0] == '-' <==> i < 0
  {
    if i >= 0 {
      assert IsDigit(NatText(i)[0]);
    }
  }

  lemma IntTextInjective(a: int, b: int)
    ensures IntText(a) == IntText(b) <==> a == b
  {
    if IntText(a) == IntText(b) {
      IntTextSign(a);
      IntTextSign(b);
      if a < 0 {
        assert NatText(-a) == IntText(a)[1..];
        assert NatText(-b) == IntText(b)[1..];
        NatTextInjective(-a, -b);
      } else {
        NatTextInjective(a, b);
      }
    }
  }
}
