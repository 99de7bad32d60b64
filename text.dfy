/** String helpers with Python's semantics: `str.startswith`, `str.rfind`,
    `str.split`/`str.join` on one separator character, ASCII lower-casing
    and slicing with clamped, possibly negative bounds. */
module Text {

  predicate StartsWith(s: string, prefix: string) {
    |prefix| <= |s| && s[..|prefix|] == prefix
  }

  /** `s.rfind(c)`: the index of the last occurrence of `c`, or -1. */
  function LastIndexOf(s: string, c: char): (r: int)
    ensures -1 <= r < |s|
    ensures r >= 0 ==> s[r] == c && forall j :: r < j < |s| ==> s[j] != c
    ensures r == -1 ==> forall j :: 0 <= j < |s| ==> s[j] != c
  {
    if |s| == 0 then -1
    else if s[|s| - 1] == c then |s| - 1
    else LastIndexOf(s[..|s| - 1], c)
  }

  /** `s.split(sep)` for a one-character separator, built from the right. */
  function Split(s: string, sep: char): (r: seq<string>)
    ensures |r| >= 1
    ensures forall k :: 0 <= k < |r| ==> sep !in r[k]
  {
    if |s| == 0 then [""]
    else
      var init := Split(s[..|s| - 1], sep);
      if s[|s| - 1] == sep then init + [""]
      else init[..|init| - 1] + [init[|init| - 1] + [s[|s| - 1]]]
  }

  /** `sep.join(parts)`. */
  function Join(parts: seq<string>, sep: char): string {
    if |parts| == 0 then ""
    else if |parts| == 1 then parts[0]
    else Join(parts[..|parts| - 1], sep) + [sep] + parts[|parts| - 1]
  }

  lemma {:induction false} JoinSplit(s: string, sep: char)
    ensures Join(Split(s, sep), sep) == s
  {
    if |s| > 0 {
      var s' := s[..|s| - 1];
      var init := Split(s', sep);
      JoinSplit(s', sep);
      if s[|s| - 1] == sep {
        assert (init + [""])[..|init|] == init;
      } else {
        var n := |init|;
        var parts := init[..n - 1] + [init[n - 1] + [s[|s| - 1]]];
        if n > 1 {
          assert parts[..n - 1] == init[..n - 1];
        }
      }
      assert s' + [s[|s| - 1]] == s;
    }
  }

  /** Splitting at the last separator: the part after it is the last chunk. */
  lemma {:induction false} SplitAtLast(a: string, b: string, sep: char)
    requires sep !in b
    ensures Split(a + [sep] + b, sep) == Split(a, sep) + [b]
  {
    if |b| == 0 {
      assert (a + [sep] + b)[..|a|] == a;
    } else {
      var b' := b[..|b| - 1];
      SplitAtLast(a, b', sep);
      assert (a + [sep] + b)[..|a + [sep] + b| - 1] == a + [sep] + b';
      assert b' + [b[|b| - 1]] == b;
    }
  }

  function LowerChar(c: char): char {
    if 'A' <= c <= 'Z' then (c as int + 32) as char else c
  }

  /** `str.lower` restricted to ASCII letters. */
  function LowerAscii(s: string): (r: string)
    ensures |r| == |s|
  {
    if s == [] then [] else [LowerChar(s[0])] + LowerAscii(s[1..])
  }

  /** Each character of `LowerAscii(s)` is the lowered character of `s`
      at the same place. */
  lemma {:induction false} LowerAsciiAt(s: string)
    ensures forall i :: 0 <= i < |s| ==> LowerAscii(s)[i] == LowerChar(s[i])
  {
    if s != [] {
      LowerAsciiAt(s[1..]);
      forall i | 0 < i < |s| ensures LowerAscii(s)[i] == LowerChar(s[i]) {
        assert s[1..][i - 1] == s[i];
      }
    }
  }

  /** One bound of a Python slice: negative counts from the end, and the
      result is clamped to `0..len`. */
  function SliceBound(i: int, len: nat): (r: nat)
    ensures r <= len
  {
    if i < 0 then (if len + i < 0 then 0 else len + i)
    else if i > len then len
    else i
  }

  /** `s[start:stop]` in Python. */
  function PySlice(s: string, start: int, stop: int): (r: string)
    ensures |r| <= |s|
  {
    var b := SliceBound(start, |s|);
    var e := SliceBound(stop, |s|);
    if e <= b then "" else s[b..e]
  }
}
