/** The parts of `pathlib.PurePosixPath` the archiver relies on: the final
    component of a path, its suffix and stem, and `with_suffix`. Paths the
    archiver writes are named relative to its container folder. */
module Paths {
  import opened Text

  /** A file of the archive directory: directly in the container folder
      (raw and template HTML, `assets.<x>` siblings) or in `assets/`. */
  datatype FilePath = InContainer(name: string) | InAssets(name: string)

  const AssetsFolderName: string := "assets"

  /** The last component of a POSIX path; empty and `.` components are
      dropped as `PurePosixPath` does. */
  function PathName(path: string): (r: string)
    ensures '/' !in r
  {
    LastComponent(Split(path, '/'))
  }

  function LastComponent(parts: seq<string>): (r: string)
    requires forall k :: 0 <= k < |parts| ==> '/' !in parts[k]
    ensures '/' !in r
  {
    if |parts| == 0 then ""
    else
      var last := parts[|parts| - 1];
      if last == "" || last == "." then LastComponent(parts[..|parts| - 1]) else last
  }

  /** `PurePath(name).suffix`: from the last dot, unless that dot is the
      first or the last character. */
  function Suffix(name: string): string {
    var i := LastIndexOf(name, '.');
    if 0 < i < |name| - 1 then name[i..] else ""
  }

  /** `PurePath(name).stem`: the name without its suffix. */
  function Stem(name: string): string {
    name[..|name| - |Suffix(name)|]
  }

  /** The suffixes `with_suffix` accepts; any other raises ValueError. */
  predicate SuffixAccepted(s: string) {
    '/' !in s && (s == "" || (s[0] == '.' && s != "."))
  }

  /** `PurePath(name).with_suffix(s)` for an accepted suffix and a path
      with a non-empty name. */
  function WithSuffix(name: string, s: string): string
    requires SuffixAccepted(s) && name != ""
  {
    Stem(name) + s
  }

  /** A suffix as `Suffix` can produce it from a name without `/`. */
  predicate WellFormedSuffix(s: string) {
    s == "" || (|s| >= 2 && s[0] == '.' && '.' !in s[1..] && '/' !in s)
  }

  lemma SuffixWellFormed(name: string)
    requires '/' !in name
    ensures WellFormedSuffix(Suffix(name))
  {
    var i := LastIndexOf(name, '.');
    if 0 < i < |name| - 1 {
      var s := name[i..];
      forall k | 1 <= k < |s| ensures s[k] != '.' {
        assert s[k] == name[i + k];
      }
    }
  }

  lemma LowerKeepsWellFormed(s: string)
    requires WellFormedSuffix(s)
    ensures WellFormedSuffix(LowerAscii(s))
  {
    var l := LowerAscii(s);
    LowerAsciiAt(s);
    if s != "" {
      assert l[0] == '.';
      forall k | 1 <= k < |l| ensures l[k] != '.' {
        assert s[1..][k - 1] == s[k];
      }
      assert '.' !in l[1..];
    }
  }

  /** A name without dots, followed by a well-formed suffix, has exactly
      that suffix and the name as its stem. */
  lemma {:induction false} SuffixOfAppended(h: string, s: string)
    requires h != "" && '.' !in h && WellFormedSuffix(s)
    ensures Suffix(h + s) == s && Stem(h + s) == h
  {
    var n := h + s;
    var i := LastIndexOf(n, '.');
    if s == "" {
      assert n == h;
      assert i == -1;
    } else {
      assert n[|h|] == '.';
      forall j | |h| < j < |n| ensures n[j] != '.' {
        assert n[j] == s[1..][j - |h| - 1];
      }
      assert i == |h|;
      assert n[i..] == s;
    }
  }
}
