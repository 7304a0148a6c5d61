/** The parts of Python's `pathlib` that the scripts use, over POSIX path strings:
    the final component (`.name`), its extension (`.suffix`), the name without it
    (`.stem`) and joining a name under a directory (`/`). */
module PurePaths {
  import opened Text

  /** `Path(p).name`: everything after the last `/`. */
  function Name(p: string): (r: string)
    ensures '/' !in r
    ensures |r| <= |p| && r == p[|p| - |r|..]
  {
    var k := RFind(p, '/');
    var r := p[k + 1..];
    assert '/' !in r by {
      forall j | 0 <= j < |r| ensures r[j] != '/' {
        assert r[j] == p[k + 1 + j];
      }
    }
    r
  }

  /** Position of the dot that starts the suffix of `name`, or -1 when `name` has none:
      the last `.` counts only when it is neither the first nor the last character. */
  function SuffixDot(name: string): (i: int)
    ensures i == -1 || (0 < i < |name| - 1 && name[i] == '.')
  {
    var i := RFind(name, '.');
    if 0 < i < |name| - 1 then i else -1
  }

  /** `Path(name).suffix` for a final component. */
  function Suffix(name: string): string
  {
    var i := SuffixDot(name);
    if i == -1 then "" else name[i..]
  }

  /** `Path(name).stem` for a final component. */
  function Stem(name: string): string
  {
    var i := SuffixDot(name);
    if i == -1 then name else name[..i]
  }

  /** The shape every non-empty suffix has: a dot, at least one more character,
      and no further dot or separator. */
  predicate SuffixShaped(suf: string)
  {
    |suf| >= 2 && suf[0] == '.' && '.' !in suf[1..] && '/' !in suf
  }

  /** A final component splits into its stem and its suffix; the suffix, when there is
      one, is suffix-shaped and the stem before it is not empty. */
  lemma StemSuffixSplit(name: string)
    requires '/' !in name
    ensures Stem(name) + Suffix(name) == name
    ensures Suffix(name) != "" ==> SuffixShaped(Suffix(name)) && Stem(name) != ""
    ensures name != "" ==> Stem(name) != ""
  {
    var i := SuffixDot(name);
    if i != -1 {
      var suf := name[i..];
      forall j | 1 <= j < |suf| ensures suf[j] != '.' {
        assert suf[j] == name[i + j];
      }
      assert '.' !in suf[1..] by {
        forall j | 0 <= j < |suf[1..]| ensures suf[1..][j] != '.' {
          assert suf[1..][j] == suf[j + 1];
        }
      }
      assert name == name[..i] + suf;
    }
  }

  /** A string without a separator is its own final component. */
  lemma NameOfBare(s: string)
    requires '/' !in s
    ensures Name(s) == s
  {
    RFindAbsent(s, '/');
  }

  /** `Path(d) / n` for a name `n` without a separator has final component `n`. */
  lemma {:induction false} NameOfChild(d: string, n: string)
    requires '/' !in n
    ensures Name(d + "/" + n) == n
  {
    assert d + "/" + n == (d + "/") + n;
    RFindAppend(d + "/", n, '/');
    RFindAbsent(n, '/');
    RFindAppend(d, "/", '/');
    assert RFind("/", '/') == 0;
  }

  /** Appending a suffix-shaped string to a path whose final component is not empty
      gives a final component whose suffix is exactly that string. */
  lemma SuffixOfAppended(s: string, suf: string)
    requires s != [] && s[|s| - 1] != '/'
    requires SuffixShaped(suf)
    ensures Suffix(Name(s + suf)) == suf
  {
    NameOfAppended(s, suf);
    assert Name(s) != [] by {
      assert RFind(s, '/') < |s| - 1;
    }
    SuffixAfter(Name(s), suf);
  }

  /** Appending text without a separator extends the final component. */
  lemma NameOfAppended(s: string, t: string)
    requires '/' !in t
    ensures Name(s + t) == Name(s) + t
  {
    RFindAppend(s, t, '/');
    var k := RFind(s, '/');
    assert (s + t)[k + 1..] == s[k + 1..] + t;
  }

  /** A non-empty name followed by a suffix-shaped string has that suffix. */
  lemma SuffixAfter(n: string, suf: string)
    requires n != [] && SuffixShaped(suf)
    ensures Suffix(n + suf) == suf
  {
    assert '.' in suf by { assert suf[0] == '.'; }
    RFindAppend(n, suf, '.');
    assert suf == [suf[0]] + suf[1..];
    RFindAppend([suf[0]], suf[1..], '.');
    RFindAbsent(suf[1..], '.');
    assert RFind(suf, '.') == 0;
    assert SuffixDot(n + suf) == |n|;
  }

  /** A bare name followed by a suffix-shaped string splits back into the two. */
  lemma SplitAtSuffix(s: string, suf: string)
    requires s != [] && '/' !in s
    requires SuffixShaped(suf)
    ensures Suffix(s + suf) == suf && Stem(s + suf) == s
  {
    SuffixOfAppended(s, suf);
    assert '/' !in s + suf;
    NameOfBare(s + suf);
    StemSuffixSplit(s + suf);
  }

  /** `Path(base) / part` for a part without a separator; pathlib drops an empty part. */
  function JoinPath(base: string, part: string): string
  {
    if part == "" then base else base + "/" + part
  }
}
