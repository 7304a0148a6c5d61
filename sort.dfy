/** `sorted(images, key=lambda x: x.name)`: the file names in code-point order. */
module NameSort {
  import opened Text

  /** Each name is at most the one after it. */
  predicate Sorted(s: seq<string>)
  {
    forall i :: 0 < i < |s| ==> NameLe(s[i - 1], s[i])
  }

  /** Adjacent order gives order between any two positions. */
  lemma {:induction false} SortedPairwise(s: seq<string>)
    requires Sorted(s)
    ensures forall i, j :: 0 <= i <= j < |s| ==> NameLe(s[i], s[j])
  {
    if |s| > 1 {
      SortedPairwise(s[1..]);
      forall i, j | 0 <= i <= j < |s| ensures NameLe(s[i], s[j]) {
        if i == j {
          NameLeTotal(s[i], s[i]);
        } else if i == 0 {
          assert NameLe(s[0], s[1]);
          assert NameLe(s[1..][0], s[1..][j - 1]);
          NameLeTransitive(s[0], s[1], s[j]);
        } else {
          assert NameLe(s[1..][i - 1], s[1..][j - 1]);
        }
      }
    } else if |s| == 1 {
      NameLeTotal(s[0], s[0]);
    }
  }

  /** Inserts `x` before the first name it does not exceed. */
  function Insert(x: string, s: seq<string>): (r: seq<string>)
    requires Sorted(s)
    ensures |r| == |s| + 1
    ensures multiset(r) == multiset(s) + multiset{x}
    ensures Sorted(r)
    ensures r[0] == x || (s != [] && r[0] == s[0])
  {
    if s == [] then [x]
    else if NameLe(x, s[0]) then [x] + s
    else
      NameLeTotal(x, s[0]);
      var rest := Insert(x, s[1..]);
      assert s == [s[0]] + s[1..];
      [s[0]] + rest
  }

  /** A stable insertion sort by name. */
  function SortByName(s: seq<string>): (r: seq<string>)
    ensures Sorted(r)
    ensures multiset(r) == multiset(s)
    ensures |r| == |s|
  {
    if s == [] then []
    else
      assert s == [s[0]] + s[1..];
      Insert(s[0], SortByName(s[1..]))
  }
}
