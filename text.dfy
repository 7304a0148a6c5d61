/** String primitives the two scripts rely on: `str.upper`, `str.endswith`,
    `str.rfind` and the code-point order that `sorted` uses on names. */
module Text {

  /** `c.upper()` restricted to ASCII letters. */
  function UpperChar(c: char): char
  {
    if 'a' <= c <= 'z' then (c as int - 'a' as int + 'A' as int) as char else c
  }

  predicate IsLowerAscii(c: char)
  {
    'a' <= c <= 'z'
  }

  /** `s.upper()` over ASCII: every lower-case ASCII letter becomes upper-case,
      every other character is kept. */
  function AsciiUpper(s: string): (r: string)
    ensures |r| == |s|
    ensures forall i :: 0 <= i < |s| ==> r[i] == UpperChar(s[i])
  {
    if s == [] then [] else [UpperChar(s[0])] + AsciiUpper(s[1..])
  }

  /** `t` is `s` upper-cased character by character. */
  lemma UpperCased(s: string, t: string)
    requires |s| == |t| && forall i :: 0 <= i < |s| ==> UpperChar(s[i]) == t[i]
    ensures AsciiUpper(s) == t
  {
  }

  /** After upper-casing no lower-case ASCII letter is left, so upper-casing again changes nothing. */
  lemma AsciiUpperIdempotent(s: string)
    ensures forall i :: 0 <= i < |s| ==> !IsLowerAscii(AsciiUpper(s)[i])
    ensures AsciiUpper(AsciiUpper(s)) == AsciiUpper(s)
  {
    var u := AsciiUpper(s);
    forall i | 0 <= i < |u| ensures UpperChar(u[i]) == u[i] && !IsLowerAscii(u[i]) {
      assert u[i] == UpperChar(s[i]);
    }
    UpperCased(u, u);
  }

  /** A string holding a lower-case ASCII letter is never the upper-casing of anything. */
  lemma AsciiUpperNeverLower(x: string, s: string)
    requires exists i :: 0 <= i < |s| && IsLowerAscii(s[i])
    ensures AsciiUpper(x) != s
  {
  }

  /** `s.endswith(suffix)`. */
  predicate EndsWith(s: string, suffix: string)
  {
    |suffix| <= |s| && s[|s| - |suffix|..] == suffix
  }

  /** `s.rfind(c)`: the index of the last occurrence of `c`, or -1. Over a header it is
      the column a key names: the later one when the key repeats, since a row dictionary
      is built left to right. */
  function RFind<T(==)>(s: seq<T>, c: T): (r: int)
    ensures -1 <= r < |s|
    ensures r >= 0 ==> s[r] == c
    ensures forall j :: r < j < |s| ==> s[j] != c
  {
    if s == [] then -1
    else if s[|s| - 1] == c then |s| - 1
    else RFind(s[..|s| - 1], c)
  }

  /** The last occurrence of `c` in `s + t` lies in `t` when `t` holds one. */
  lemma {:induction false} RFindAppend<T>(s: seq<T>, t: seq<T>, c: T)
    ensures c in t ==> RFind(s + t, c) == |s| + RFind(t, c)
    ensures c !in t ==> RFind(s + t, c) == RFind(s, c)
  {
    if t != [] {
      var u := s + t;
      assert u[..|u| - 1] == s + t[..|t| - 1];
      if t[|t| - 1] != c {
        RFindAppend(s, t[..|t| - 1], c);
        assert c in t <==> c in t[..|t| - 1] by {
          assert t == t[..|t| - 1] + [t[|t| - 1]];
        }
      }
    } else {
      assert s + t == s;
    }
  }

  /** A character that does not occur is not found. */
  lemma RFindAbsent<T>(s: seq<T>, c: T)
    requires c !in s
    ensures RFind(s, c) == -1
  {
  }

  /** The code-point order Python uses to compare two strings: `a <= b`. */
  predicate NameLe(a: string, b: string)
  {
    if a == [] then true
    else if b == [] then false
    else if a[0] != b[0] then a[0] < b[0]
    else NameLe(a[1..], b[1..])
  }

  lemma {:induction false} NameLeTotal(a: string, b: string)
    ensures NameLe(a, b) || NameLe(b, a)
  {
    if a != [] && b != [] && a[0] == b[0] {
      NameLeTotal(a[1..], b[1..]);
    }
  }

  lemma {:induction false} NameLeTransitive(a: string, b: string, c: string)
    requires NameLe(a, b) && NameLe(b, c)
    ensures NameLe(a, c)
  {
    if a != [] && b != [] && c != [] && a[0] == b[0] == c[0] {
      NameLeTransitive(a[1..], b[1..], c[1..]);
    }
  }

  lemma {:induction false} NameLeAntisymmetric(a: string, b: string)
    requires NameLe(a, b) && NameLe(b, a)
    ensures a == b
  {
    if a != [] && b != [] {
      NameLeAntisymmetric(a[1..], b[1..]);
      assert a == [a[0]] + a[1..];
      assert b == [b[0]] + b[1..];
    }
  }
}
