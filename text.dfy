/** Text helpers: the length JavaScript gives a string, and splitting a
    string at the first occurrence of a separator, used to state what the
    pages' concatenated strings keep of their parts. */
module Text {

  /** The number of UTF-16 code units that encode `c`: two for a character
      outside the Basic Multilingual Plane (a surrogate pair), else one. */
  function CodeUnits(c: char): (n: nat)
    ensures n == 1 || n == 2
  {
    if c as int > 0xFFFF then 2 else 1
  }

  /** JavaScript's `length` of `s`: its count of UTF-16 code units. It equals
      the character count exactly when every character lies in the Basic
      Multilingual Plane. */
  function Utf16Length(s: string): (n: nat)
    ensures |s| <= n <= 2 * |s|
    ensures n == |s| <==> forall i :: 0 <= i < |s| ==> CodeUnits(s[i]) == 1
  {
    if |s| == 0 then 0 else CodeUnits(s[0]) + Utf16Length(s[1..])
  }

  /** `s` contains no `sep`. */
  predicate Free(s: string, sep: char)
  {
    forall i :: 0 <= i < |s| ==> s[i] != sep
  }

  /** The part of `s` before its first `sep`, and the part after it (empty
      when `sep` does not occur). */
  function SplitFirst(s: string, sep: char): (r: (string, string))
    ensures Free(r.0, sep)
    ensures |r.0| <= |s| && s[..|r.0|] == r.0
    ensures |r.0| < |s| ==> s[|r.0|] == sep && s[|r.0| + 1..] == r.1
    ensures |r.0| == |s| ==> r.1 == ""
  {
    if |s| == 0 then ("", "")
    else if s[0] == sep then ("", s[1..])
    else
      var rest := SplitFirst(s[1..], sep);
      assert s[1..][|rest.0|..] == s[|rest.0| + 1..];
      ([s[0]] + rest.0, rest.1)
  }

  /** Joining with the separator and splitting again gives back both parts
      exactly when the first part is free of the separator. */
  lemma {:induction false} SplitJoin(a: string, sep: char, b: string)
    ensures SplitFirst(a + [sep] + b, sep) == (a, b) <==> Free(a, sep)
  {
    if Free(a, sep) {
      if |a| > 0 {
        var s := a + [sep] + b;
        assert s[0] == a[0] != sep;
        assert s[1..] == a[1..] + [sep] + b;
        assert Free(a[1..], sep);
        SplitJoin(a[1..], sep, b);
        assert [a[0]] + a[1..] == a;
      } else {
        assert a + [sep] + b == [sep] + b;
      }
    }
  }
}
