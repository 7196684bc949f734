/** Character classes and string searches shared by the other modules. */
module Text {
  import opened Wrappers

  /** `[a-zA-Z]`. */
  predicate IsAsciiLetter(c: char) {
    'a' <= c <= 'z' || 'A' <= c <= 'Z'
  }

  /** `[0-9]`. */
  predicate IsAsciiDigit(c: char) {
    '0' <= c <= '9'
  }

  /** Every character of `s` satisfies `p`. */
  predicate Every(s: string, p: char -> bool) {
    forall i :: 0 <= i < |s| ==> p(s[i])
  }

  /** The first position of `c` in `s`, if any. */
  function IndexOf(s: string, c: char): (r: Option<nat>)
    ensures r.Some? ==> r.value < |s| && s[r.value] == c && c !in s[..r.value]
    ensures r.None? ==> c !in s
  {
    if s == [] then None
    else if s[0] == c then Some(0)
    else match IndexOf(s[1..], c)
      case None => None
      case Some(i) => assert s[..i + 1] == [s[0]] + s[1..][..i]; Some(i + 1)
  }

  lemma IndexOfPrefix(a: string, b: string, c: char)
    requires c !in a && b != [] && b[0] == c
    ensures IndexOf(a + b, c) == Some(|a|)
  {
    var t := a + b;
    forall j | 0 <= j < |a| ensures t[j] != c {
      assert t[j] == a[j];
    }
    assert t[|a|] == c;
    assert forall k :: |a| < k <= |t| ==> t[..k][|a|] == c;
  }

  /** The last position of `c` in `s`, if any. */
  function LastIndexOf(s: string, c: char): (r: Option<nat>)
    ensures r.Some? ==> r.value < |s| && s[r.value] == c && c !in s[r.value + 1..]
    ensures r.None? ==> c !in s
  {
    if s == [] then None
    else if s[|s| - 1] == c then Some(|s| - 1)
    else
      var r := LastIndexOf(s[..|s| - 1], c);
      assert r.Some? ==> s[r.value + 1..] == s[..|s| - 1][r.value + 1..] + [s[|s| - 1]];
      assert r.None? ==> s == s[..|s| - 1] + [s[|s| - 1]];
      r
  }

  lemma LastIndexOfSuffix(a: string, b: string, c: char)
    requires c !in b
    requires a != [] && a[|a| - 1] == c
    ensures LastIndexOf(a + b, c) == Some(|a| - 1)
  {
    var t := a + b;
    forall j | |a| <= j < |t| ensures t[j] != c {
      assert t[j] == b[j - |a|];
    }
    assert t[|a| - 1] == c;
    forall k | 0 < k < |a| ensures c in t[k..] {
      assert t[k..][|a| - 1 - k] == c;
    }
  }
}
