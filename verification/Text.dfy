/** The string operations of the Rust standard library that the source relies on. */
module Text {
  import opened Prelude

  /** Unicode `White_Space`, the set that `str::trim` strips. */
  predicate IsWhite(c: char) {
    var n := c as int;
    || 0x9 <= n <= 0xD
    || n in {0x20, 0x85, 0xA0, 0x1680, 0x2028, 0x2029, 0x202F, 0x205F, 0x3000}
    || 0x2000 <= n <= 0x200A
  }

  /** They are twenty-five, and these. */
  lemma WhiteCodePoints(c: char)
    ensures IsWhite(c) <==>
              c as int in {0x9, 0xA, 0xB, 0xC, 0xD, 0x20, 0x85, 0xA0, 0x1680, 0x2000, 0x2001, 0x2002, 0x2003, 0x2004,
                           0x2005, 0x2006, 0x2007, 0x2008, 0x2009, 0x200A, 0x2028, 0x2029, 0x202F, 0x205F, 0x3000}
  {
  }

  predicate AllWhite(s: string) {
    forall i :: 0 <= i < |s| ==> IsWhite(s[i])
  }

  /** Neither end of `s` can be trimmed any further. */
  predicate Trimmed(s: string) {
    s == [] || (!IsWhite(s[0]) && !IsWhite(s[|s| - 1]))
  }

  predicate NoSlash(s: string) {
    '/' !in s
  }

  function TrimStart(s: string): string {
    if s != [] && IsWhite(s[0]) then TrimStart(s[1..]) else s
  }

  function TrimEnd(s: string): string {
    if s != [] && IsWhite(s[|s| - 1]) then TrimEnd(s[..|s| - 1]) else s
  }

  function Trim(s: string): string {
    TrimEnd(TrimStart(s))
  }

  lemma {:induction false} TrimStartSplits(s: string) returns (a: string)
    ensures s == a + TrimStart(s) && AllWhite(a)
    ensures TrimStart(s) == [] || !IsWhite(TrimStart(s)[0])
  {
    if s != [] && IsWhite(s[0]) {
      var rest := TrimStartSplits(s[1..]);
      a := [s[0]] + rest;
    } else {
      a := [];
    }
  }

  lemma {:induction false} TrimEndSplits(s: string) returns (b: string)
    ensures s == TrimEnd(s) + b && AllWhite(b)
    ensures TrimEnd(s) == [] || !IsWhite(TrimEnd(s)[|TrimEnd(s)| - 1])
  {
    if s != [] && IsWhite(s[|s| - 1]) {
      var rest := TrimEndSplits(s[..|s| - 1]);
      b := rest + [s[|s| - 1]];
      assert s == s[..|s| - 1] + [s[|s| - 1]];
    } else {
      b := [];
    }
  }

  /** Trimming cuts white space off both ends, and leaves none there. */
  lemma TrimSplits(s: string) returns (a: string, b: string)
    ensures s == a + Trim(s) + b
    ensures AllWhite(a) && AllWhite(b) && Trimmed(Trim(s))
  {
    a := TrimStartSplits(s);
    b := TrimEndSplits(TrimStart(s));
    if Trim(s) != [] {
      assert Trim(s)[0] == TrimStart(s)[0];
    }
    assert s == a + (Trim(s) + b);
  }

  lemma TrimBlank(s: string)
    ensures Trim(s) == [] <==> AllWhite(s)
  {
    var a, b := TrimSplits(s);
    if Trim(s) != [] {
      assert s[|a|] == Trim(s)[0];
    } else {
      assert s == a + b;
    }
  }

  lemma TrimOfTrimmed(s: string)
    requires Trimmed(s)
    ensures Trim(s) == s
  {
  }

  /** Trimming cannot remove a slash, so it neither adds nor hides one. */
  lemma TrimKeepsSlashes(s: string)
    ensures NoSlash(Trim(s)) <==> NoSlash(s)
  {
    var a, b := TrimSplits(s);
    assert '/' !in a && '/' !in b;
    assert '/' in a + Trim(s) + b <==> '/' in Trim(s);
  }

  /** `str::rfind` for one character. */
  function LastIndex(s: string, c: char): (r: Option<nat>)
    ensures r.Some? ==> r.value < |s|
  {
    if s == [] then None
    else if s[|s| - 1] == c then Some(|s| - 1)
    else LastIndex(s[..|s| - 1], c)
  }

  /** It is there if `c` is, at a `c` with no other after it. */
  lemma {:induction false} LastIndexFinds(s: string, c: char)
    ensures LastIndex(s, c).None? <==> c !in s
    ensures LastIndex(s, c).Some? ==>
              var i := LastIndex(s, c).value;
              s[i] == c && forall j :: i < j < |s| ==> s[j] != c
  {
    if s != [] && s[|s| - 1] != c {
      var init := s[..|s| - 1];
      LastIndexFinds(init, c);
      assert s == init + [s[|s| - 1]];
      assert forall j :: 0 <= j < |init| ==> s[j] == init[j];
    }
  }

  lemma LastIndexIs(s: string, c: char, i: nat)
    requires i < |s| && s[i] == c && c !in s[i + 1..]
    ensures LastIndex(s, c) == Some(i)
  {
    LastIndexFinds(s, c);
    assert forall j :: i < j < |s| ==> s[j] == s[i + 1..][j - i - 1];
  }

  /** `str::rsplit_once`: the parts before and after the last `c`. */
  function RSplitOnce(s: string, c: char): Option<(string, string)> {
    match LastIndex(s, c)
    case None => None
    case Some(i) => Some((s[..i], s[i + 1..]))
  }

  /** `str::contains` for a string pattern. */
  predicate Contains(s: string, pattern: string) {
    exists i :: 0 <= i <= |s| && pattern <= s[i..]
  }

  /** `str::to_ascii_lowercase` on one character. */
  function LowerChar(c: char): char {
    if 'A' <= c <= 'Z' then ((c as int) + 32) as char else c
  }

  function Lower(s: string): (r: string) {
    seq(|s|, i requires 0 <= i < |s| => LowerChar(s[i]))
  }
}
