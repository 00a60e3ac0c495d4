/** The two pieces of Go's `strings` package that the identity middleware
    relies on: `strings.Index` for a single-character separator, and
    `strings.SplitN(s, " ", 2)`, which cuts a header at its first space. */
module Strings {

  const Space: char := ' '

  /** `strings.Index(s, string(c))`: the position of the first `c` in `s`,
      or -1 when `s` has none. */
  function Index(s: string, c: char): (r: int)
    ensures -1 <= r < |s|
    ensures r == -1 <==> c !in s
    ensures 0 <= r ==> s[r] == c && forall j :: 0 <= j < r ==> s[j] != c
  {
    if s == [] then -1
    else if s[0] == c then 0
    else
      var k := Index(s[1..], c);
      if k == -1 then -1
      else k + 1
  }

  /** Index finds exactly the first occurrence: a position holding `c` with
      no `c` before it is the one Index returns. */
  lemma {:induction false} IndexOfFirst(s: string, c: char, k: nat)
    requires k < |s| && s[k] == c && c !in s[..k]
    ensures Index(s, c) == k
  {
    if k > 0 {
      assert s[0] == s[..k][0];
      assert s[1..][..k - 1] == s[..k][1..];
      IndexOfFirst(s[1..], c, k - 1);
    }
  }

  /** `strings.SplitN(s, " ", 2)`: at most one cut, at the first space.
      Without a space the whole string comes back as the only part (this
      includes the empty string, which yields `[""]`); otherwise the text
      before the first space and everything after it, which may be empty
      and may hold further spaces. */
  function SplitN2(s: string): (parts: seq<string>)
    ensures 1 <= |parts| <= 2
    ensures |parts| == 2 <==> Space in s
    ensures |parts| == 1 ==> parts[0] == s
    ensures |parts| == 2 ==> Space !in parts[0] && s == parts[0] + [Space] + parts[1]
  {
    var i := Index(s, Space);
    if i == -1 then [s]
    else
      assert s == s[..i] + [Space] + s[i + 1..];
      [s[..i], s[i + 1..]]
  }

  /** The split is the only way to write `s` as a space-free head, one
      space, and a tail: any such decomposition is the one SplitN2 returns. */
  lemma SplitN2Unique(s: string, head: string, tail: string)
    requires Space !in head
    requires s == head + [Space] + tail
    ensures SplitN2(s) == [head, tail]
  {
    assert s[..|head|] == head;
    IndexOfFirst(s, Space, |head|);
    assert s[|head| + 1..] == tail;
  }
}
