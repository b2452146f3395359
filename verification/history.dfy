/** The per-feed history of entry keys: most recent first, cut to the cache
    size after each cycle, and created empty for every configured feed that
    has none yet (rssreader.py:64-68, 85-86). */
module History {
  import opened Entries

  /** Histories as persisted: one sequence of keys per feed URL. */
  type Store = map<string, seq<Digest>>

  /** Python's slice s[:n]: the first n elements, or, for a negative n, all
      but the last -n elements. */
  function Truncate<T>(s: seq<T>, n: int): (r: seq<T>)
    ensures r <= s
    ensures 0 <= n ==> |r| <= n
    ensures 0 <= n <= |s| ==> |r| == n
    ensures n < 0 && -n <= |s| ==> |r| + -n == |s|
    ensures n < 0 && |s| < -n ==> r == []
    ensures |s| <= n ==> r == s
  {
    if 0 <= n then
      (if n <= |s| then s[..n] else s)
    else
      (if -n <= |s| then s[..|s| + n] else [])
  }

  /** The sequence in the opposite order. */
  function Reverse<T>(s: seq<T>): (r: seq<T>)
    ensures |r| == |s|
    ensures forall i :: 0 <= i < |s| ==> r[i] == s[|s| - 1 - i]
  {
    if s == [] then [] else [s[|s| - 1]] + Reverse(s[..|s| - 1])
  }

  lemma ReverseMembers<T>(s: seq<T>, x: T)
    ensures x in Reverse(s) <==> x in s
  {
    if x in s {
      var i :| 0 <= i < |s| && s[i] == x;
      assert Reverse(s)[|s| - 1 - i] == x;
    }
  }

  lemma ReverseAppend<T>(s: seq<T>, x: T)
    ensures Reverse(s + [x]) == [x] + Reverse(s)
  {
    assert (s + [x])[..|s|] == s;
  }

  /** No element occurs twice. */
  predicate NoDup<T(==)>(s: seq<T>)
  {
    forall i, j :: 0 <= i < j < |s| ==> s[i] != s[j]
  }

  lemma NoDupReverse<T>(s: seq<T>)
    requires NoDup(s)
    ensures NoDup(Reverse(s))
  {
    var r := Reverse(s);
    forall i, j | 0 <= i < j < |r|
      ensures r[i] != r[j]
    {
      assert r[i] == s[|s| - 1 - i] && r[j] == s[|s| - 1 - j];
    }
  }

  /** Two duplicate-free sequences with no common element concatenate to a
      duplicate-free one, and a prefix of a duplicate-free sequence is
      duplicate-free. */
  lemma NoDupConcatPrefix<T>(a: seq<T>, b: seq<T>, p: seq<T>)
    requires NoDup(a) && NoDup(b)
    requires forall x :: x in a ==> x !in b
    requires p <= a + b
    ensures NoDup(p)
  {
    var s := a + b;
    forall i, j | 0 <= i < j < |p|
      ensures p[i] != p[j]
    {
      assert p[i] == s[i] && p[j] == s[j];
      if j >= |a| && i < |a| {
        assert s[i] in a && s[j] in b;
      }
    }
  }

  /** Every configured feed missing from the store gains an empty history;
      histories already present are untouched and nothing else is added. */
  function EnsureFeeds(saved: Store, feeds: seq<string>): (r: Store)
    ensures r.Keys == saved.Keys + set f | f in feeds
    ensures forall f :: f in saved ==> r[f] == saved[f]
    ensures forall f :: f in r && f !in saved ==> r[f] == []
  {
    if feeds == [] then saved
    else
      var rest := EnsureFeeds(saved, feeds[1..]);
      assert forall f :: f in feeds <==> f == feeds[0] || f in feeds[1..];
      if feeds[0] in rest then rest else rest[feeds[0] := []]
  }

  /** Initialising a second time changes nothing. */
  lemma EnsureFeedsIdempotent(saved: Store, feeds: seq<string>)
    ensures EnsureFeeds(EnsureFeeds(saved, feeds), feeds) == EnsureFeeds(saved, feeds)
  {
  }
}
