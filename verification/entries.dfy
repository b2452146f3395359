/** Feed documents as the parsing library hands them over, and the identity
    key of an entry (rssreader.py:56-60). */
module Entries {

  /** One item of a parsed feed: only its title and link are read. */
  datatype Entry = Entry(title: string, link: string)

  /** A parsed feed: the feed's own title and its entries, in feed order. */
  datatype FeedDoc = FeedDoc(title: string, entries: seq<Entry>)

  /** The hexadecimal digest under which an entry is remembered. */
  type Digest = string

  /** The identity of an entry: the digest of its title immediately followed
      by its link. The digest itself (SHA-224 in hexadecimal) is the opaque
      parameter h. */
  function KeyOf(h: string -> Digest, e: Entry): Digest
  {
    h(e.title + e.link)
  }

  /** The keys of a sequence of entries, position by position. */
  function Keys(h: string -> Digest, s: seq<Entry>): (ks: seq<Digest>)
    ensures |ks| == |s|
    ensures forall i :: 0 <= i < |s| ==> ks[i] == KeyOf(h, s[i])
  {
    if s == [] then [] else Keys(h, s[..|s| - 1]) + [KeyOf(h, s[|s| - 1])]
  }

  /** The key depends on the entry only through the concatenation of its
      title and link: entries whose concatenations agree are the same entry
      to the poller, even when title and link are split differently. */
  lemma KeyDependsOnConcatenation(h: string -> Digest, a: Entry, b: Entry)
    requires a.title + a.link == b.title + b.link
    ensures KeyOf(h, a) == KeyOf(h, b)
  {
  }

  /** Two different entries sharing one identity: "ab" with link "c" and "a"
      with link "bc". */
  lemma SplitEntriesCollide(h: string -> Digest)
    ensures Entry("ab", "c") != Entry("a", "bc")
    ensures KeyOf(h, Entry("ab", "c")) == KeyOf(h, Entry("a", "bc"))
  {
    assert "ab" + "c" == "a" + "bc";
  }

  lemma KeysAppend(h: string -> Digest, s: seq<Entry>, e: Entry)
    ensures Keys(h, s + [e]) == Keys(h, s) + [KeyOf(h, e)]
  {
  }

  /** A key occurs among the keys of s exactly when some entry of s has it. */
  lemma KeysMembership(h: string -> Digest, s: seq<Entry>, d: Digest)
    ensures d in Keys(h, s) <==> exists i :: 0 <= i < |s| && KeyOf(h, s[i]) == d
  {
    if d in Keys(h, s) {
      var i :| 0 <= i < |s| && Keys(h, s)[i] == d;
      assert KeyOf(h, s[i]) == d;
    }
  }
}
