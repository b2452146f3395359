/** The change-detection step for one feed (rssreader.py:70-86): which
    entries of a freshly parsed feed are dispatched, and the history the
    feed is left with. */
module Poller {
  import opened Entries
  import opened Seqs
  import opened History

  /** What one feed yields in one cycle: the entries to dispatch, in order,
      and the history to persist. */
  datatype FeedUpdate = FeedUpdate(dispatched: seq<Entry>, history: seq<Digest>)

  /** The loop over the feed's entries as written: j is the position in the
      feed, past the working history (keys are prepended as entries are
      sent), sent the entries dispatched so far; the source's counter i is
      |sent| + 1. A key already in past is skipped; an unseen key once the
      cap is reached ends the loop. */
  function Scan(h: string -> Digest, entries: seq<Entry>, maxStories: int,
                j: nat, past: seq<Digest>, sent: seq<Entry>): (seq<Entry>, seq<Digest>)
    requires j <= |entries|
    decreases |entries| - j
  {
    if j == |entries| then (sent, past)
    else
      var d := KeyOf(h, entries[j]);
      if d in past then Scan(h, entries, maxStories, j + 1, past, sent)
      else if |sent| + 1 > maxStories then (sent, past)
      else Scan(h, entries, maxStories, j + 1, [d] + past, sent + [entries[j]])
  }

  /** One feed's step: run the loop from the saved history, then keep the
      first entryCacheSize keys. */
  function CheckFeed(h: string -> Digest, history: seq<Digest>, entries: seq<Entry>,
                     maxStories: int, entryCacheSize: int): (r: FeedUpdate)
    ensures r.dispatched == Take(Fresh(h, history, entries), maxStories)
    ensures r.history == Truncate(Reverse(Keys(h, r.dispatched)) + history, entryCacheSize)
  {
    ScanRefinesFresh(h, history, entries, maxStories, 0, history, []);
    var (sent, past) := Scan(h, entries, maxStories, 0, history, []);
    FeedUpdate(sent, Truncate(past, entryCacheSize))
  }

  // ---------------------------------------------------------------------
  // Reference definition of the dispatched entries

  /** The entry at position j is new: its key is neither in the history nor
      the key of an earlier entry of the same feed. */
  predicate FirstUnseen(h: string -> Digest, history: seq<Digest>, entries: seq<Entry>, j: nat)
    requires j < |entries|
  {
    KeyOf(h, entries[j]) !in history && KeyOf(h, entries[j]) !in Keys(h, entries[..j])
  }

  /** The new entries among the first n, in feed order. */
  function FreshPrefix(h: string -> Digest, history: seq<Digest>, entries: seq<Entry>, n: nat): seq<Entry>
    requires n <= |entries|
  {
    if n == 0 then []
    else FreshPrefix(h, history, entries, n - 1)
         + (if FirstUnseen(h, history, entries, n - 1) then [entries[n - 1]] else [])
  }

  /** The new entries of the whole feed, in feed order. */
  function Fresh(h: string -> Digest, history: seq<Digest>, entries: seq<Entry>): seq<Entry>
  {
    FreshPrefix(h, history, entries, |entries|)
  }

  /** The first n elements (none for n <= 0, all when n exceeds the length). */
  function Take<T>(s: seq<T>, n: int): (r: seq<T>)
    ensures r <= s
    ensures |r| == if n <= 0 then 0 else if n < |s| then n else |s|
  {
    if n <= 0 then [] else if n < |s| then s[..n] else s
  }

  /** The effective per-cycle cap: MAX_STORIES, or zero when it is negative. */
  function Cap(maxStories: int): nat
  {
    if maxStories < 0 then 0 else maxStories
  }

  // ---------------------------------------------------------------------
  // Facts about the reference definition

  /** The keys of the new entries among the first n are exactly the keys of
      those entries that are not in the history. */
  lemma {:induction false} FreshPrefixKeys(h: string -> Digest, history: seq<Digest>, entries: seq<Entry>, n: nat, d: Digest)
    requires n <= |entries|
    ensures d in Keys(h, FreshPrefix(h, history, entries, n)) <==>
      d in Keys(h, entries[..n]) && d !in history
  {
    if n > 0 {
      var m := n - 1;
      var prev := FreshPrefix(h, history, entries, m);
      var isNew := FirstUnseen(h, history, entries, m);
      FreshPrefixKeys(h, history, entries, m, d);
      KeysOfPrefixStep(h, entries, m);
      KeysOfFreshStep(h, history, entries, m);
      KeysStep(Keys(h, prev), Keys(h, entries[..m]), history, KeyOf(h, entries[m]), d, isNew);
    }
  }

  /** The keys of the new entries among the first m + 1 extend those among
      the first m by the m-th key exactly when that entry is new. */
  lemma KeysOfFreshStep(h: string -> Digest, history: seq<Digest>, entries: seq<Entry>, m: nat)
    requires m < |entries|
    ensures Keys(h, FreshPrefix(h, history, entries, m + 1))
         == if FirstUnseen(h, history, entries, m)
            then Keys(h, FreshPrefix(h, history, entries, m)) + [KeyOf(h, entries[m])]
            else Keys(h, FreshPrefix(h, history, entries, m))
  {
    var prev := FreshPrefix(h, history, entries, m);
    if FirstUnseen(h, history, entries, m) {
      assert FreshPrefix(h, history, entries, m + 1) == prev + [entries[m]];
      KeysAppend(h, prev, entries[m]);
    } else {
      assert FreshPrefix(h, history, entries, m + 1) == prev;
    }
  }

  /** The keys of the first m + 1 entries extend those of the first m. */
  lemma KeysOfPrefixStep(h: string -> Digest, entries: seq<Entry>, m: nat)
    requires m < |entries|
    ensures Keys(h, entries[..m + 1]) == Keys(h, entries[..m]) + [KeyOf(h, entries[m])]
  {
    assert entries[..m + 1] == entries[..m] + [entries[m]];
    KeysAppend(h, entries[..m], entries[m]);
  }

  /** One step of FreshPrefixKeys on plain sequences: newKeys holds the keys of
      the new entries so far, seen the keys of all entries so far, and k is
      the next key, which is new exactly when isNew. */
  lemma KeysStep(newKeys: seq<Digest>, seen: seq<Digest>, history: seq<Digest>, k: Digest, d: Digest, isNew: bool)
    requires d in newKeys <==> d in seen && d !in history
    requires isNew <==> k !in history && k !in seen
    ensures d in (if isNew then newKeys + [k] else newKeys) <==> d in seen + [k] && d !in history
  {
    MemberConcat(seen, [k], d);
    MemberConcat(newKeys, [k], d);
  }

  /** A shorter prefix of the feed yields a prefix of the new entries. */
  lemma {:induction false} FreshPrefixMonotone(h: string -> Digest, history: seq<Digest>, entries: seq<Entry>, m: nat, n: nat)
    requires m <= n <= |entries|
    ensures FreshPrefix(h, history, entries, m) <= FreshPrefix(h, history, entries, n)
  {
    if m < n {
      FreshPrefixMonotone(h, history, entries, m, n - 1);
    }
  }

  /** New entries never have a key from the history, and never share a key
      with each other. */
  lemma {:induction false} FreshPrefixDistinct(h: string -> Digest, history: seq<Digest>, entries: seq<Entry>, n: nat)
    requires n <= |entries|
    ensures forall e :: e in FreshPrefix(h, history, entries, n) ==> KeyOf(h, e) !in history
    ensures forall i, k :: 0 <= i < k < |FreshPrefix(h, history, entries, n)| ==>
      KeyOf(h, FreshPrefix(h, history, entries, n)[i]) != KeyOf(h, FreshPrefix(h, history, entries, n)[k])
  {
    if n > 0 {
      var m := n - 1;
      var prev := FreshPrefix(h, history, entries, m);
      FreshPrefixDistinct(h, history, entries, m);
      if FirstUnseen(h, history, entries, m) {
        var d := KeyOf(h, entries[m]);
        FreshPrefixKeys(h, history, entries, m, d);
        assert d !in Keys(h, prev);
        forall i | 0 <= i < |prev|
          ensures KeyOf(h, prev[i]) != d
        {
          assert Keys(h, prev)[i] == KeyOf(h, prev[i]);
        }
      }
    }
  }

  // ---------------------------------------------------------------------
  // The loop computes the reference definition

  /** The loop's invariant: what was sent is the new entries seen so far,
      within the cap, and the working history is their keys, latest first,
      in front of the saved history. */
  predicate ScanInvariant(h: string -> Digest, history: seq<Digest>, entries: seq<Entry>, maxStories: int,
                          j: nat, past: seq<Digest>, sent: seq<Entry>)
    requires j <= |entries|
  {
    && sent == FreshPrefix(h, history, entries, j)
    && |sent| <= Cap(maxStories)
    && past == Reverse(Keys(h, sent)) + history
  }

  /** Under the invariant, the loop's membership test on the working history
      is exactly the negation of the reference test. */
  lemma ScanTestAgrees(h: string -> Digest, history: seq<Digest>, entries: seq<Entry>, maxStories: int,
                       j: nat, past: seq<Digest>, sent: seq<Entry>)
    requires j < |entries|
    requires ScanInvariant(h, history, entries, maxStories, j, past, sent)
    ensures KeyOf(h, entries[j]) in past <==> !FirstUnseen(h, history, entries, j)
  {
    var d := KeyOf(h, entries[j]);
    FreshPrefixKeys(h, history, entries, j, d);
    ReverseMembers(Keys(h, sent), d);
  }

  /** Sending an unseen entry within the cap re-establishes the invariant. */
  lemma ScanSendStep(h: string -> Digest, history: seq<Digest>, entries: seq<Entry>, maxStories: int,
                     j: nat, past: seq<Digest>, sent: seq<Entry>)
    requires j < |entries|
    requires ScanInvariant(h, history, entries, maxStories, j, past, sent)
    requires FirstUnseen(h, history, entries, j)
    requires |sent| + 1 <= maxStories
    ensures ScanInvariant(h, history, entries, maxStories, j + 1,
                          [KeyOf(h, entries[j])] + past, sent + [entries[j]])
  {
    var d := KeyOf(h, entries[j]);
    var sent' := sent + [entries[j]];
    assert FreshPrefix(h, history, entries, j + 1) == sent';
    KeysAppend(h, sent, entries[j]);
    ReverseAppend(Keys(h, sent), d);
    assert Reverse(Keys(h, sent')) == [d] + Reverse(Keys(h, sent));
    ConcatAssoc([d], Reverse(Keys(h, sent)), history);
  }


  /** Meeting an unseen entry with the cap reached: what was sent is the
      capped reference result. */
  lemma ScanStopStep(h: string -> Digest, history: seq<Digest>, entries: seq<Entry>, maxStories: int,
                     j: nat, past: seq<Digest>, sent: seq<Entry>)
    requires j < |entries|
    requires ScanInvariant(h, history, entries, maxStories, j, past, sent)
    requires FirstUnseen(h, history, entries, j)
    requires |sent| + 1 > maxStories
    ensures sent == Take(Fresh(h, history, entries), maxStories)
  {
    var all := Fresh(h, history, entries);
    assert FreshPrefix(h, history, entries, j + 1) == sent + [entries[j]];
    FreshPrefixMonotone(h, history, entries, j + 1, |entries|);
    assert |sent| == Cap(maxStories);
    assert all[..|sent|] == sent;
  }

  lemma {:induction false} ScanRefinesFresh(h: string -> Digest, history: seq<Digest>, entries: seq<Entry>, maxStories: int,
                                            j: nat, past: seq<Digest>, sent: seq<Entry>)
    requires j <= |entries|
    requires ScanInvariant(h, history, entries, maxStories, j, past, sent)
    ensures Scan(h, entries, maxStories, j, past, sent).0 == Take(Fresh(h, history, entries), maxStories)
    ensures Scan(h, entries, maxStories, j, past, sent).1
         == Reverse(Keys(h, Scan(h, entries, maxStories, j, past, sent).0)) + history
    decreases |entries| - j
  {
    if j == |entries| {
      assert Take(Fresh(h, history, entries), maxStories) == sent;
    } else {
      var d := KeyOf(h, entries[j]);
      ScanTestAgrees(h, history, entries, maxStories, j, past, sent);
      if d in past {
        ScanRefinesFresh(h, history, entries, maxStories, j + 1, past, sent);
      } else if |sent| + 1 > maxStories {
        ScanStopStep(h, history, entries, maxStories, j, past, sent);
      } else {
        ScanSendStep(h, history, entries, maxStories, j, past, sent);
        ScanRefinesFresh(h, history, entries, maxStories, j + 1, [d] + past, sent + [entries[j]]);
      }
    }
  }

  // ---------------------------------------------------------------------
  // Properties of one feed's step

  /** Nothing already in the saved history is dispatched, and no two entries
      dispatched in one cycle share a key. */
  lemma NoRedelivery(h: string -> Digest, history: seq<Digest>, entries: seq<Entry>, maxStories: int, entryCacheSize: int)
    ensures forall e :: e in CheckFeed(h, history, entries, maxStories, entryCacheSize).dispatched ==>
      KeyOf(h, e) !in history
    ensures var sent := CheckFeed(h, history, entries, maxStories, entryCacheSize).dispatched;
      forall i, k :: 0 <= i < k < |sent| ==> KeyOf(h, sent[i]) != KeyOf(h, sent[k])
  {
    FreshPrefixDistinct(h, history, entries, |entries|);
    var sent := CheckFeed(h, history, entries, maxStories, entryCacheSize).dispatched;
    var all := Fresh(h, history, entries);
    assert forall i :: 0 <= i < |sent| ==> sent[i] == all[i];
  }

  /** A history that holds no key twice still holds no key twice after a
      cycle: the prepended keys are pairwise distinct and new. */
  lemma HistoryNoDup(h: string -> Digest, history: seq<Digest>, entries: seq<Entry>, maxStories: int, entryCacheSize: int)
    requires NoDup(history)
    ensures NoDup(CheckFeed(h, history, entries, maxStories, entryCacheSize).history)
  {
    var r := CheckFeed(h, history, entries, maxStories, entryCacheSize);
    var ks := Keys(h, r.dispatched);
    NoRedelivery(h, history, entries, maxStories, entryCacheSize);
    assert NoDup(ks) by {
      forall i, j | 0 <= i < j < |ks|
        ensures ks[i] != ks[j]
      {
        assert ks[i] == KeyOf(h, r.dispatched[i]) && ks[j] == KeyOf(h, r.dispatched[j]);
      }
    }
    NoDupReverse(ks);
    forall x | x in Reverse(ks)
      ensures x !in history
    {
      ReverseMembers(ks, x);
      var i :| 0 <= i < |ks| && ks[i] == x;
      assert KeyOf(h, r.dispatched[i]) == x;
    }
    NoDupConcatPrefix(Reverse(ks), history, r.history);
  }

  /** Every dispatched entry is an entry of the feed, and every entry of the
      feed that is new is dispatched unless the cap was reached. */
  lemma DispatchedAreNewEntries(h: string -> Digest, history: seq<Digest>, entries: seq<Entry>, maxStories: int, entryCacheSize: int)
    ensures var sent := CheckFeed(h, history, entries, maxStories, entryCacheSize).dispatched;
      forall e :: e in sent ==> e in entries
    ensures var sent := CheckFeed(h, history, entries, maxStories, entryCacheSize).dispatched;
      |sent| < Cap(maxStories) ==>
        forall j :: 0 <= j < |entries| && FirstUnseen(h, history, entries, j) ==> entries[j] in sent
  {
    FreshPrefixMembers(h, history, entries, |entries|);
  }

  lemma FreshPrefixMembers(h: string -> Digest, history: seq<Digest>, entries: seq<Entry>, n: nat)
    requires n <= |entries|
    ensures forall e :: e in FreshPrefix(h, history, entries, n) ==> e in entries
    ensures forall j :: 0 <= j < n && FirstUnseen(h, history, entries, j) ==>
      entries[j] in FreshPrefix(h, history, entries, n)
  {
    FreshPrefixFromFeed(h, history, entries, n);
    FreshPrefixComplete(h, history, entries, n);
  }

  /** The new entries among the first n are entries of the feed. */
  lemma {:induction false} FreshPrefixFromFeed(h: string -> Digest, history: seq<Digest>, entries: seq<Entry>, n: nat)
    requires n <= |entries|
    ensures forall e :: e in FreshPrefix(h, history, entries, n) ==> e in entries
  {
    if n > 0 {
      var m := n - 1;
      var prev := FreshPrefix(h, history, entries, m);
      FreshPrefixFromFeed(h, history, entries, m);
      var extra := if FirstUnseen(h, history, entries, m) then [entries[m]] else [];
      assert FreshPrefix(h, history, entries, n) == prev + extra;
      forall e | e in prev + extra
        ensures e in entries
      {
        MemberConcat(prev, extra, e);
      }
    }
  }

  /** Each new entry among the first n is among the new entries. */
  lemma FreshPrefixComplete(h: string -> Digest, history: seq<Digest>, entries: seq<Entry>, n: nat)
    requires n <= |entries|
    ensures forall j :: 0 <= j < n && FirstUnseen(h, history, entries, j) ==>
      entries[j] in FreshPrefix(h, history, entries, n)
  {
    forall j | 0 <= j < n && FirstUnseen(h, history, entries, j)
      ensures entries[j] in FreshPrefix(h, history, entries, n)
    {
      FreshPrefixHas(h, history, entries, n, j);
    }
  }

  /** The new entry at position j is among the new entries of any longer prefix. */
  lemma {:induction false} FreshPrefixHas(h: string -> Digest, history: seq<Digest>, entries: seq<Entry>, n: nat, j: nat)
    requires j < n <= |entries|
    requires FirstUnseen(h, history, entries, j)
    ensures entries[j] in FreshPrefix(h, history, entries, n)
    decreases n
  {
    var m := n - 1;
    var prev := FreshPrefix(h, history, entries, m);
    if j == m {
      assert FreshPrefix(h, history, entries, n) == prev + [entries[j]];
      MemberConcat(prev, [entries[j]], entries[j]);
    } else {
      FreshPrefixHas(h, history, entries, m, j);
      var extra := if FirstUnseen(h, history, entries, m) then [entries[m]] else [];
      assert FreshPrefix(h, history, entries, n) == prev + extra;
      MemberConcat(prev, extra, entries[j]);
    }
  }

  /** At most MAX_STORIES entries per feed per cycle, and exactly that many
      when the feed offers more new entries than that. */
  lemma BurstCap(h: string -> Digest, history: seq<Digest>, entries: seq<Entry>, maxStories: int, entryCacheSize: int)
    ensures |CheckFeed(h, history, entries, maxStories, entryCacheSize).dispatched| <= Cap(maxStories)
    ensures |Fresh(h, history, entries)| >= Cap(maxStories) ==>
      |CheckFeed(h, history, entries, maxStories, entryCacheSize).dispatched| == Cap(maxStories)
    ensures |Fresh(h, history, entries)| < Cap(maxStories) ==>
      CheckFeed(h, history, entries, maxStories, entryCacheSize).dispatched == Fresh(h, history, entries)
  {
  }

  /** The new history never exceeds the cache size (for a non-negative size)
      and holds only keys of the old history or of dispatched entries: an
      entry held back by the cap is not recorded. */
  lemma HistoryBounded(h: string -> Digest, history: seq<Digest>, entries: seq<Entry>, maxStories: int, entryCacheSize: int)
    ensures var r := CheckFeed(h, history, entries, maxStories, entryCacheSize);
      0 <= entryCacheSize ==> |r.history| <= entryCacheSize
    ensures var r := CheckFeed(h, history, entries, maxStories, entryCacheSize);
      forall d :: d in r.history ==> d in history || d in Keys(h, r.dispatched)
  {
    var r := CheckFeed(h, history, entries, maxStories, entryCacheSize);
    var full := Reverse(Keys(h, r.dispatched)) + history;
    assert r.history <= full;
    forall d | d in r.history
      ensures d in history || d in Keys(h, r.dispatched)
    {
      assert d in full;
      ReverseMembers(Keys(h, r.dispatched), d);
    }
  }

  /** A feed with nothing new dispatches nothing, and its history changes
      only by truncation. */
  lemma NothingNew(h: string -> Digest, history: seq<Digest>, entries: seq<Entry>, maxStories: int, entryCacheSize: int)
    requires Fresh(h, history, entries) == []
    ensures CheckFeed(h, history, entries, maxStories, entryCacheSize)
         == FeedUpdate([], Truncate(history, entryCacheSize))
  {
    assert Reverse(Keys(h, [])) + history == history;
  }

  /** With a cache that holds at least a full burst, every dispatched
      entry's key is in the history the step leaves. */
  lemma DispatchedRecorded(h: string -> Digest, history: seq<Digest>, entries: seq<Entry>, maxStories: int, entryCacheSize: int)
    requires Cap(maxStories) <= entryCacheSize
    ensures var r := CheckFeed(h, history, entries, maxStories, entryCacheSize);
      forall e :: e in r.dispatched ==> KeyOf(h, e) in r.history
  {
    var r := CheckFeed(h, history, entries, maxStories, entryCacheSize);
    var n := |r.dispatched|;
    var rev := Reverse(Keys(h, r.dispatched));
    assert r.history[..n] == rev;
    forall e | e in r.dispatched
      ensures KeyOf(h, e) in r.history
    {
      var i :| 0 <= i < n && r.dispatched[i] == e;
      assert r.history[n - 1 - i] == rev[n - 1 - i] == KeyOf(h, e);
    }
  }

  /** Once a cycle has dispatched an entry, a later cycle on the history it
      left dispatches nothing with that entry's key, provided the cache holds
      at least a full burst. */
  lemma NoRepeatNextCycle(h: string -> Digest, history: seq<Digest>, entries: seq<Entry>,
                          later: seq<Entry>, maxStories: int, entryCacheSize: int)
    requires Cap(maxStories) <= entryCacheSize
    ensures var first := CheckFeed(h, history, entries, maxStories, entryCacheSize);
      var second := CheckFeed(h, first.history, later, maxStories, entryCacheSize);
      forall e, e' :: e in first.dispatched && e' in second.dispatched ==> KeyOf(h, e) != KeyOf(h, e')
  {
    var first := CheckFeed(h, history, entries, maxStories, entryCacheSize);
    DispatchedRecorded(h, history, entries, maxStories, entryCacheSize);
    NoRedelivery(h, first.history, later, maxStories, entryCacheSize);
  }

  /** A feed whose entries are all unknown and pairwise distinct: the first
      MAX_STORIES of them are dispatched, in feed order. */
  lemma AllNewFeed(h: string -> Digest, history: seq<Digest>, entries: seq<Entry>, maxStories: int, entryCacheSize: int)
    requires forall j :: 0 <= j < |entries| ==> KeyOf(h, entries[j]) !in history
    requires forall i, j :: 0 <= i < j < |entries| ==> KeyOf(h, entries[i]) != KeyOf(h, entries[j])
    ensures CheckFeed(h, history, entries, maxStories, entryCacheSize).dispatched == Take(entries, maxStories)
  {
    FreshPrefixAllNew(h, history, entries, |entries|);
    assert entries[..|entries|] == entries;
  }

  lemma {:induction false} FreshPrefixAllNew(h: string -> Digest, history: seq<Digest>, entries: seq<Entry>, n: nat)
    requires n <= |entries|
    requires forall j :: 0 <= j < |entries| ==> KeyOf(h, entries[j]) !in history
    requires forall i, j :: 0 <= i < j < |entries| ==> KeyOf(h, entries[i]) != KeyOf(h, entries[j])
    ensures FreshPrefix(h, history, entries, n) == entries[..n]
  {
    if n > 0 {
      var m := n - 1;
      FreshPrefixAllNew(h, history, entries, m);
      KeysMembership(h, entries[..m], KeyOf(h, entries[m]));
      assert FirstUnseen(h, history, entries, m);
      assert entries[..n] == entries[..m] + [entries[m]];
    }
  }

  /** An entry whose title+link string equals that of an earlier entry of the
      same feed is never new, however title and link are split. */
  lemma SameConcatNeverNew(h: string -> Digest, history: seq<Digest>, entries: seq<Entry>, i: nat, j: nat)
    requires i < j < |entries|
    requires entries[i].title + entries[i].link == entries[j].title + entries[j].link
    ensures !FirstUnseen(h, history, entries, j)
  {
    assert Keys(h, entries[..j])[i] == KeyOf(h, entries[j]);
  }

  /** A feed listing the entry ("ab", "c") and then the different entry
      ("a", "bc") announces only the first: the second is silently never
      dispatched. */
  lemma SplitEntryNeverAnnounced(h: string -> Digest, maxStories: int, entryCacheSize: int)
    requires 1 <= maxStories
    ensures CheckFeed(h, [], [Entry("ab", "c"), Entry("a", "bc")], maxStories, entryCacheSize).dispatched
         == [Entry("ab", "c")]
  {
    var entries := [Entry("ab", "c"), Entry("a", "bc")];
    assert entries[..0] == [];
    assert FirstUnseen(h, [], entries, 0);
    assert FreshPrefix(h, [], entries, 1) == [entries[0]];
    SameConcatNeverNew(h, [], entries, 0, 1);
    assert Fresh(h, [], entries) == [entries[0]];
  }
}
