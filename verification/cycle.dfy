/** One poll cycle over every configured feed (rssreader.py:62-88): lazy
    creation of empty histories, then, feed by feed in configuration order,
    the change-detection step, the sends for its new entries, and the
    truncated history written back. */
module Cycle {
  import opened Entries
  import opened History
  import opened Poller
  import opened Config
  import opened Dispatch
  import opened Seqs

  /** The observable result of a cycle: the messages sent, in order, and
      the store of histories persisted at its end. */
  datatype CycleResult = CycleResult(outbox: seq<Outgoing>, store: Store)

  /** The history a configured feed starts the cycle with. */
  function StartHistory(saved: Store, f: string): seq<Digest>
  {
    if f in saved then saved[f] else []
  }

  /** The remaining feeds of the cycle. Each feed's history is read from
      snapshot, the store as persisted after the lazy initialisation, and
      its new history is written into store. */
  function PollFeeds(s: Settings, fetch: string -> FeedDoc, h: string -> Digest, shorten: string -> string,
                     snapshot: Store, feeds: seq<string>, store: Store): (r: CycleResult)
    requires forall f :: f in feeds ==> f in snapshot
    ensures r.store.Keys == store.Keys + set f | f in feeds
    ensures forall f :: f in store && f !in feeds ==> r.store[f] == store[f]
  {
    if feeds == [] then CycleResult([], store)
    else
      var f := feeds[0];
      var doc := fetch(f);
      var update := CheckFeed(h, snapshot[f], doc.entries, s.maxStories, s.entryCacheSize);
      var sends := SendAll(s, shorten, doc.title, update.dispatched);
      var next := store[f := update.history];
      var rest := PollFeeds(s, fetch, h, shorten, snapshot, feeds[1..], next);
      StoreStep(store, feeds, update.history, rest.store);
      CycleResult(sends + rest.outbox, rest.store)
  }

  /** Writing the first feed's history and then the rest's writes exactly
      the feeds of the whole list and leaves every other feed alone. */
  lemma StoreStep(store: Store, feeds: seq<string>, v: seq<Digest>, after: Store)
    requires feeds != []
    requires after.Keys == store[feeds[0] := v].Keys + set g | g in feeds[1..]
    requires forall g :: g in store[feeds[0] := v] && g !in feeds[1..] ==> after[g] == store[feeds[0] := v][g]
    ensures after.Keys == store.Keys + set g | g in feeds
    ensures forall g :: g in store && g !in feeds ==> after[g] == store[g]
  {
    assert (set g | g in feeds) == {feeds[0]} + set g | g in feeds[1..];
  }

  /** Each feed of the loop ends with the history its step computes from the
      snapshot, whatever the feeds after it do. */
  lemma {:induction false} PollFeedsHistories(s: Settings, fetch: string -> FeedDoc, h: string -> Digest,
                                              shorten: string -> string, snapshot: Store, feeds: seq<string>, store: Store)
    requires forall f :: f in feeds ==> f in snapshot
    ensures forall f :: f in feeds ==>
      PollFeeds(s, fetch, h, shorten, snapshot, feeds, store).store[f]
        == CheckFeed(h, snapshot[f], fetch(f).entries, s.maxStories, s.entryCacheSize).history
  {
    if feeds != [] {
      var f := feeds[0];
      var update := CheckFeed(h, snapshot[f], fetch(f).entries, s.maxStories, s.entryCacheSize);
      var next := store[f := update.history];
      var rest := PollFeeds(s, fetch, h, shorten, snapshot, feeds[1..], next);
      assert PollFeeds(s, fetch, h, shorten, snapshot, feeds, store).store == rest.store;
      PollFeedsHistories(s, fetch, h, shorten, snapshot, feeds[1..], next);
      forall g | g in feeds
        ensures rest.store[g] == CheckFeed(h, snapshot[g], fetch(g).entries, s.maxStories, s.entryCacheSize).history
      {
        if g !in feeds[1..] {
          assert g == f;
          assert rest.store[g] == next[g];
        }
      }
    }
  }

  /** The message o announces an entry that the step for feed f, started
      from history, dispatches. */
  ghost predicate FromFeed(s: Settings, fetch: string -> FeedDoc, h: string -> Digest, shorten: string -> string,
                           history: seq<Digest>, f: string, o: Outgoing)
  {
    exists e :: e in CheckFeed(h, history, fetch(f).entries, s.maxStories, s.entryCacheSize).dispatched
             && o.text == Message(s, shorten, fetch(f).title, e)
  }

  /** Every message of the remaining feeds announces an entry dispatched for
      one of them. */
  lemma {:induction false} PollFeedsProvenance(s: Settings, fetch: string -> FeedDoc, h: string -> Digest,
                                               shorten: string -> string, snapshot: Store, feeds: seq<string>, store: Store)
    requires forall f :: f in feeds ==> f in snapshot
    ensures forall o :: o in PollFeeds(s, fetch, h, shorten, snapshot, feeds, store).outbox ==>
      o.channel in s.channels
    ensures forall o :: o in PollFeeds(s, fetch, h, shorten, snapshot, feeds, store).outbox ==>
      exists f :: f in feeds && FromFeed(s, fetch, h, shorten, snapshot[f], f, o)
  {
    if feeds != [] {
      var f := feeds[0];
      var doc := fetch(f);
      var update := CheckFeed(h, snapshot[f], doc.entries, s.maxStories, s.entryCacheSize);
      var sends := SendAll(s, shorten, doc.title, update.dispatched);
      var next := store[f := update.history];
      var rest := PollFeeds(s, fetch, h, shorten, snapshot, feeds[1..], next);
      PollFeedsProvenance(s, fetch, h, shorten, snapshot, feeds[1..], next);
      assert PollFeeds(s, fetch, h, shorten, snapshot, feeds, store).outbox == sends + rest.outbox;
      forall o | o in sends + rest.outbox
        ensures o.channel in s.channels
        ensures exists g :: g in feeds && FromFeed(s, fetch, h, shorten, snapshot[g], g, o)
      {
        if o in sends {
          assert FromFeed(s, fetch, h, shorten, snapshot[f], f, o);
        } else {
          var g :| g in feeds[1..] && FromFeed(s, fetch, h, shorten, snapshot[g], g, o);
          assert g in feeds;
        }
      }
    }
  }

  /** Every entry dispatched for one of the remaining feeds is announced to
      every configured channel. */
  lemma {:induction false} PollFeedsDelivers(s: Settings, fetch: string -> FeedDoc, h: string -> Digest,
                                             shorten: string -> string, snapshot: Store, feeds: seq<string>, store: Store)
    requires forall f :: f in feeds ==> f in snapshot
    ensures forall f, e, c ::
              f in feeds
              && e in CheckFeed(h, snapshot[f], fetch(f).entries, s.maxStories, s.entryCacheSize).dispatched
              && c in s.channels
              ==> Outgoing(c, Message(s, shorten, fetch(f).title, e))
                    in PollFeeds(s, fetch, h, shorten, snapshot, feeds, store).outbox
  {
    if feeds != [] {
      var f := feeds[0];
      var doc := fetch(f);
      var update := CheckFeed(h, snapshot[f], doc.entries, s.maxStories, s.entryCacheSize);
      var sends := SendAll(s, shorten, doc.title, update.dispatched);
      var next := store[f := update.history];
      var rest := PollFeeds(s, fetch, h, shorten, snapshot, feeds[1..], next);
      var out := PollFeeds(s, fetch, h, shorten, snapshot, feeds, store).outbox;
      assert out == sends + rest.outbox;
      PollFeedsDelivers(s, fetch, h, shorten, snapshot, feeds[1..], next);
      SendAllDelivers(s, shorten, doc.title, update.dispatched);
      forall g, e, c | g in feeds
        && e in CheckFeed(h, snapshot[g], fetch(g).entries, s.maxStories, s.entryCacheSize).dispatched
        && c in s.channels
        ensures Outgoing(c, Message(s, shorten, fetch(g).title, e)) in out
      {
        if g == f {
          assert Outgoing(c, Message(s, shorten, fetch(g).title, e)) in sends;
        } else {
          assert g in feeds[1..];
        }
      }
    }
  }

  /** The messages of a loop do not depend on the store it writes into. */
  lemma {:induction false} PollFeedsOutboxIgnoresStore(s: Settings, fetch: string -> FeedDoc, h: string -> Digest,
                                                       shorten: string -> string, snapshot: Store, feeds: seq<string>,
                                                       store: Store, store': Store)
    requires forall f :: f in feeds ==> f in snapshot
    ensures PollFeeds(s, fetch, h, shorten, snapshot, feeds, store).outbox
         == PollFeeds(s, fetch, h, shorten, snapshot, feeds, store').outbox
  {
    if feeds != [] {
      var f := feeds[0];
      var update := CheckFeed(h, snapshot[f], fetch(f).entries, s.maxStories, s.entryCacheSize);
      PollFeedsOutboxIgnoresStore(s, fetch, h, shorten, snapshot, feeds[1..],
                                  store[f := update.history], store'[f := update.history]);
    }
  }

  /** The messages of a single feed: its dispatched entries, in order, each
      sent to every channel. */
  lemma PollFeedsSingle(s: Settings, fetch: string -> FeedDoc, h: string -> Digest,
                        shorten: string -> string, snapshot: Store, f: string, store: Store)
    requires f in snapshot
    ensures PollFeeds(s, fetch, h, shorten, snapshot, [f], store).outbox
         == SendAll(s, shorten, fetch(f).title,
                    CheckFeed(h, snapshot[f], fetch(f).entries, s.maxStories, s.entryCacheSize).dispatched)
  {
    assert [f][1..] == [];
  }

  /** Feeds are announced in configuration order: the messages for xs + ys
      are those for xs followed by those for ys. */
  lemma {:induction false} PollFeedsOutboxConcat(s: Settings, fetch: string -> FeedDoc, h: string -> Digest,
                                                 shorten: string -> string, snapshot: Store,
                                                 xs: seq<string>, ys: seq<string>, store: Store)
    requires forall f :: f in xs + ys ==> f in snapshot
    ensures PollFeeds(s, fetch, h, shorten, snapshot, xs + ys, store).outbox
         == PollFeeds(s, fetch, h, shorten, snapshot, xs, store).outbox
            + PollFeeds(s, fetch, h, shorten, snapshot, ys, store).outbox
  {
    if xs == [] {
      assert xs + ys == ys;
    } else {
      var f := xs[0];
      var update := CheckFeed(h, snapshot[f], fetch(f).entries, s.maxStories, s.entryCacheSize);
      var sends := SendAll(s, shorten, fetch(f).title, update.dispatched);
      var next := store[f := update.history];
      assert (xs + ys)[0] == f;
      assert (xs + ys)[1..] == xs[1..] + ys;
      assert PollFeeds(s, fetch, h, shorten, snapshot, xs + ys, store).outbox
          == sends + PollFeeds(s, fetch, h, shorten, snapshot, xs[1..] + ys, next).outbox;
      assert PollFeeds(s, fetch, h, shorten, snapshot, xs, store).outbox
          == sends + PollFeeds(s, fetch, h, shorten, snapshot, xs[1..], next).outbox;
      PollFeedsOutboxConcat(s, fetch, h, shorten, snapshot, xs[1..], ys, next);
      PollFeedsOutboxIgnoresStore(s, fetch, h, shorten, snapshot, ys, next, store);
      ConcatAssoc(sends, PollFeeds(s, fetch, h, shorten, snapshot, xs[1..], next).outbox,
                  PollFeeds(s, fetch, h, shorten, snapshot, ys, store).outbox);
    }
  }

  /** A whole cycle: every configured feed ends with the history its step
      computes from its saved history (empty when it had none); feeds that
      are stored but no longer configured keep theirs; every message goes
      to a configured channel and announces an entry dispatched for one of
      the configured feeds; and every entry dispatched for a configured feed
      is announced to every configured channel. */
  function CheckFeeds(s: Settings, fetch: string -> FeedDoc, h: string -> Digest, shorten: string -> string,
                      saved: Store): (r: CycleResult)
    ensures r.store.Keys == saved.Keys + set f | f in s.feeds
    ensures forall f :: f in saved && f !in s.feeds ==> r.store[f] == saved[f]
    ensures forall f :: f in s.feeds ==>
      r.store[f] == CheckFeed(h, StartHistory(saved, f), fetch(f).entries, s.maxStories, s.entryCacheSize).history
    ensures forall o :: o in r.outbox ==> o.channel in s.channels
    ensures forall o :: o in r.outbox ==>
      exists f :: f in s.feeds && FromFeed(s, fetch, h, shorten, StartHistory(saved, f), f, o)
    ensures forall f, e, c ::
              f in s.feeds
              && e in CheckFeed(h, StartHistory(saved, f), fetch(f).entries, s.maxStories, s.entryCacheSize).dispatched
              && c in s.channels
              ==> Outgoing(c, Message(s, shorten, fetch(f).title, e)) in r.outbox
  {
    var snapshot := EnsureFeeds(saved, s.feeds);
    assert forall f :: f in s.feeds ==> snapshot[f] == StartHistory(saved, f);
    PollFeedsHistories(s, fetch, h, shorten, snapshot, s.feeds, snapshot);
    PollFeedsProvenance(s, fetch, h, shorten, snapshot, s.feeds, snapshot);
    PollFeedsDelivers(s, fetch, h, shorten, snapshot, s.feeds, snapshot);
    PollFeeds(s, fetch, h, shorten, snapshot, s.feeds, snapshot)
  }

  /** After a cycle every configured feed's history fits the cache (for a
      non-negative cache size). */
  lemma CycleBounded(s: Settings, fetch: string -> FeedDoc, h: string -> Digest, shorten: string -> string, saved: Store)
    requires 0 <= s.entryCacheSize
    ensures forall f :: f in s.feeds ==> |CheckFeeds(s, fetch, h, shorten, saved).store[f]| <= s.entryCacheSize
  {
    forall f | f in s.feeds
      ensures |CheckFeeds(s, fetch, h, shorten, saved).store[f]| <= s.entryCacheSize
    {
      HistoryBounded(h, StartHistory(saved, f), fetch(f).entries, s.maxStories, s.entryCacheSize);
    }
  }
}
