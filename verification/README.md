# err-rssreader: change detection of the feed poller

This project models the core of the `RSSPlugin` of err-rssreader, an errbot
plugin that polls syndication feeds and posts new entries to chat channels.
The modelled core is the poll cycle `check_feeds` and the helpers it uses:

- **Configuration** (`Config`, `configure`): the template of defaults merged
  with the user's configuration, and the typed values the poller reads
  (`MSG_FORMAT`, `MAX_STORIES`, `MAX_LINK_LENGTH`, `ENTRY_CACHE_SIZE`,
  `FEEDS`, `CHANNELS`).
- **Entry identity** (`Entries`, `hash_entry`): an entry is known by the
  digest of its title followed by its link. The digest is the opaque
  parameter `h`.
- **History** (`History`): per-feed sequences of keys, most recent first.
  Configured feeds without a history get an empty one. Histories are cut
  with Python's slice `[:n]`, including its behaviour for a negative `n`.
- **Change detection** (`Poller`): the loop over one feed's entries, as
  the recursive function `Scan`. `CheckFeed` runs it and truncates the
  result. Its results are proved equal to a reference definition: the
  dispatched entries are the first `MAX_STORIES` *new* entries of the feed.
  An entry is new when its key is neither in the saved history nor the key
  of an earlier entry of the same feed. The new history is the dispatched
  keys, latest first, in front of the old history, cut to
  `ENTRY_CACHE_SIZE`.
- **Sending** (`Dispatch`, `sender`): a link longer than `MAX_LINK_LENGTH`
  is replaced by the shortener's result. The message template's three
  fields are filled in. The text goes to every channel of `CHANNELS`, in
  list order, as a sequence of `(channel, text)` messages.
- **The cycle** (`Cycle`): all configured feeds in order. The result is the
  outbox of messages and the store of histories persisted at the end.

Feed fetching (`feedparser.parse`), link shortening and the digest are
function parameters (`fetch`, `shorten`, `h`). The persisted `feeds`
mapping is an ordinary map value.

Four facts about the code shape the model:
- Feeds have no short IDs and there is no per-channel subscription list.
  Every new entry goes to the one global `CHANNELS` list.
- Histories are keyed by the feed's URL as written in `FEEDS`.
- Entries are processed in the order the feed document lists them. The
  list is not reversed.
- Nothing catches an exception from the link shortener.

Errbot's default storage hands out a fresh copy of `self['feeds']` on every
read. So each feed's history is read from the store as persisted after the
lazy initialisation, and its new history is written into the mapping that
is persisted at the end of the cycle.

## Model

| member | source | states |
|---|---|---|
| Config.Configure | rssreader.py:19-28 | With no configuration or an empty one, the result is the template. Otherwise its keys are the template's plus the given ones. Every given key has the given value, and every other template key keeps its default. |
| Config.MergedReadKeys | rssreader.py:21-23 | After the merge, each of the six keys the poller reads holds the user's value when the user gave one, and the template's default otherwise. |
| Config.ConfiguredSettingsReadable | rssreader.py:7-28 | The poller can read a configured plugin's values exactly when every one of those six keys the user gave has the template's type: text for `MSG_FORMAT`, integers for the limits, lists for `FEEDS` and `CHANNELS`. Keys the user left out never block it. |
| Config.ConfiguredSettings | rssreader.py:7-28 | For a well-typed user configuration, the poller runs with the user's value for each key given and the template default (`{0} > {1} > {2}`, 5, 50, 100, no feeds, no channels) for each key left out. |
| Config.UnconfiguredDefaults | rssreader.py:7-28 | With no configuration (`None` or `{}`) the plugin runs with the template's values: 5 stories, 50-character links, 100 cached keys, no feeds, no channels. |
| Config.OverrideFeedsAndChannels | rssreader.py:21-23 | A configuration naming only `FEEDS` and `CHANNELS` changes only those two values. |
| Entries.KeyDependsOnConcatenation | rssreader.py:56-60 | Entries whose title+link strings are equal get the same identity. |
| Entries.SplitEntriesCollide | rssreader.py:59-60 | Two different (title, link) pairs with the same concatenation share one identity. |
| History.Truncate | rssreader.py:86 | Python's `[:n]` slice: the result is a prefix of the history. For `n >= 0` it has at most `n` elements, exactly `n` when there are enough, and all of them when there are fewer. For negative `n` it drops `-n` elements from the tail. |
| History.EnsureFeeds | rssreader.py:64-68 | Every configured feed missing from the store gets an empty history. Existing histories are unchanged, and no other key is added. |
| History.EnsureFeedsIdempotent | rssreader.py:65-67 | Running the lazy initialisation twice gives the same store as running it once. |
| Poller.CheckFeed | rssreader.py:70-86 | The dispatched entries are the first `MAX_STORIES` new entries in feed order. The new history is their keys, latest first, in front of the old history, cut to `ENTRY_CACHE_SIZE`. |
| Poller.ScanRefinesFresh | rssreader.py:74-85 | The source's loop keeps an invariant and ends in the reference result. The invariant: what was sent is the new entries seen so far, within the cap, and the working history is their keys prepended to the saved history. The loop may stop at the first unseen entry once the cap is reached. |
| Poller.NoRedelivery | rssreader.py:76-85 | No dispatched entry has a key in the saved history. No two entries dispatched in one cycle share a key, including repeats within the same feed document. |
| Poller.DispatchedAreNewEntries | rssreader.py:75-84 | Every dispatched entry comes from the feed. If the cap was not reached, every new entry of the feed is dispatched. |
| Poller.BurstCap | rssreader.py:74-84 | At most `MAX_STORIES` entries are dispatched (none when it is zero or negative). Exactly that many are dispatched when the feed has at least that many new entries, and all new entries when it has fewer. |
| Poller.HistoryBounded | rssreader.py:85-86 | With a non-negative cache size the new history fits it. Every key in the new history was either in the old history or belongs to a dispatched entry: an entry held back by the cap is not recorded. |
| Poller.NothingNew | rssreader.py:75-86 | With no new entry, nothing is dispatched and the history only changes by truncation. |
| Poller.DispatchedRecorded | rssreader.py:85-86 | If the cache holds a full burst, every dispatched entry's key is in the new history. |
| Poller.NoRepeatNextCycle | rssreader.py:76-86 | If the cache holds a full burst, the next cycle on the history left behind dispatches no entry that shares a key with an entry already dispatched. |
| Poller.HistoryNoDup | rssreader.py:76-86 | A history without repeated keys keeps that property after a cycle. A key is prepended only when it is not yet in the working history. |
| Poller.SameConcatNeverNew | rssreader.py:56-78 | An entry whose title+link string equals that of an earlier entry of the same feed is never new, whatever the history. |
| Poller.SplitEntryNeverAnnounced | rssreader.py:56-85 | For a fresh feed listing `("ab", "c")` then `("a", "bc")` and a cap of at least one, only the first entry is announced. The second is taken for a repeat because the title and link are joined without a separator. |
| Poller.AllNewFeed | rssreader.py:74-85 | A feed whose entries are all unknown and pairwise distinct has its first `MAX_STORIES` entries dispatched, in feed order. |
| Dispatch.FormatVerbatim | rssreader.py:99-101 | A message template containing neither `{` nor `}` is sent verbatim, whatever the feed title, entry title and link. |
| Dispatch.FormatDefault | rssreader.py:99-101 | The default template `{0} > {1} > {2}` gives `feed title > entry title > link`. |
| Dispatch.FanOut | rssreader.py:103-105 | One message per channel, the i-th to the i-th channel, each carrying the same text. |
| Dispatch.Sender | rssreader.py:90-105 | One message per configured channel, in list order. The text carries the shortened link when the link is longer than `MAX_LINK_LENGTH`, and the link unchanged otherwise. |
| Dispatch.DefaultMessage | rssreader.py:95-101 | With the default template every message reads `feed > title > link`, the link shortened exactly when it is over the threshold. |
| Dispatch.SendAll | rssreader.py:83 | Sending k entries gives k times as many messages as there are channels. Every message goes to a configured channel and carries the text of one of the entries. |
| Dispatch.SendAllDelivers | rssreader.py:83 | Conversely, every sent entry reaches every configured channel with its own text. |
| Dispatch.SendAllSingle | rssreader.py:83 | Sending one entry is exactly one call of `sender`. |
| Dispatch.SendAllConcat | rssreader.py:75-85 | Sending a list of entries gives the messages of its first part followed by those of its second part. So messages leave in entry order, each entry's messages together. |
| Cycle.PollFeeds | rssreader.py:70-87 | The loop over the configured feeds writes a history for exactly those feeds; every other stored feed is untouched. |
| Cycle.PollFeedsHistories | rssreader.py:70-86 | Each configured feed ends with its step's result computed from the snapshot, whatever the feeds after it do. |
| Cycle.PollFeedsProvenance | rssreader.py:70-87 | Every message of the loop goes to a configured channel and announces an entry dispatched for one of the configured feeds. |
| Cycle.PollFeedsDelivers | rssreader.py:70-87 | Conversely, every entry dispatched for a configured feed is announced to every configured channel, with that feed's title. |
| Cycle.PollFeedsSingle | rssreader.py:70-85 | The messages for a single feed are exactly those of sending its dispatched entries. |
| Cycle.PollFeedsOutboxConcat | rssreader.py:70-87 | The messages for a list of feeds are those of its first part followed by those of its second part. So feeds are announced in `FEEDS` order, each feed's messages together. |
| Cycle.PollFeedsOutboxIgnoresStore | rssreader.py:70-86 | The messages do not depend on the histories written so far in the cycle: each feed reads its history from the snapshot persisted before the loop. |
| Cycle.CheckFeeds | rssreader.py:62-88 | The whole cycle. Every configured feed ends with the history its step computes from its saved history (empty if it had none). Feeds stored but not configured keep their history. Every message goes to a configured channel and announces an entry dispatched for a configured feed. Conversely, every entry dispatched for a configured feed reaches every configured channel. |
| Cycle.CycleBounded | rssreader.py:86 | After a cycle, with a non-negative `ENTRY_CACHE_SIZE`, every configured feed's history fits the cache. |

## Left out

- Host plumbing: `activate`, `start_poller` and the `UPDATE_INTERVAL` timer, `get_configuration_template`, `check_configuration`, the `print` calls, and reading or writing the errbot store. The store is a map value passed in and returned.
- `feedparser.parse` is the function parameter `fetch`. A feed listed twice in `FEEDS` is therefore parsed to the same document both times. Fetch errors and documents without `title`/`link` attributes, which raise in the source, are not modelled.
- The link shortener is an opaque total function `shorten`. In the source, an exception from it escapes `check_feeds` and ends the cycle early; that path is not modelled.
- SHA-224, UTF-8 encoding and hexadecimal rendering are the opaque function `h` applied to the title+link string.
- Dispatch.Format: only the fields `{0}`, `{1}` and `{2}` are recognised; every other character is copied. So `}}` and a lone `}` are copied unchanged, where Python's `str.format` turns `}}` into `}` and raises on a lone `}`. Escaped `{{`, auto-numbered `{}`, attribute, index and format specifications, and the errors Python raises for malformed templates are not modelled either. The verbatim property (Dispatch.FormatVerbatim) is therefore stated only for templates with neither brace.
- `build_identifier` and `send`: each message is a `(channel, text)` pair in the outbox, in send order.
- Configuration values of other Python types (floats, tuples, dicts used as lists) are not modelled. `ReadSettings` returns `None` where the source would raise or rely on duck typing.
- Poller.HistoryBounded: the size bound is stated for a non-negative `ENTRY_CACHE_SIZE` only, because Python's slice with a negative bound drops elements from the tail instead (stated by History.Truncate).
- Cycle.CycleBounded: stated for a non-negative `ENTRY_CACHE_SIZE` only, for the same reason.
- Concurrency between the poller timer and chat commands.
