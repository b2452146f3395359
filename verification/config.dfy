/** The plugin's configuration: the template of defaults, the merge of a
    user-supplied configuration over it (rssreader.py:7-28), and the typed
    view of the merged mapping that the poller and the sender read. */
module Config {
  import opened Wrappers

  /** A configuration value as the template uses them: an integer, a
      string, or a list of strings. */
  datatype Value = Int(n: int) | Text(s: string) | Texts(items: seq<string>)

  type Configuration = map<string, Value>

  const DefaultFormat: string := "{0} > {1} > {2}"

  /** CONFIG_TEMPLATE of the plugin. */
  const Template: Configuration := map[
    "MSG_FORMAT" := Text(DefaultFormat),
    "MAX_STORIES" := Int(5),
    "UPDATE_INTERVAL" := Int(30),
    "MAX_LINK_LENGTH" := Int(50),
    "ENTRY_CACHE_SIZE" := Int(100),
    "FEEDS" := Texts([]),
    "CHANNELS" := Texts([])
  ]

  /** The configuration the plugin installs: the template when nothing (or an
      empty mapping) is given, otherwise the template's items followed by the
      given items, the later ones winning. */
  function Configure(configuration: Option<Configuration>): (cfg: Configuration)
    ensures configuration == None || configuration == Some(map[]) ==> cfg == Template
    ensures configuration.Some? ==> cfg.Keys == Template.Keys + configuration.value.Keys
    ensures configuration.Some? ==>
      forall k :: k in configuration.value ==> cfg[k] == configuration.value[k]
    ensures forall k :: k in Template && (configuration == None || k !in configuration.value) ==>
      k in cfg && cfg[k] == Template[k]
  {
    if configuration.Some? && configuration.value != map[] then
      Template + configuration.value
    else
      Template
  }

  /** The values the change-detection step and the sender read from the
      installed configuration. */
  datatype Settings = Settings(
    msgFormat: string,
    maxStories: int,
    maxLinkLength: int,
    entryCacheSize: int,
    feeds: seq<string>,
    channels: seq<string>)

  function GetInt(cfg: Configuration, key: string): Option<int>
  {
    if key in cfg && cfg[key].Int? then Some(cfg[key].n) else None
  }

  function GetText(cfg: Configuration, key: string): Option<string>
  {
    if key in cfg && cfg[key].Text? then Some(cfg[key].s) else None
  }

  function GetTexts(cfg: Configuration, key: string): Option<seq<string>>
  {
    if key in cfg && cfg[key].Texts? then Some(cfg[key].items) else None
  }

  /** The typed view of a configuration: present exactly when every key the
      poller and the sender read holds a value of the template's shape. */
  function ReadSettings(cfg: Configuration): (r: Option<Settings>)
    ensures r.Some? <==>
      && "MSG_FORMAT" in cfg && cfg["MSG_FORMAT"].Text?
      && "MAX_STORIES" in cfg && cfg["MAX_STORIES"].Int?
      && "MAX_LINK_LENGTH" in cfg && cfg["MAX_LINK_LENGTH"].Int?
      && "ENTRY_CACHE_SIZE" in cfg && cfg["ENTRY_CACHE_SIZE"].Int?
      && "FEEDS" in cfg && cfg["FEEDS"].Texts?
      && "CHANNELS" in cfg && cfg["CHANNELS"].Texts?
    ensures r.Some? ==>
      && Text(r.value.msgFormat) == cfg["MSG_FORMAT"]
      && Int(r.value.maxStories) == cfg["MAX_STORIES"]
      && Int(r.value.maxLinkLength) == cfg["MAX_LINK_LENGTH"]
      && Int(r.value.entryCacheSize) == cfg["ENTRY_CACHE_SIZE"]
      && Texts(r.value.feeds) == cfg["FEEDS"]
      && Texts(r.value.channels) == cfg["CHANNELS"]
  {
    var fmt := GetText(cfg, "MSG_FORMAT");
    var stories := GetInt(cfg, "MAX_STORIES");
    var linkLength := GetInt(cfg, "MAX_LINK_LENGTH");
    var cacheSize := GetInt(cfg, "ENTRY_CACHE_SIZE");
    var feeds := GetTexts(cfg, "FEEDS");
    var channels := GetTexts(cfg, "CHANNELS");
    if fmt.Some? && stories.Some? && linkLength.Some? && cacheSize.Some? && feeds.Some? && channels.Some? then
      Some(Settings(fmt.value, stories.value, linkLength.value, cacheSize.value, feeds.value, channels.value))
    else
      None
  }

  /** Every key the poller reads that the user configures holds a value of
      the template's shape. */
  predicate WellShaped(c: Configuration)
  {
    && ("MSG_FORMAT" in c ==> c["MSG_FORMAT"].Text?)
    && ("MAX_STORIES" in c ==> c["MAX_STORIES"].Int?)
    && ("MAX_LINK_LENGTH" in c ==> c["MAX_LINK_LENGTH"].Int?)
    && ("ENTRY_CACHE_SIZE" in c ==> c["ENTRY_CACHE_SIZE"].Int?)
    && ("FEEDS" in c ==> c["FEEDS"].Texts?)
    && ("CHANNELS" in c ==> c["CHANNELS"].Texts?)
  }

  /** Each key the poller reads holds, after the merge, the user's value when
      given and the template's otherwise. */
  lemma MergedReadKeys(c: Configuration)
    ensures var cfg := Configure(Some(c));
      && "MSG_FORMAT" in cfg && cfg["MSG_FORMAT"] == (if "MSG_FORMAT" in c then c["MSG_FORMAT"] else Text(DefaultFormat))
      && "MAX_STORIES" in cfg && cfg["MAX_STORIES"] == (if "MAX_STORIES" in c then c["MAX_STORIES"] else Int(5))
      && "MAX_LINK_LENGTH" in cfg
      && cfg["MAX_LINK_LENGTH"] == (if "MAX_LINK_LENGTH" in c then c["MAX_LINK_LENGTH"] else Int(50))
      && "ENTRY_CACHE_SIZE" in cfg
      && cfg["ENTRY_CACHE_SIZE"] == (if "ENTRY_CACHE_SIZE" in c then c["ENTRY_CACHE_SIZE"] else Int(100))
      && "FEEDS" in cfg && cfg["FEEDS"] == (if "FEEDS" in c then c["FEEDS"] else Texts([]))
      && "CHANNELS" in cfg && cfg["CHANNELS"] == (if "CHANNELS" in c then c["CHANNELS"] else Texts([]))
  {
  }

  /** For every user configuration, the merged configuration can be read
      exactly when the user's values for the keys the poller reads have the
      template's shape. */
  lemma ConfiguredSettingsReadable(c: Configuration)
    ensures ReadSettings(Configure(Some(c))).Some? <==> WellShaped(c)
  {
    MergedReadKeys(c);
  }

  /** For every well-shaped user configuration, each setting is the user's
      value when given and the template's otherwise. */
  lemma ConfiguredSettings(c: Configuration)
    requires WellShaped(c)
    ensures ReadSettings(Configure(Some(c))) == Some(Settings(
      if "MSG_FORMAT" in c then c["MSG_FORMAT"].s else DefaultFormat,
      if "MAX_STORIES" in c then c["MAX_STORIES"].n else 5,
      if "MAX_LINK_LENGTH" in c then c["MAX_LINK_LENGTH"].n else 50,
      if "ENTRY_CACHE_SIZE" in c then c["ENTRY_CACHE_SIZE"].n else 100,
      if "FEEDS" in c then c["FEEDS"].items else [],
      if "CHANNELS" in c then c["CHANNELS"].items else []))
  {
    MergedReadKeys(c);
    ConfiguredSettingsReadable(c);
  }

  const DefaultSettings: Settings := Settings(DefaultFormat, 5, 50, 100, [], [])

  /** With no user configuration the plugin runs on the template's defaults:
      five stories per feed, links shortened above 50 characters, 100 hashes
      of history, no feeds and no channels. */
  lemma UnconfiguredDefaults()
    ensures ReadSettings(Configure(None)) == Some(DefaultSettings)
    ensures ReadSettings(Configure(Some(map[]))) == Some(DefaultSettings)
  {
  }

  /** A configuration that names only the feeds and the channels keeps every
      other default of the template. */
  lemma OverrideFeedsAndChannels(feeds: seq<string>, channels: seq<string>)
    ensures ReadSettings(Configure(Some(map["FEEDS" := Texts(feeds), "CHANNELS" := Texts(channels)])))
         == Some(DefaultSettings.(feeds := feeds, channels := channels))
  {
    var given := map["FEEDS" := Texts(feeds), "CHANNELS" := Texts(channels)];
    assert WellShaped(given);
    ConfiguredSettings(given);
  }
}
