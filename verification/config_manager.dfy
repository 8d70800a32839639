/** The configuration store: settings grouped in sections of a JSON object,
    the recently used articles, per-article parameter mappings, and the
    recursive merge used when importing a configuration. Writing the file
    is left out; every setter here returns the new configuration. */
module ConfigManager {

  import opened Wrappers
  import opened Text
  import opened Seqs
  import opened Json

  type Config = map<string, Json>

  /** Why an access fails: the named entry is not a JSON object, so Python's
      `.get`, item assignment or `del` on it raises. */
  datatype ConfigError = NotAnObject(entry: string)

  const DefaultBaseUrl: string := "https://www.calcs.live"
  const DefaultTimeout: int := 30
  const MinTimeout: int := 5
  const MaxTimeout: int := 300
  const MinAutoSyncInterval: int := 1
  const MaxAutoSyncInterval: int := 3600
  const MaxRecentArticles: nat := 10

  const ApiSettings: string := "api_settings"
  const SyncSettings: string := "sync_settings"
  const ParameterMappings: string := "parameter_mappings"

  /** `max(lo, min(hi, x))`. */
  function Clamp(lo: int, hi: int, x: int): (r: int)
    requires lo <= hi
    ensures lo <= r <= hi
    ensures lo <= x <= hi ==> r == x
    ensures x < lo ==> r == lo
    ensures x > hi ==> r == hi
  {
    Max(lo, Min(hi, x))
  }

  // ---------------------------------------------------------------------
  // Settings sections

  /** `config.get(section, {}).get(key, default)`. */
  function GetSetting(cfg: Config, section: string, key: string, default: Json): (r: Result<Json, ConfigError>)
    ensures section !in cfg ==> r == Ok(default)
    ensures section in cfg && cfg[section].JObj? ==>
      r == Ok(if key in cfg[section].fields then cfg[section].fields[key] else default)
    ensures section in cfg && !cfg[section].JObj? ==> r.Err?
  {
    if section !in cfg then Ok(default)
    else match cfg[section]
      case JObj(fields) => Ok(if key in fields then fields[key] else default)
      case _ => Err(NotAnObject(section))
  }

  /** `config.setdefault(section, {})[key] = value`. */
  function SetSetting(cfg: Config, section: string, key: string, value: Json): (r: Result<Config, ConfigError>)
    ensures r.Ok? <==> section !in cfg || cfg[section].JObj?
    ensures r.Ok? ==> GetSetting(r.value, section, key, JNull) == Ok(value)
    ensures r.Ok? ==> r.value.Keys == cfg.Keys + {section}
    ensures r.Ok? ==> forall s :: s in cfg && s != section ==> r.value[s] == cfg[s]
    ensures r.Ok? ==> forall k :: k != key ==>
      (k in r.value[section].fields <==> section in cfg && k in cfg[section].fields)
      && (k in r.value[section].fields ==> r.value[section].fields[k] == cfg[section].fields[k])
  {
    var fields := if section in cfg then cfg[section] else EmptyObject;
    match fields
    case JObj(f) => Ok(cfg[section := JObj(f[key := value])])
    case _ => Err(NotAnObject(section))
  }

  function GetBaseUrl(cfg: Config): Result<Json, ConfigError> {
    GetSetting(cfg, ApiSettings, "base_url", JStr(DefaultBaseUrl))
  }

  /** `set_base_url`: the URL is stored without trailing slashes. */
  function SetBaseUrl(cfg: Config, url: string): (r: Result<Config, ConfigError>)
    ensures r.Ok? ==> GetBaseUrl(r.value) == Ok(JStr(RStripChar(url, '/')))
    ensures r.Ok? ==> var s := RStripChar(url, '/'); s == [] || s[|s| - 1] != '/'
    ensures r.Ok? <==> ApiSettings !in cfg || cfg[ApiSettings].JObj?
  {
    SetSetting(cfg, ApiSettings, "base_url", JStr(RStripChar(url, '/')))
  }

  /** Without a stored URL the default is reported. */
  lemma BaseUrlDefault(cfg: Config)
    requires ApiSettings !in cfg || (cfg[ApiSettings].JObj? && "base_url" !in cfg[ApiSettings].fields)
    ensures GetBaseUrl(cfg) == Ok(JStr("https://www.calcs.live"))
  {}

  function GetTimeout(cfg: Config): Result<Json, ConfigError> {
    GetSetting(cfg, ApiSettings, "timeout", JInt(DefaultTimeout))
  }

  /** `set_timeout`: the value is clamped to [5, 300] seconds. */
  function SetTimeout(cfg: Config, timeout: int): (r: Result<Config, ConfigError>)
    ensures r.Ok? ==> GetTimeout(r.value) == Ok(JInt(Clamp(MinTimeout, MaxTimeout, timeout)))
    ensures r.Ok? && MinTimeout <= timeout <= MaxTimeout ==> GetTimeout(r.value) == Ok(JInt(timeout))
    ensures r.Ok? <==> ApiSettings !in cfg || cfg[ApiSettings].JObj?
  {
    SetSetting(cfg, ApiSettings, "timeout", JInt(Clamp(MinTimeout, MaxTimeout, timeout)))
  }

  function GetAutoSyncInterval(cfg: Config): Result<Json, ConfigError> {
    GetSetting(cfg, SyncSettings, "auto_sync_interval", JInt(5))
  }

  /** `set_auto_sync_interval`: the value is clamped to [1, 3600] seconds. */
  function SetAutoSyncInterval(cfg: Config, interval: int): (r: Result<Config, ConfigError>)
    ensures r.Ok? ==> GetAutoSyncInterval(r.value) == Ok(JInt(Clamp(MinAutoSyncInterval, MaxAutoSyncInterval, interval)))
    ensures r.Ok? && MinAutoSyncInterval <= interval <= MaxAutoSyncInterval ==>
      GetAutoSyncInterval(r.value) == Ok(JInt(interval))
    ensures r.Ok? <==> SyncSettings !in cfg || cfg[SyncSettings].JObj?
  {
    SetSetting(cfg, SyncSettings, "auto_sync_interval", JInt(Clamp(MinAutoSyncInterval, MaxAutoSyncInterval, interval)))
  }

  /** Setting the timeout leaves the base URL (and every other setting) alone. */
  lemma SetTimeoutKeepsBaseUrl(cfg: Config, timeout: int)
    requires SetTimeout(cfg, timeout).Ok?
    ensures GetBaseUrl(SetTimeout(cfg, timeout).value) == GetBaseUrl(cfg)
  {}

  // ---------------------------------------------------------------------
  // Recent articles

  datatype Article = Article(id: string, title: string, lastUsed: int)

  function Ids(articles: seq<Article>): (r: seq<string>)
    ensures |r| == |articles| && forall i :: 0 <= i < |r| ==> r[i] == articles[i].id
  {
    if articles == [] then [] else [articles[0].id] + Ids(articles[1..])
  }

  /** The articles whose id is not `id`, in order. */
  function WithoutId(articles: seq<Article>, id: string): (r: seq<Article>)
    ensures |r| <= |articles|
    ensures forall a :: a in r <==> a in articles && a.id != id
  {
    if articles == [] then []
    else (if articles[0].id != id then [articles[0]] else []) + WithoutId(articles[1..], id)
  }

  /** `add_recent_article`: earlier entries for the article are dropped, the
      article goes to the front (its title defaulting to its id), and the
      list is cut to ten. An absent list counts as empty. */
  function AddRecentArticle(recent: Option<seq<Article>>, id: string, title: string, now: int)
    : (r: seq<Article>)
    ensures 1 <= |r| <= MaxRecentArticles
    ensures r[0] == Article(id, if title == [] then id else title, now)
    ensures Count(Ids(r), id) == 1
    ensures r[1..] == Take(WithoutId(recent.GetOr([]), id), MaxRecentArticles - 1)
  {
    var kept := WithoutId(recent.GetOr([]), id);
    var r := Take([Article(id, if title == [] then id else title, now)] + kept, MaxRecentArticles);
    assert r[1..] == Take(kept, MaxRecentArticles - 1);
    IdAbsent(r[1..], id);
    assert Ids(r) == [id] + Ids(r[1..]);
    r
  }

  lemma IdAbsent(articles: seq<Article>, id: string)
    requires forall a :: a in articles ==> a.id != id
    ensures Count(Ids(articles), id) == 0
  {
  }

  /** `remove_recent_article`: no entry for the article is left and the
      others keep their order; an absent list stays absent. */
  function RemoveRecentArticle(recent: Option<seq<Article>>, id: string): (r: Option<seq<Article>>)
    ensures recent.None? <==> r.None?
    ensures r.Some? ==> r.value == WithoutId(recent.value, id) && id !in Ids(r.value)
  {
    match recent
    case None => None
    case Some(list) =>
      var kept := WithoutId(list, id);
      assert id !in Ids(kept) by { IdAbsent(kept, id); }
      Some(kept)
  }

  /** Adding and then removing an article leaves the other articles as they
      were, except that adding may have pushed the oldest one out. */
  lemma AddThenRemove(recent: seq<Article>, id: string, title: string, now: int)
    ensures RemoveRecentArticle(Some(AddRecentArticle(Some(recent), id, title, now)), id)
         == Some(Take(WithoutId(recent, id), MaxRecentArticles - 1))
  {
    var r := AddRecentArticle(Some(recent), id, title, now);
    var kept := Take(WithoutId(recent, id), MaxRecentArticles - 1);
    assert r == [r[0]] + kept;
    assert WithoutId(r, id) == WithoutId(kept, id);
    WithoutIdNoop(kept, id);
  }

  lemma {:induction false} WithoutIdNoop(articles: seq<Article>, id: string)
    requires forall a :: a in articles ==> a.id != id
    ensures WithoutId(articles, id) == articles
  {
    if articles != [] {
      assert articles[0] in articles;
      WithoutIdNoop(articles[1..], id);
    }
  }

  // ---------------------------------------------------------------------
  // Parameter mappings per article

  /** `config.get('parameter_mappings', {}).get(article_id, {})`. */
  function GetParameterMapping(cfg: Config, articleId: string): Result<Json, ConfigError> {
    GetSetting(cfg, ParameterMappings, articleId, EmptyObject)
  }

  /** `save_parameter_mapping`. */
  function SaveParameterMapping(cfg: Config, articleId: string, mapping: Json): (r: Result<Config, ConfigError>)
    ensures r.Ok? <==> ParameterMappings !in cfg || cfg[ParameterMappings].JObj?
  {
    SetSetting(cfg, ParameterMappings, articleId, mapping)
  }

  /** `remove_parameter_mapping`. Python's `in` works on strings (substring)
      and lists (membership) as well as dicts, so a malformed section only
      raises when the id is "in" it and `del` is then attempted, or when it
      supports no `in` at all. */
  function RemoveParameterMapping(cfg: Config, articleId: string): (r: Result<Config, ConfigError>)
    ensures ParameterMappings !in cfg ==> r == Ok(cfg)
    ensures r.Ok? && ParameterMappings in cfg ==>
      r.value.Keys == cfg.Keys
      && forall s :: s in cfg && s != ParameterMappings ==> r.value[s] == cfg[s]
    ensures ParameterMappings in cfg && cfg[ParameterMappings].JObj? ==>
      r.Ok? && r.value[ParameterMappings].JObj? && r.value[ParameterMappings].fields == cfg[ParameterMappings].fields - {articleId}
  {
    if ParameterMappings !in cfg then Ok(cfg)
    else match cfg[ParameterMappings]
      case JObj(f) => Ok(cfg[ParameterMappings := JObj(f - {articleId})])
      case JStr(s) => if Contains(s, articleId) then Err(NotAnObject(ParameterMappings)) else Ok(cfg)
      case JArr(items) => if JStr(articleId) in items then Err(NotAnObject(ParameterMappings)) else Ok(cfg)
      case _ => Err(NotAnObject(ParameterMappings))
  }

  /** Parameter mappings behave as a map from article to mapping: a get after
      a save returns what was saved, and other articles are untouched. */
  lemma SaveThenGet(cfg: Config, articleId: string, other: string, mapping: Json)
    requires SaveParameterMapping(cfg, articleId, mapping).Ok?
    requires other != articleId
    ensures GetParameterMapping(SaveParameterMapping(cfg, articleId, mapping).value, articleId) == Ok(mapping)
    ensures GetParameterMapping(SaveParameterMapping(cfg, articleId, mapping).value, other)
         == GetParameterMapping(cfg, other)
  {}

  /** After a successful remove the article's mapping reads as `{}`, and
      other articles are untouched. */
  lemma RemoveThenGet(cfg: Config, articleId: string, other: string)
    requires RemoveParameterMapping(cfg, articleId).Ok?
    requires ParameterMappings !in cfg || cfg[ParameterMappings].JObj?
    requires other != articleId
    ensures GetParameterMapping(RemoveParameterMapping(cfg, articleId).value, articleId) == Ok(EmptyObject)
    ensures GetParameterMapping(RemoveParameterMapping(cfg, articleId).value, other)
         == GetParameterMapping(cfg, other)
  {}

  // ---------------------------------------------------------------------
  // Recursive merge

  /** `_merge_config(base, overlay)`, returning the merged `base`. */
  function Merge(base: map<string, Json>, overlay: map<string, Json>): (r: map<string, Json>)
    ensures r.Keys == base.Keys + overlay.Keys
    ensures forall k :: k in base && k !in overlay ==> r[k] == base[k]
    ensures forall k :: k in overlay && !(k in base && base[k].JObj? && overlay[k].JObj?) ==> r[k] == overlay[k]
    ensures forall k :: k in overlay && k in base && base[k].JObj? && overlay[k].JObj? ==>
      r[k].JObj? && r[k].fields.Keys == base[k].fields.Keys + overlay[k].fields.Keys
    ensures forall k :: k in overlay && k in base && base[k].JObj? && overlay[k].JObj? ==>
      r[k] == JObj(Merge(base[k].fields, overlay[k].fields))
    decreases JObj(overlay)
  {
    map k | k in base.Keys + overlay.Keys ::
      if k in overlay then
        (if k in base && base[k].JObj? && overlay[k].JObj? then JObj(Merge(base[k].fields, overlay[k].fields))
         else overlay[k])
      else base[k]
  }

  /** Merging a configuration into itself changes nothing. */
  lemma MergeIdempotent(m: map<string, Json>)
    ensures Merge(m, m) == m
    decreases JObj(m)
  {
    forall k | k in m ensures Merge(m, m)[k] == m[k] {
      if m[k].JObj? {
        MergeIdempotent(m[k].fields);
      }
    }
  }

  /** Merging nothing into a base, or anything into nothing, is the identity. */
  lemma MergeUnits(m: map<string, Json>)
    ensures Merge(m, map[]) == m
    ensures Merge(map[], m) == m
  {}
}
