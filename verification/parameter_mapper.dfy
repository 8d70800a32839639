/** The per-model parameter mapping: CalcsLive symbols mapped to CAD
    parameter names (or to nothing, for outputs), the file it is stored in,
    and the calculation inputs it selects. Reading and writing the file are
    left out. */
module ParameterMapper {

  import opened Wrappers
  import opened Text
  import opened Seqs
  import opened Json

  datatype MappingConfig = MappingConfig(articleId: string, mapping: map<string, Option<string>>)

  /** The configuration used when no model path is known. */
  const DemoConfig: MappingConfig := MappingConfig("demo-cylinder-volume",
    map["r" := Some("Cylinder_Radius"), "h" := Some("Cylinder_Height"), "V" := None])

  /** `_create_default_config` (description and author fields left out). */
  const DefaultConfig: MappingConfig := MappingConfig("", map[])

  /** `load_mapping_config`: without a model path the demonstration
      configuration; otherwise the stored configuration, where `stored` is
      what reading the mapping file gave (`None` when it is missing or
      unreadable), falling back to the default one. */
  function LoadMappingConfig(modelPath: string, stored: Option<MappingConfig>): (r: MappingConfig)
    ensures modelPath == [] ==>
      && r.articleId == "demo-cylinder-volume"
      && r.mapping.Keys == {"r", "h", "V"} && r.mapping["V"].None?
    ensures modelPath != [] && stored.None? ==> r.articleId == [] && r.mapping == map[]
    ensures modelPath != [] && stored.Some? ==> r == stored.value
  {
    if modelPath == [] then DemoConfig else stored.GetOr(DefaultConfig)
  }

  /** `set_calcslive_article`: a missing configuration is first replaced by
      the default one; the mapping itself is left alone. */
  function SetCalcsLiveArticle(config: Option<MappingConfig>, articleId: string): (r: MappingConfig)
    ensures r.articleId == articleId
    ensures r.mapping == config.GetOr(DefaultConfig).mapping
  {
    config.GetOr(DefaultConfig).(articleId := articleId)
  }

  /** `add_mapping`: a missing configuration is first replaced by the
      default one. */
  function AddMapping(config: Option<MappingConfig>, symbol: string, parameter: Option<string>): (r: MappingConfig)
    ensures symbol in r.mapping && r.mapping[symbol] == parameter
    ensures var base := config.GetOr(DefaultConfig);
      && r.articleId == base.articleId
      && r.mapping.Keys == base.mapping.Keys + {symbol}
      && forall s :: s in base.mapping && s != symbol ==> r.mapping[s] == base.mapping[s]
  {
    var base := config.GetOr(DefaultConfig);
    base.(mapping := base.mapping[symbol := parameter])
  }

  /** `remove_mapping`: nothing happens without a configuration or without
      the symbol. */
  function RemoveMapping(config: Option<MappingConfig>, symbol: string): (r: Option<MappingConfig>)
    ensures config.None? ==> r.None?
    ensures config.Some? ==>
      && r.Some? && r.value.articleId == config.value.articleId
      && symbol !in r.value.mapping
      && r.value.mapping.Keys == config.value.mapping.Keys - {symbol}
      && forall s :: s in r.value.mapping ==> r.value.mapping[s] == config.value.mapping[s]
    ensures config.Some? && symbol !in config.value.mapping ==> r == config
  {
    match config
    case None => None
    case Some(c) =>
      if symbol in c.mapping then Some(c.(mapping := c.mapping - {symbol})) else config
  }

  /** Adding and then removing a new symbol restores the mapping. */
  lemma AddThenRemove(c: MappingConfig, symbol: string, parameter: Option<string>)
    requires symbol !in c.mapping
    ensures RemoveMapping(Some(AddMapping(Some(c), symbol, parameter)), symbol) == Some(c)
  {
    assert AddMapping(Some(c), symbol, parameter).mapping - {symbol} == c.mapping;
  }

  // ---------------------------------------------------------------------
  // Calculation inputs

  /** The fields of an extracted parameter the inputs use. */
  datatype FcParam = FcParam(symbol: string, value: Json, calcsliveUnit: Json)

  datatype Input = Input(value: Json, unit: Json)

  /** `{param["symbol"]: param for param in freecad_parameters}`. */
  function ParamLookup(params: seq<FcParam>): (m: map<string, FcParam>)
    ensures forall name :: name in m <==> exists i :: 0 <= i < |params| && params[i].symbol == name
  {
    var entries := SymbolEntries(params);
    assert forall name :: name in Keys(entries) <==> exists i :: 0 <= i < |params| && params[i].symbol == name by {
      forall name ensures name in Keys(entries) <==> exists i :: 0 <= i < |params| && params[i].symbol == name {
        if name in Keys(entries) {
          var i :| 0 <= i < |Keys(entries)| && Keys(entries)[i] == name;
          assert params[i].symbol == name;
        }
        if exists i :: 0 <= i < |params| && params[i].symbol == name {
          var i :| 0 <= i < |params| && params[i].symbol == name;
          assert Keys(entries)[i] == name;
        }
      }
    }
    ToMap(entries)
  }

  function SymbolEntries(params: seq<FcParam>): (r: seq<(string, FcParam)>)
    ensures |r| == |params| && forall i :: 0 <= i < |r| ==> r[i] == (params[i].symbol, params[i])
  {
    if params == [] then [] else [(params[0].symbol, params[0])] + SymbolEntries(params[1..])
  }

  /** Whether `symbol` is mapped to a parameter that is present. */
  predicate Feeds(mapping: map<string, Option<string>>, lookup: map<string, FcParam>, symbol: string) {
    symbol in mapping && mapping[symbol].Some? && mapping[symbol].value in lookup
  }

  /** `get_calcslive_inputs`. */
  function GetCalcsLiveInputs(config: Option<MappingConfig>, params: seq<FcParam>): (r: map<string, Input>)
    ensures config.None? || config.value.mapping == map[] ==> r == map[]
    ensures config.Some? ==> forall s :: s in r <==> Feeds(config.value.mapping, ParamLookup(params), s)
    ensures config.Some? ==> forall s :: s in r ==>
      && Feeds(config.value.mapping, ParamLookup(params), s)
      && r[s] == Input(ParamLookup(params)[config.value.mapping[s].value].value,
                       ParamLookup(params)[config.value.mapping[s].value].calcsliveUnit)
  {
    match config
    case None => map[]
    case Some(c) =>
      if c.mapping == map[] then map[]
      else
        var lookup := ParamLookup(params);
        map s | s in c.mapping && Feeds(c.mapping, lookup, s) ::
          Input(lookup[c.mapping[s].value].value, lookup[c.mapping[s].value].calcsliveUnit)
  }

  /** A symbol mapped to nothing is an output and never an input. */
  lemma OutputsAreNotInputs(c: MappingConfig, params: seq<FcParam>, symbol: string)
    requires symbol in c.mapping && c.mapping[symbol].None?
    ensures symbol !in GetCalcsLiveInputs(Some(c), params)
  {}

  /** When several parameters carry the mapped name, the last one supplies
      the input. */
  lemma InputFromLastParameter(c: MappingConfig, params: seq<FcParam>, symbol: string, i: int)
    requires 0 <= i < |params| && symbol in c.mapping && c.mapping[symbol] == Some(params[i].symbol)
    requires forall j :: i < j < |params| ==> params[j].symbol != params[i].symbol
    ensures symbol in GetCalcsLiveInputs(Some(c), params)
    ensures GetCalcsLiveInputs(Some(c), params)[symbol] == Input(params[i].value, params[i].calcsliveUnit)
  {
    var entries := SymbolEntries(params);
    assert IsLastKey(entries, i, entries[i].0);
    ToMapLastWins(entries, i);
    assert ParamLookup(params)[params[i].symbol] == params[i];
  }

  /** Without a model path only `r` and `h` can be inputs, fed from the
      cylinder's radius and height; the volume `V` is an output. */
  lemma DemoInputs(stored: Option<MappingConfig>, params: seq<FcParam>)
    ensures var inputs := GetCalcsLiveInputs(Some(LoadMappingConfig([], stored)), params);
      && "V" !in inputs
      && (forall s :: s in inputs ==> s == "r" || s == "h")
      && ("r" in inputs <==> "Cylinder_Radius" in ParamLookup(params))
  {
    var c := LoadMappingConfig([], stored);
    OutputsAreNotInputs(c, params, "V");
  }

  // ---------------------------------------------------------------------
  // Mapping file path

  /** `os.path.basename` (POSIX): the text after the last `/`. */
  function BaseName(path: string): (r: string)
    ensures IsSuffix(r, path) && '/' !in r
  {
    AfterLast(path, '/')
  }

  predicate AllSlashes(s: string) {
    forall i :: 0 <= i < |s| ==> s[i] == '/'
  }

  /** `os.path.dirname` (POSIX): everything up to the last `/`, with trailing
      slashes removed unless it is all slashes. */
  function DirName(path: string): (r: string)
    ensures IsPrefix(r, path)
  {
    var head := path[..|path| - |BaseName(path)|];
    if head != [] && !AllSlashes(head) then RStripChar(head, '/') else head
  }

  /** `os.path.splitext(name)[0]` for a name without `/`: the name up to its
      last `.`, unless only dots precede that `.`. */
  function Stem(name: string): (r: string)
    ensures IsPrefix(r, name)
  {
    if '.' in name then
      var ext := AfterLast(name, '.');
      var root := name[..|name| - |ext| - 1];
      if exists i :: 0 <= i < |root| && root[i] != '.' then root else name
    else name
  }

  /** `os.path.join(a, b)` (POSIX) for a `b` that does not start with `/`. */
  function JoinPath(a: string, b: string): (r: string)
    ensures IsSuffix(b, r)
  {
    if a == [] || a[|a| - 1] == '/' then a + b else a + "/" + b
  }

  const MappingSuffix: string := "_calcslive_mapping.json"

  /** `_get_config_path`. */
  function ConfigPath(modelPath: Option<string>): (r: Option<string>)
    ensures r.None? <==> modelPath.None? || modelPath.value == []
    ensures r.Some? ==> IsSuffix(MappingSuffix, r.value)
  {
    match modelPath
    case None => None
    case Some(p) =>
      if p == [] then None
      else
        var name := Stem(BaseName(p)) + MappingSuffix;
        var r := JoinPath(DirName(p), name);
        assert IsSuffix(MappingSuffix, r) by {
          SuffixOfConcat(Stem(BaseName(p)), MappingSuffix);
          SuffixOfSuffix(MappingSuffix, name, r);
        }
        Some(r)
  }

  /** The directory and file name of `dir/name`. */
  lemma SplitModelPath(dir: string, name: string)
    requires dir != [] && dir[|dir| - 1] != '/' && '/' !in name
    ensures BaseName(dir + "/" + name) == name
    ensures DirName(dir + "/" + name) == dir
  {
    var p := dir + "/" + name;
    assert p == dir + ['/'] + name;
    AfterLastConcat(dir, '/', name);
    var head := p[..|p| - |name|];
    assert head == dir + "/";
    assert !AllSlashes(head) by {
      assert head[|dir| - 1] != '/';
    }
    assert head[..|head| - 1] == dir;
  }

  /** The stem of `stem.ext`. */
  lemma StemOfName(stem: string, ext: string)
    requires stem != [] && stem[0] != '.' && '.' !in ext
    ensures Stem(stem + "." + ext) == stem
  {
    var name := stem + "." + ext;
    assert name == stem + ['.'] + ext;
    assert name[|stem|] == '.';
    AfterLastConcat(stem, '.', ext);
    assert '.' in name;
    assert AfterLast(name, '.') == ext;
    var root := name[..|name| - |AfterLast(name, '.')| - 1];
    assert root == stem;
    assert root[0] != '.';
    assert exists i :: 0 <= i < |root| && root[i] != '.';
    assert Stem(name) == root;
  }

  /** A model file `dir/stem.ext` keeps its mapping in
      `dir/stem_calcslive_mapping.json`. */
  lemma ConfigPathOfModel(dir: string, stem: string, ext: string)
    requires dir != [] && dir[|dir| - 1] != '/'
    requires stem != [] && stem[0] != '.' && '/' !in stem
    requires '/' !in ext && '.' !in ext
    ensures ConfigPath(Some(dir + "/" + stem + "." + ext)) == Some(dir + "/" + stem + MappingSuffix)
  {
    var name := stem + "." + ext;
    var p := dir + "/" + stem + "." + ext;
    assert p == dir + "/" + name;
    assert '/' !in name;
    SplitModelPath(dir, name);
    StemOfName(stem, ext);
    JoinAfterDir(dir, stem);
  }

  lemma JoinAfterDir(dir: string, stem: string)
    requires dir != [] && dir[|dir| - 1] != '/'
    ensures JoinPath(dir, stem + MappingSuffix) == dir + "/" + stem + MappingSuffix
  {}
}
