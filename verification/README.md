# CalcsLive plug for FreeCAD — a Dafny model of its host-independent core

The CalcsLive plug connects FreeCAD models to CalcsLive calculation articles.
FreeCAD is a parametric CAD system; a CalcsLive article is a web calculation
with named physical-quantity inputs and outputs. Parameters are read from the
model, for example from a `PQs` variable set. They are sent to an article
under their symbols, and the computed outputs are written back to the model.

Most of the plug is glue around the CAD host and the network. This project
models the parts that are pure transformations of text, sequences and maps:

- parameter naming and unit strings: sanitising names, unit notation in both
  directions, and the property-type tables with their clean-type filter;
- symbol matching: tiered name matching, common prefix and suffix, symbol
  generation, and symbol-to-input mapping;
- bounded lists and state records: recent articles, sync and error history,
  clamped settings, the recursive configuration merge, and the browser
  preference list;
- step and retry policies: the sync pipeline, the HTTP retry loop, and the
  auto-sync consecutive-error counter;
- the plug server's data shaping: the export records, the `Obj:Label/Prop`
  write paths, the expression guard, the clean-units list, and endpoint routing.

Everything the host would answer is a parameter of the model. This covers
document objects, `schemaTranslate`, `float()`, `urlopen`, launching a browser
and saving a file. The parameters are functions, or values standing for what
the call returned.

Each source file is one module. Text, Seqs, Json and Wrappers are shared
helpers that carry Python's semantics for strings, slices, dicts and JSON
values.

- Python dicts whose iteration order matters are association lists with
  distinct keys: first-wins lookup, last-wins conversion to a map.
- Dicts whose order does not matter are Dafny maps.

The repository carries some definitions twice, identical in code; only
their comments differ. Each is modelled once:

- `generate_symbol` (CalcsLiveTools.py:242-267 and 375-396);
- `extract_unit_symbol` (CalcsLiveTools.py:96-124 and 273-301);
- `_get_current_model_id` (v0/commands/ConnectCommand.py and
  v0/commands/DashboardCommand.py).

## Model

| member | source | states |
|---|---|---|
| BrowserLauncher.FreshLauncherOrder | v0/utils/BrowserLauncher.py:24-75 | a fresh launcher without an explicit browser uses chrome when it launches, firefox when only that of the two launches, and every browser of any platform list is one `_open_with_browser` knows |
| BrowserLauncher.RemoveFirst | v0/utils/BrowserLauncher.py:256-257 | `list.remove` of a present browser shortens the list by exactly one |
| BrowserLauncher.FirstAt | v0/utils/BrowserLauncher.py:256-257 | the position `list.remove` acts on: it holds the browser and no earlier position does |
| BrowserLauncher.RemoveFirstCuts | v0/utils/BrowserLauncher.py:256-257 | removing a browser cuts out exactly its first occurrence and keeps everything else in order |
| BrowserLauncher.SetPreferredBrowser | v0/utils/BrowserLauncher.py:253-259 | the browser ends up at the front; a listed browser keeps the length and the others keep their relative order, an unlisted one is prepended to the unchanged list |
| BrowserLauncher.SetPreferredIsPermutation | v0/utils/BrowserLauncher.py:253-259 | preferring an already listed browser only reorders the list (same multiset) |
| BrowserLauncher.SetPreferredIdempotent | v0/utils/BrowserLauncher.py:253-259 | preferring the same browser twice is the same as once |
| BrowserLauncher.OpenWithBrowser | v0/utils/BrowserLauncher.py:77-116 | launching can only succeed for one of the seven known browser names, compared after lower-casing |
| BrowserLauncher.TryInOrder | v0/utils/BrowserLauncher.py:43-56 | the first candidate that launches is used and all earlier ones failed; the system default is reached exactly when every candidate fails, and then decides the outcome |
| BrowserLauncher.OpenUrl | v0/utils/BrowserLauncher.py:29-60 | `open_url` tries the explicit browser (when given) and then the preference list in order, falling back to the system default only when none launches |
| BrowserLauncher.OpenUrlSucceeds | v0/utils/BrowserLauncher.py:29-60 | `open_url` reports success iff some candidate launches or the system default opens the page, and an explicit browser that launches is always the one used |
| CalcsLiveClient.NewClient | v0/core/CalcsLiveClient.py:23-32 | the stored base URL is the given URL minus its trailing slashes: a prefix of it, not ending in `/`, with only slashes cut |
| CalcsLiveClient.NewClientKeepsCleanUrl | v0/core/CalcsLiveClient.py:31-32 | a base URL without a trailing slash is stored unchanged |
| CalcsLiveClient.EndpointUrl | v0/core/CalcsLiveClient.py:35-40 | every endpoint is the base URL followed by a path starting with `/` |
| CalcsLiveClient.EndpointsBelowBase | v0/core/CalcsLiveClient.py:23-40 | every endpoint of a new client lies below the stripped base URL, and below the given URL when it had no trailing slash |
| CalcsLiveClient.Param | v0/core/CalcsLiveClient.py:184-188 | an optional parameter enters the query exactly when its value is truthy (present and non-empty) |
| CalcsLiveClient.ConnectUrl | v0/core/CalcsLiveClient.py:172-193 | the connect URL extends the connect endpoint; it is the bare endpoint iff neither API key nor model id is given, else the endpoint, `?`, and the encoded `apiKey`/`modelId` pairs in that order |
| CalcsLiveClient.DashboardUrl | v0/core/CalcsLiveClient.py:195-215 | the dashboard URL is `<base>/freecad/<article>/dashboard`, followed by `?` and the encoded model id only when one is given |
| CalcsLiveClient.ValidateUrl | v0/core/CalcsLiveClient.py:159-163 | the connection test URL always carries a query after the validate endpoint, since the article id is always a parameter |
| CalcsLiveClient.AttemptBound | v0/core/CalcsLiveClient.py:234-239 | without a retry count four attempts are allowed; with `n >= 0` retries, `n + 1` |
| CalcsLiveClient.MakeRequest | v0/core/CalcsLiveClient.py:217-277 | at most `retries + 1` attempts; every attempt before the last neither answered nor hit a non-retryable error; success iff the last attempt answered, returning its body; failure only after all attempts or a client error below 500 or bad JSON, with the message naming the attempt count and the last error; waits of 1, 2, 3 ... seconds between attempts |
| CalcsLiveClient.TestConnection | v0/core/CalcsLiveClient.py:148-170 | at most two attempts; true iff some attempt answered; a first answer ends it at once; a retryable first failure that is not followed by an answer costs both attempts |
| CalcsLiveClient.ExtractOutput | v0/core/CalcsLiveClient.py:300-331 | a result without `outputs`, or whose outputs lack the symbol, gives `None`; a listed symbol gives its stored field or `None`; a listed symbol whose entry is not an object is an error |
| CalcsLiveClient.ExtractOutputValue | v0/core/CalcsLiveClient.py:300-314 | a missing `outputs` or a missing symbol gives `None` |
| CalcsLiveClient.ExtractOutputUnit | v0/core/CalcsLiveClient.py:317-331 | a missing `outputs` or a missing symbol gives `None` |
| CalcsLiveClient.ExtractFromOutputs | v0/core/CalcsLiveClient.py:300-331 | a well-formed entry gives back exactly the value and unit it stores, and any other symbol gives `None` |
| CalcsLiveTools.FirstCaseMatch | CalcsLiveTools.py:259-262 | the case-insensitive scan stops at the first table key equal to the name ignoring case, and finds none iff no key is |
| CalcsLiveTools.MadeUpSymbol | CalcsLiveTools.py:264-267 | for a name outside the table the symbol is one character, lower-cased: the first of the name with `Constraint` and `Datum` removed and blanks stripped, else the name's own first; an empty name is the `IndexError` Python raises |
| CalcsLiveTools.SymbolFrom | CalcsLiveTools.py:230-267 | an exact key gives its symbol; otherwise the first key equal ignoring case gives its symbol; otherwise the made-up symbol; only the empty name fails |
| CalcsLiveTools.NamesDistinctIgnoringCase | CalcsLiveTools.py:242-253 | no two names of the standard table are equal ignoring case |
| CalcsLiveTools.GenerateSymbolIgnoresCase | CalcsLiveTools.py:255-262 | any spelling of a standard name, whatever its case, gets that name's symbol |
| CalcsLiveTools.CleanNameAfterConstraint | CalcsLiveTools.py:266 | removing the marker words from `Constraint<rest>` leaves `<rest>` |
| CalcsLiveTools.GenerateSymbolDropsConstraint | CalcsLiveTools.py:264-267 | an unknown name led by `Constraint` is symbolised by the first letter of what follows, in lower case |
| CalcsLiveTools.FirstRule | CalcsLiveTools.py:103-114 | the unit patterns are tried in order: the result is the symbol of the first rule whose marker and dimension both occur in the unit text, and none iff no rule matches |
| CalcsLiveTools.ExtractUnitSymbol | CalcsLiveTools.py:96-124 | a matching pattern decides the symbol; otherwise the user-preferred unit string, `unknown` when that raises, and without it the second word of the text or `unknown` |
| CalcsLiveTools.MillimetreBeforeMetre | CalcsLiveTools.py:103-108 | a millimetre length reads as `mm` although its text also matches the metre rule, because the `mm` rule comes first |
| CalcsLiveTools.PrepareApiData | CalcsLiveTools.py:398-420 | the inputs are keyed by exactly the parameters' symbols, the demo article id is used, and only `V` is requested, in `mm³` |
| CalcsLiveTools.PrepareApiDataLastWins | CalcsLiveTools.py:401-406 | when two parameters share a symbol, the input holds the value and unit of the last of them |
| ConfigManager.Clamp | core/ConfigManager.py:159 | `max(lo, min(hi, x))` lies in `[lo, hi]`, keeps an in-range value, and maps values below or above the range to its ends |
| ConfigManager.GetSetting | core/ConfigManager.py:118-120 | a missing section gives the default; a section that is an object gives the stored value or the default; a section that is not an object is the error Python raises on `.get` |
| ConfigManager.SetSetting | core/ConfigManager.py:132-135 | the section is created when missing; afterwards the key reads back as the value, no section is lost, other sections and other keys of the section are unchanged; it fails iff the section exists and is not an object |
| ConfigManager.SetBaseUrl | core/ConfigManager.py:142-148 | the base URL reads back without trailing slashes |
| ConfigManager.BaseUrlDefault | core/ConfigManager.py:138-140 | without a stored base URL the production URL is reported |
| ConfigManager.SetTimeout | core/ConfigManager.py:154-160 | the timeout reads back clamped to 5..300 seconds, and unchanged when already in range |
| ConfigManager.SetAutoSyncInterval | core/ConfigManager.py:179-185 | the interval reads back clamped to 1..3600 seconds, and unchanged when already in range |
| ConfigManager.SetTimeoutKeepsBaseUrl | core/ConfigManager.py:154-160 | setting the timeout does not change the base URL |
| ConfigManager.WithoutId | core/ConfigManager.py:254 | the filter keeps exactly the articles with a different id |
| ConfigManager.AddRecentArticle | core/ConfigManager.py:237-266 | the new entry is first, its title defaulting to the id, with the current time; the id occurs exactly once; the rest is the old list without the id, cut so that at most ten entries remain |
| ConfigManager.RemoveRecentArticle | core/ConfigManager.py:268-278 | an absent list stays absent; otherwise exactly the entries with the id are dropped, in order |
| ConfigManager.AddThenRemove | core/ConfigManager.py:237-278 | adding then removing an article gives back the other articles as before, except those pushed out by the ten-entry cut |
| ConfigManager.WithoutIdNoop | core/ConfigManager.py:273-276 | removing an id that no entry carries changes nothing |
| ConfigManager.SaveParameterMapping | core/ConfigManager.py:286-301 | saving fails only when the mappings entry exists and is not an object |
| ConfigManager.RemoveParameterMapping | core/ConfigManager.py:303-311 | without a mappings entry nothing changes; with an object entry the article's key is removed and nothing else changes; other shapes fail only where Python's `in`/`del` would raise |
| ConfigManager.SaveThenGet | core/ConfigManager.py:281-301 | a get after a save returns the saved mapping, and the mappings of other articles are unchanged |
| ConfigManager.RemoveThenGet | core/ConfigManager.py:281-311 | after a remove the article's mapping reads as `{}`, and other articles are unchanged |
| ConfigManager.Merge | core/ConfigManager.py:371-377 | the merged keys are the union; keys only in the base keep their value; overlay values win unless both sides are objects, which merge recursively |
| ConfigManager.MergeIdempotent | core/ConfigManager.py:371-377 | merging a configuration into itself gives it back |
| ConfigManager.MergeUnits | core/ConfigManager.py:371-377 | the empty overlay and the empty base are identities of the merge |
| ErrorHandler.HandleError | v0/utils/ErrorHandler.py:42-54 | the new record is last, the history grows by one up to fifty entries, and what precedes the new record is the newest part of the old history |
| ErrorHandler.GetErrorHistory | v0/utils/ErrorHandler.py:230-232 | a positive limit gives the newest `min(limit, n)` records in order; a limit of 0 gives the whole history (Python's `[-0:]`); a negative limit drops that many oldest records; an empty history gives `[]` |
| ErrorHandler.ErrorGuidance | v0/utils/ErrorHandler.py:197-228 | the advice is that of the first of the six rules (connection, API key, article, parameter, sync, file/config) that holds, compared in lower case, and there is none iff no rule holds |
| ErrorHandler.ConnectionAlwaysWins | v0/utils/ErrorHandler.py:204-206 | a connection context, or an error type mentioning `urlopen`, always gets the connection advice, whatever the message |
| ErrorHandler.TopCountsExact | v0/utils/ErrorHandler.py:250-270 | every listed context or type occurs in the history, with its exact count |
| ErrorHandler.TopCountsComplete | v0/utils/ErrorHandler.py:269-270 | no value left out of the top five occurs more often than a listed one |
| ErrorHandler.TopCountsSpec | v0/utils/ErrorHandler.py:250-270 | the frequency list holds `min(5, distinct values)` entries, each with its exact count, in non-increasing count order, and nothing left out is more frequent than a listed entry |
| ErrorHandler.CountAfter | v0/utils/ErrorHandler.py:264-266 | the recent count never exceeds the history's length and equals it iff every record is newer than the threshold |
| ErrorHandler.GetErrorSummary | v0/utils/ErrorHandler.py:238-277 | an empty history gives the all-zero summary; the total is the history's length, the recent count is at most the total, and each frequency list has at most five entries |
| ErrorHandler.SummaryCountsExact | v0/utils/ErrorHandler.py:249-277 | the summary's context and type counts are exact and listed most frequent first |
| ErrorHandler.ErrorContextExit | v0/utils/ErrorHandler.py:332-345 | the exception is suppressed iff there was one and re-raising is off; a raised exception is recorded as `handle_error` records it, and without one the history is unchanged |
| ModelId.ObjectsTag | v0/commands/ConnectCommand.py:82 | the object-count part `objects_<n>` contains no space or slash of either kind |
| ModelId.GetCurrentModelId | v0/commands/ConnectCommand.py:68-89 | there is an identifier exactly when there is an active document |
| ModelId.ReplaceChainIsSanitized | v0/commands/ConnectCommand.py:84 | the three chained `replace` calls equal one character-wise rewrite of space, `/` and `\` to `_` |
| ModelId.SanitizedKeepsClean | v0/commands/ConnectCommand.py:84 | the rewrite leaves a text without separators unchanged |
| ModelId.ModelIdShape | v0/commands/ConnectCommand.py:70-84 | the identifier is the rewritten file name (or document name when unsaved), `_`, then `objects_<count>` |
| ModelId.ModelIdHasNoSeparators | v0/commands/DashboardCommand.py:166-184 | no space, `/` or `\` survives in an identifier |
| ModelId.ModelIdEndsWithCount | v0/commands/DashboardCommand.py:178-179 | every identifier ends with `objects_` and the decimal object count |
| ModelId.ModelIdSource | v0/commands/DashboardCommand.py:173-179 | the identifier starts with the rewritten file name when there is one, else the rewritten document name, followed by `_` |
| ModelId.SeparatorsCollide | v0/commands/ConnectCommand.py:76-84 | two saved documents whose paths differ only in spaces and slashes, with equal object counts, get the same identifier |
| ModelUpdater.Exponents | v0/core/ModelUpdater.py:315-316 | after the two `replace` calls no `²` or `³` is left |
| ModelUpdater.ConvertUnitToFreeCAD | v0/core/ModelUpdater.py:305-318 | the empty unit stays empty and only it gives empty; units of the table are translated by it; the result never holds a superscript; a unit without superscripts outside the table comes back unchanged |
| ModelUpdater.RewritesCommute | v0/core/ModelUpdater.py:316 | rewriting `^3` to `³` and rewriting `²` to `^2` can be done in either order |
| ModelUpdater.ExponentsUndoSuperscripts | v0/core/ModelUpdater.py:316 | the updater's exponent rewrite undoes the extractor's superscript rewrite for any unit without superscripts of its own |
| ModelUpdater.ExponentsOfSuperscriptEnding | v0/core/ModelUpdater.py:316 | a unit ending in a single `²` or `³` has it written as `^2` or `^3` and is otherwise unchanged |
| ModelUpdater.BackTableAgreesWithRewrite | v0/core/ModelUpdater.py:27-48 | every table entry except `°` translates its key exactly as the superscript rewrite would |
| ModelUpdater.BackTableIdentity | v0/core/ModelUpdater.py:27-48 | the table entries without superscripts (other than `°`) map a unit to itself |
| ModelUpdater.TableUnitRoundTrip | v0/core/ModelUpdater.py:27-48 | the back table inverts the extractor's unit table: each of its twenty units comes back as itself |
| ModelUpdater.UnitRoundTrip | v0/core/ModelUpdater.py:305-318 | a stripped, non-empty FreeCAD unit without superscripts, other than the literal `°`, survives conversion to CalcsLive notation and back |
| ModelUpdater.FirstMatch | v0/core/ModelUpdater.py:329-341 | each matching loop returns the first parameter name satisfying its rule, and nothing iff no name does |
| ModelUpdater.FindBestMatch | v0/core/ModelUpdater.py:320-343 | a match is always one of the parameter names |
| ModelUpdater.Tier | v0/core/ModelUpdater.py:324-341 | every name has a best rule among exact, case-insensitive, name contains symbol, symbol contains name, or none |
| ModelUpdater.FindBestMatchSpec | v0/core/ModelUpdater.py:320-343 | the match is the first name of the best rule any name satisfies: no name satisfies a better rule, and every earlier name satisfies only worse ones; there is no match iff no name satisfies any rule |
| ModelUpdater.TierBelow | v0/core/ModelUpdater.py:324-341 | when the loops of the better rules all failed, every name's best rule is no better than the current one |
| ModelUpdater.TierOfFirst | v0/core/ModelUpdater.py:324-341 | the name a loop returns has that loop's rule as its best, no name does better, and every earlier name does worse |
| ModelUpdater.CommonPrefix | v0/core/ModelUpdater.py:436-441 | the result is a common prefix of both texts and every common prefix is a prefix of it (the longest one) |
| ModelUpdater.CommonSuffix | v0/core/ModelUpdater.py:443-448 | the result is a common suffix of both texts and every common suffix is a suffix of it (the longest one) |
| ModelUpdater.CreateParameterMapping | v0/core/ModelUpdater.py:150-178 | only the given symbols are mapped, exactly those with a non-empty best match; each entry is `automatic`, names a known parameter, and carries that parameter's object and property |
| ModelUpdater.UpdateModelFromCalcsLive | v0/core/ModelUpdater.py:50-115 | without a document it fails; otherwise each mapping entry is counted exactly once as success, failure or skip, the skips are the symbols missing from the results, the updated objects are those of the successful writes, and the errors are the failed writes' messages in order, followed by the recompute error when something was updated |
| ModelUpdater.FateStep | v0/core/ModelUpdater.py:82-105 | one more mapping entry adds one to exactly the tally of its outcome, its object to the updated set on success and its message to the errors on failure |
| ModelUpdater.MissingSymbols | v0/core/ModelUpdater.py:103-104 | a symbol is listed iff it is mapped and the results lack it |
| ModelUpdater.SkippedAreMissing | v0/core/ModelUpdater.py:83-104 | the number of skipped entries is the number of mapped symbols without a result |
| ModelUpdater.Positive | v0/core/ModelUpdater.py:395-398 | the candidates are exactly the parameter names with a positive score |
| ModelUpdater.SuggestSpec | v0/core/ModelUpdater.py:391-402 | each suggestion list holds `min(3, candidates)` known names with positive scores, best first, and no name left out scores higher than a listed one |
| ModelUpdater.SuggestParameterMappings | v0/core/ModelUpdater.py:377-404 | there is one suggestion list per output symbol, each of at most three names |
| ParameterExtractor.ReplaceInvalid | core/ParameterExtractor.py:337-338 | the substitution keeps the length and turns exactly the characters outside `[A-Za-z0-9_]` into `_` |
| ParameterExtractor.SanitizeName | core/ParameterExtractor.py:334-348 | the result is always a valid name (non-empty, at most 50 word characters, not led by a digit); the empty name becomes `unnamed_param`; otherwise it is the substituted name, prefixed by `param_` when it starts with a digit, cut to 50 characters |
| ParameterExtractor.SanitizeValidUnchanged | core/ParameterExtractor.py:334-348 | a name that is already valid comes back unchanged |
| ParameterExtractor.SanitizeIdempotent | core/ParameterExtractor.py:334-348 | sanitising twice is sanitising once |
| ParameterExtractor.UnitTableDomain | core/ParameterExtractor.py:31-52 | the unit table translates exactly its twenty listed keys |
| ParameterExtractor.ConvertUnit | core/ParameterExtractor.py:252-268 | the result is never empty: a blank unit is `dimensionless`, a table unit is translated after stripping, and a stripped unit outside the table without a caret is kept |
| ParameterExtractor.ConvertUnitUniform | core/ParameterExtractor.py:252-268 | the caret test is immaterial: the conversion is the table, else `dimensionless` for a blank unit, else the superscript rewrite of the stripped unit |
| ParameterExtractor.InferUnit | core/ParameterExtractor.py:270-290 | a unit is implied exactly for the fourteen property types `_is_dimensional_property` lists (lines 170-178), and it is never empty |
| ParameterExtractor.RunLength | core/ParameterExtractor.py:299 | a greedy run: every character in it satisfies the class and the next one does not |
| ParameterExtractor.RunEnd | core/ParameterExtractor.py:299 | the run starting at a position ends at the first character outside the class |
| ParameterExtractor.RunEndUnique | core/ParameterExtractor.py:299 | any run of the class from a position that stops before a non-member ends where the scan ends |
| ParameterExtractor.ScanCellCorrect | core/ParameterExtractor.py:299-309 | the scanner accepts exactly the texts the anchored pattern `\s*[\d.\-+]+\s*[a-zA-Z²³°]+\s*` matches, and returns the number and unit groups of every match |
| ParameterExtractor.ScanCellGroups | core/ParameterExtractor.py:308-313 | the pattern's groups are unique, because blanks, number characters and unit characters are disjoint classes |
| ParameterExtractor.LooksLikeParameter | core/ParameterExtractor.py:292-300 | a cell looks like a parameter iff its stripped text matches the cell pattern |
| ParameterExtractor.ParseSpreadsheetParameter | core/ParameterExtractor.py:302-332 | a cell that does not match gives nothing; one that matches gives a parameter iff its number group parses, with that value, the unit group as original unit and its conversion as unit, and the sheet's name, label and cell address as its source |
| ParameterExtractor.FormatForCalcsLive | core/ParameterExtractor.py:350-368 | the same parameter names, each reduced to its value and unit |
| ParameterMapper.LoadMappingConfig | v0/core/ParameterMapper.py:37-62 | without a model path, the demonstration configuration (article `demo-cylinder-volume`, symbols `r`, `h`, `V` with `V` an output); with one, the stored configuration, or the empty default when it is missing or unreadable |
| ParameterMapper.DemoInputs | v0/core/ParameterMapper.py:39-165 | without a model path only `r` and `h` can be inputs, `r` exactly when a `Cylinder_Radius` parameter is present, and the volume `V` never is |
| ParameterMapper.SetCalcsLiveArticle | v0/core/ParameterMapper.py:102-108 | the article id is set, on the default configuration when there is none, and the mapping is unchanged |
| ParameterMapper.AddMapping | v0/core/ParameterMapper.py:110-122 | the symbol maps to the given parameter (or to nothing); the article and every other symbol's entry are those of the configuration, or of the default one when there is none |
| ParameterMapper.RemoveMapping | v0/core/ParameterMapper.py:124-128 | without a configuration nothing happens; otherwise the symbol is gone, the article and all other entries are kept, and an absent symbol changes nothing |
| ParameterMapper.AddThenRemove | v0/core/ParameterMapper.py:110-128 | adding a new symbol and then removing it restores the configuration |
| ParameterMapper.ParamLookup | v0/core/ParameterMapper.py:148 | the lookup is keyed by exactly the parameters' `symbol` fields |
| ParameterMapper.GetCalcsLiveInputs | v0/core/ParameterMapper.py:130-165 | a missing or empty mapping gives `{}`; otherwise the inputs are keyed by exactly the symbols mapped to a parameter name that is present, each copying that parameter's value and CalcsLive unit |
| ParameterMapper.OutputsAreNotInputs | v0/core/ParameterMapper.py:151-153 | a symbol mapped to `None` (an output) never appears among the inputs |
| ParameterMapper.InputFromLastParameter | v0/core/ParameterMapper.py:148-160 | when several parameters carry the mapped name, the input comes from the last of them |
| ParameterMapper.BaseName | v0/core/ParameterMapper.py:90 | the base name is a suffix of the path without `/` |
| ParameterMapper.DirName | v0/core/ParameterMapper.py:89 | the directory is a prefix of the path |
| ParameterMapper.Stem | v0/core/ParameterMapper.py:90 | the stem is a prefix of the name |
| ParameterMapper.JoinPath | v0/core/ParameterMapper.py:91 | the joined path ends with the file name |
| ParameterMapper.ConfigPath | v0/core/ParameterMapper.py:83-91 | there is no path iff there is no model path; otherwise it ends with `_calcslive_mapping.json` |
| ParameterMapper.SplitModelPath | v0/core/ParameterMapper.py:89-90 | `dir/name` splits into directory `dir` and base name `name` |
| ParameterMapper.StemOfName | v0/core/ParameterMapper.py:90 | the stem of `stem.ext` is `stem` |
| ParameterMapper.ConfigPathOfModel | v0/core/ParameterMapper.py:83-91 | the model `dir/stem.ext` keeps its mapping in `dir/stem_calcslive_mapping.json` |
| ParameterMapper.JoinAfterDir | v0/core/ParameterMapper.py:91 | joining a directory without trailing slash inserts exactly one `/` |
| PlugServer.ParsePath | calcslive-freecad-plug-server.py:336-342 | a path without `/` fails with the unpacking error; otherwise the property is everything after the first `/`, and the object is the first segment up to any `:`, so it holds neither `/` nor `:` |
| PlugServer.ParseExportedPath | calcslive-freecad-plug-server.py:337-339 | parsing the `Name:Label/Prop` path of an exported record gives back the variable set's name and the property |
| PlugServer.ParseSimplePath | calcslive-freecad-plug-server.py:340-342 | the short form `Obj/Prop` names the same object and property |
| PlugServer.WritePath | calcslive-freecad-plug-server.py:335-362 | a missing path fails as `in` on `None` does; a write succeeds only when the path parses, the object exists, the expression guard lets it through and the store succeeds; without the override an expression-driven property gives the refusing message |
| PlugServer.ApplyOne | calcslive-freecad-plug-server.py:368-377 | each update lands in exactly one of `applied` and `errors`: in `applied` (with its target, value and unit) exactly when its write succeeds, else in `errors` with the write's message |
| PlugServer.ApplyUpdates | calcslive-freecad-plug-server.py:364-383 | the report has as many entries as there were updates; an empty batch gives empty lists |
| PlugServer.ApplyUpdatesAppend | calcslive-freecad-plug-server.py:366-377 | applying `a + b` gives the lists of `a` followed by those of `b`, so both lists keep input order |
| PlugServer.ApplySingle | calcslive-freecad-plug-server.py:369-377 | a one-update batch is applied exactly when its write succeeds, and otherwise reported with the write's message under the name taken from `name` or, when that is empty, `path` |
| PlugServer.GuardHolds | calcslive-freecad-plug-server.py:348-349 | without the override flag no applied update targets an expression-driven property |
| PlugServer.LabelOf | calcslive-freecad-plug-server.py:116 | a name without `_` is its own label; otherwise the name is the text before its first `_`, `_`, and the label |
| PlugServer.LabelOfPrefixed | calcslive-freecad-plug-server.py:116 | the label of `prefix_suffix`, for a prefix without `_`, is `suffix` |
| PlugServer.UnitSi | calcslive-freecad-plug-server.py:123 | no unit gives `?`; a unit text with a blank gives its second word, and fails (index error, so an error record) exactly when there is no second word; any other result is `?` |
| PlugServer.SplitDisplay | calcslive-freecad-plug-server.py:126-142 | an empty display fails; a single word gives unit `?`; several words give the last word as the unit |
| PlugServer.SplitDisplayOfPair | calcslive-freecad-plug-server.py:128-136 | a display `number unit` splits back into the parsed number and the unit |
| PlugServer.SplitDisplayOfNumber | calcslive-freecad-plug-server.py:137-140 | a lone number parses with unit `?` |
| PlugServer.FallbackUnit | calcslive-freecad-plug-server.py:144-153 | the fallback unit is the first word of the unit text when there is one, else `?`, and is never empty |
| PlugServer.DisplayOf | calcslive-freecad-plug-server.py:125-153 | the split display when translating and splitting succeed, else the SI value with the fallback unit |
| PlugServer.SecondField | calcslive-freecad-plug-server.py:164 | the second `Property`-separated field holds no `Property` |
| PlugServer.KindOf | calcslive-freecad-plug-server.py:161-164 | there is a kind exactly when the type id holds both `::` and `Property`, and it holds no `Property` |
| PlugServer.KindOfAppProperty | calcslive-freecad-plug-server.py:161-164 | `App::Property<Kind>` has kind `<Kind>` |
| PlugServer.FileName | calcslive-freecad-plug-server.py:73-83 | the file name is never empty and holds no slash of either kind |
| PlugServer.FileNameOfPath | calcslive-freecad-plug-server.py:74-77 | the file name of `dir/name` or `dir\name` is `name` |
| PlugServer.Record | calcslive-freecad-plug-server.py:105-216 | every record carries the property's name, label and `Name:Label/Prop` path; text gives a string record, a plain number a number record with unit `?` and display `(x, ?)`, a quantity a quantity record exactly when its SI unit can be read (else an error record); `readonly` holds exactly when there is an expression; a quantity record carries the kind of the property type and the SI value |
| PlugServer.Kept | calcslive-freecad-plug-server.py:90-103 | the kept properties are exactly those outside the skip set, and nothing else |
| PlugServer.ExportParams | calcslive-freecad-plug-server.py:101-216 | one record per kept property, in property order |
| PlugServer.ExportedRecords | calcslive-freecad-plug-server.py:101-170 | no record comes from a skipped property, and parsing every record's path leads back to the variable set and its property |
| PlugServer.ExportPayload | calcslive-freecad-plug-server.py:58-218 | the payload is the error payload exactly when the variable set cannot be found; otherwise it carries the file name and the records |
| PlugServer.ExampleUnits | calcslive-freecad-plug-server.py:450-460 | a unit is collected exactly when some entry lists it as an example |
| PlugServer.UnitSiToKind | calcslive-freecad-plug-server.py:446-457 | a unit is mapped exactly when it is the non-empty base unit of some entry |
| PlugServer.UnitSiToKindLastWins | calcslive-freecad-plug-server.py:450-457 | a base unit maps to the category of its last entry |
| PlugServer.LastIndexOfBase | calcslive-freecad-plug-server.py:450-457 | every entry has a last entry with the same base unit at or after it |
| PlugServer.UnitSiToKindOfConsistent | calcslive-freecad-plug-server.py:426-457 | when entries sharing a base unit share a category, every base unit maps to the category of any of its entries |
| PlugServer.AnalyzeCleanPropertyTypes | calcslive-freecad-plug-server.py:419-465 | the units list is strictly sorted and holds exactly the example units |
| PlugServer.CleanEntryKind | calcslive-freecad-plug-server.py:426-443 | every entry of the shipped table has a non-empty base unit whose kind is the entry's category |
| PlugServer.CleanPropertyDataConsistent | calcslive-freecad-plug-server.py:426-443 | entries of the shipped table that share a base unit share a category |
| PlugServer.UnitSiToKindOfKinds | calcslive-freecad-plug-server.py:446-457 | when every entry's base unit has the entry's category as its kind, every mapped unit maps to its kind |
| PlugServer.ServerUnitSiToKind | calcslive-freecad-plug-server.py:426-457 | the shipped mapping holds exactly the base units of the table, each mapped to its kind |
| PlugServer.CleanUnitsListUnique | calcslive-freecad-plug-server.py:459-464 | any strictly sorted list of exactly the example units is the units list |
| PlugServer.Route | calcslive-freecad-plug-server.py:510-605 | a GET is not found exactly when its path is none of the four GET paths, a POST exactly when its path is none of the two POST paths; OPTIONS always answers the preflight |
| PlugServer.StatusCode | calcslive-freecad-plug-server.py:510-598 | 404 exactly for an unknown path; status always answers 200; 500 exactly when the work of export, mapping, clean-units or import raises |
| SyncEngine.StepNames | core/SyncEngine.py:111-192 | the step names of a report, one per step, in order |
| SyncEngine.RunSteps | core/SyncEngine.py:103-207 | the run reaches the end exactly when validate, extract and calculate all succeed; a run that stops carries one error and ends with a failed step; a completed run lists validate, extract, calculate and (when the model is updated) update, and succeeds exactly unless the update raised; success always means no errors |
| SyncEngine.Sync | core/SyncEngine.py:83-221 | without a client it raises `Sync engine not initialized`; while a sync runs it answers at once and changes nothing; otherwise it reports the run, clears the busy flag, and appends a completed run to the history, keeping the last ten, while an early-stopped run leaves the history alone |
| SyncEngine.HistoryStaysBounded | core/SyncEngine.py:199-205 | a history of at most ten runs stays at most ten after any sync |
| SyncEngine.GetSyncHistory | core/SyncEngine.py:376-378 | for a positive limit, the last `min(limit, size)` runs; an empty history gives an empty list |
| SyncEngine.ValidateSyncReadiness | core/SyncEngine.py:256-312 | ready exactly when every recorded check passed and there is no error |
| SyncEngine.ReadyIff | core/SyncEngine.py:273-310 | ready exactly when there is a client, the article is accessible, there is a document and at least one parameter can be extracted |
| SyncEngine.RunWorker | core/SyncEngine.py:328-350 | the worker either runs every pass or stops on a failed pass with the counter at three or more |
| SyncEngine.SinceLastSuccess | core/SyncEngine.py:333-340 | the passes after the last success: a suffix without a success, preceded by the success when there was one |
| SyncEngine.StreakSnoc | core/SyncEngine.py:331-346 | a skipped pass keeps the consecutive-error streak, a success resets it to zero, a failure adds one |
| SyncEngine.WorkerCountsStreak | core/SyncEngine.py:328-350 | the worker's counter is the number of consecutive errors of the passes it ran, on top of the starting counter while no pass has succeeded |
| SyncEngine.WorkerStopsAtThreshold | core/SyncEngine.py:333-349 | the worker stops exactly when some failed pass brings the consecutive errors to three |
| SyncEngine.EnableAutoSyncAsWritten | core/SyncEngine.py:314-355 | as written, enabling sets the flag and the interval and keeps the error counter as it was |
| SyncEngine.ReenabledWorkerStopsEarly | core/SyncEngine.py:322-338 | as written, after a worker stopped at three errors, the re-enabled worker stops at its first failure, after one error |
| SyncEngine.EnableAutoSync | core/SyncEngine.py:314-326 | corrected: enabling sets the flag and the interval and resets the error counter to zero |
| SyncEngine.FreshWorkerNeedsThreeErrors | core/SyncEngine.py:328-350 | corrected: a freshly enabled worker stops only after exactly three consecutive errors |
| SyncEngine.FirstStopIsAtThree | core/SyncEngine.py:333-338 | from a zero counter the count never passes three, and stays below three while the worker runs |
| UnitMapper.ToCalcsLiveIdempotent | core/UnitMapper.py:58-76 | sending a unit name through the direct mapping twice is the same as once |
| UnitMapper.TableKeysGrouped | core/UnitMapper.py:28-108 | the conversion table's units are exactly the length, angle, area and volume groups, so the fallback branch at line 108 is never reached |
| UnitMapper.ToInternal | core/UnitMapper.py:79-114 | an unknown unit comes back with value and unit unchanged; a known unit has its value multiplied by the table factor and lands in one of `mm`, `deg`, `mm²`, `mm³` |
| UnitMapper.InternalUnitsKeepValue | core/UnitMapper.py:30-49 | units that are already internal keep their value |
| UnitMapper.RoundTripGroup | core/UnitMapper.py:58-114 | a known unit sent to the calculator and read back lands in its own group's internal unit |
| UnitMapper.ToCalcsLiveValue | core/UnitMapper.py:137-141 | the unit value changes exactly when it is the string `deg` |
| UnitMapper.MapParameter | core/UnitMapper.py:133-141 | the copy keeps every other field, adds `calcslive_unit` (the mapped unit) and `unit_mapped` (whether the unit was `deg`) |
| UnitMapper.MapParameterUnits | core/UnitMapper.py:117-145 | one mapped copy per record, same length and order |
| UnitMapper.MappedCount | core/UnitMapper.py:159 | at most as many mapped records as records |
| UnitMapper.CreateParameterSummary | core/UnitMapper.py:148-165 | the totals add up: mapped plus passed-through is the record count, and neither is negative |
| UnitMapper.SummaryCountsDegrees | core/UnitMapper.py:117-165 | summarising mapped records counts exactly the records whose unit was `deg` |
| QuantityTypes.CalcsLiveBaseUnit | macros/QuantityTypesHelper.py:120-149 | a category has a CalcsLive base unit exactly when it is in the table, and then it is the table's unit |
| QuantityTypes.ConversionFactor | macros/QuantityTypesHelper.py:151-214 | a listed pair gets its table factor, any other pair the factor 1 |
| QuantityTypes.ConversionToSelf | macros/QuantityTypesHelper.py:151-214 | converting a unit to itself never scales, whether or not the pair is listed |
| QuantityTypes.IsQuantityType | macros/QuantityTypesHelper.py:216-229 | a type is a quantity exactly when the table lists it with a base unit |
| QuantityTypes.UnknownIsNotQuantity | macros/QuantityTypesHelper.py:216-229 | a type missing from the table is not a quantity |
| QuantityTypes.QualifyingUnits | macros/QuantityTypesHelper.py:99-110 | a base unit opens a mapping exactly when some entry with that base unit has a CalcsLive category with a non-empty CalcsLive base unit, and every pair is a qualifying entry's base unit with the CalcsLive base unit of that entry's category |
| QuantityTypes.TypesWithUnit | macros/QuantityTypesHelper.py:112-116 | a type is listed under a base unit exactly when its entry has that base unit |
| QuantityTypes.TypesWithUnitInOrder | macros/QuantityTypesHelper.py:112-116 | the types under a base unit keep table order: of two listed names the earlier comes from an earlier entry with that base unit |
| QuantityTypes.TypesWithUnitOnce | macros/QuantityTypesHelper.py:112-116 | in a dict every type with a base unit is listed under it exactly once |
| QuantityTypes.QualifiesIffKnownCategory | macros/QuantityTypesHelper.py:103-149 | the test on the CalcsLive unit never decides: an entry opens a mapping exactly when it has a non-empty base unit and its category is in the CalcsLive table |
| QuantityTypes.KnownQuantitiesQualify | macros/QuantityTypesHelper.py:16-83 | every quantity type the helper ships opens a base-unit mapping and passes the clean filter |
| QuantityTypes.BaseUnitMappings | macros/QuantityTypesHelper.py:92-118 | a base unit is mapped exactly when some qualifying entry has it; its type list holds every table type with that base unit, and its factor converts the base unit to its CalcsLive unit |
| QuantityTypes.BaseMappingFromLastEntry | macros/QuantityTypesHelper.py:99-110 | a base unit's CalcsLive unit comes from the last qualifying entry with that base unit |
| QuantityTypes.BaseIsCategoryUnit | macros/QuantityTypesHelper.py:103-107 | a mapped base unit's `calcslive_base` is the CalcsLive base unit of the category of a qualifying entry with that base unit |
| QuantityTypes.MappedTypesListedOnce | macros/QuantityTypesHelper.py:112-116 | every type with a mapped base unit is listed exactly once under it and under no other base unit |
| QuantityTypes.CleanEntries | macros/FcadQuantityTypes.py:55-67 | the clean entries are exactly the table entries passing the four conditions, and form a dict when the table does |
| QuantityTypes.CleanRecord | macros/FcadQuantityTypes.py:69-74 | a clean record carries the base unit, the CalcsLive category and the description `FreeCAD <category> property` |
| QuantityTypes.FirstCategory | macros/FcadQuantityTypes.py:78-86 | a base unit has a summary category exactly when some clean entry has that base unit |
| QuantityTypes.FirstCategoryOfFirst | macros/FcadQuantityTypes.py:78-86 | the first clean entry with a base unit decides the summary's category |
| QuantityTypes.CleanBaseUnits | macros/FcadQuantityTypes.py:76-87 | the summarised base units are exactly those of the clean entries |
| QuantityTypes.BaseUnitsSummary | macros/FcadQuantityTypes.py:76-113 | one summary per clean base unit, carrying the category of its first clean entry, the clean types with that base unit, and the usage examples listed for it (none otherwise) |
| QuantityTypes.CleanRecords | macros/FcadQuantityTypes.py:53-74 | a record for exactly the clean entries, never more records than entries |
| QuantityTypes.GetCleanQuantityTypes | macros/FcadQuantityTypes.py:35-131 | the counts are the number of clean records and of summarised base units, and clean plus excluded types add up to the table size |
| QuantityTypes.CleanTypeListedOnce | macros/FcadQuantityTypes.py:76-87 | every clean type is listed exactly once under its own base unit and under no other |
| VarsetExtractor.MakeRecord | v0/varset_data_extractor.py:32-116 | a record carries the property's name, label, `Name:Label/Prop` path and expression, and is read-only exactly when the expression is non-empty |
| VarsetExtractor.PlainNumber | v0/varset_data_extractor.py:60-61 | a number keeps its value; a quantity or an unreadable value gives no plain number |
| VarsetExtractor.Visited | v0/varset_data_extractor.py:10-23 | the loop visits exactly the properties outside the skip set, and nothing else |
| VarsetExtractor.StepAsWritten | v0/varset_data_extractor.py:25-135 | as written, a property that is not a quantity leaves the unit local as it was, and its record, when there is one, takes that carried unit as its SI unit |
| VarsetExtractor.LoopAsWritten | v0/varset_data_extractor.py:21-135 | as written, at most one record per visited property |
| VarsetExtractor.ExtractAsWritten | v0/varset_data_extractor.py:5-137 | as written, at most one record per property outside the skip set |
| VarsetExtractor.RecordOf | v0/varset_data_extractor.py:25-132 | a record, when there is one, is built from the property's name, label, path and expression |
| VarsetExtractor.RecordOfSpec | v0/varset_data_extractor.py:25-135 | no record exactly when the type cannot be read, the value cannot be read, a quantity has no unit or an unreadable SI unit, or a plain value does not parse; a quantity's record carries its SI value, the second word of `str(Unit)` and its display; a plain number's record has unit `?` and is displayed as it is |
| VarsetExtractor.Loop | v0/varset_data_extractor.py:21-135 | every record comes from a visited property, and every visited property that yields a record contributes it |
| VarsetExtractor.Extract | v0/varset_data_extractor.py:5-137 | corrected: the records are exactly those of the visited properties that can be read, and no more than one per visited property |
| VarsetExtractor.ExtractedRecordsShape | v0/varset_data_extractor.py:21-109 | every extracted record is of a property outside the skip set and carries that property's label, path and expression, read-only exactly when the expression is non-empty |
| VarsetExtractor.LoopAgreesWithoutNumbers | v0/varset_data_extractor.py:53-111 | without plain numbers the carried unit is never read, and the loop as written gives exactly the corrected records |
| VarsetExtractor.ExtractAgreesWithoutNumbers | v0/varset_data_extractor.py:5-137 | a variable set of quantities only is extracted identically as written and as corrected |
| VarsetExtractor.UnitSiOfUnitText | v0/varset_data_extractor.py:57 | the SI unit of a unit text `head unit` is `unit` |
| VarsetExtractor.QuantitySetsCarriedUnit | v0/varset_data_extractor.py:53-58 | as written, a quantity with a readable SI unit gives a record and leaves its unit in the local |
| VarsetExtractor.NumberTakesCarriedUnit | v0/varset_data_extractor.py:60-111 | as written, a plain number's record takes the carried unit as its SI unit |
| VarsetExtractor.StaleUnitCounterexample | v0/varset_data_extractor.py:53-111 | as written, in a quantity followed by a plain number, the number is reported with the quantity's SI unit |
| VarsetExtractor.NumberHasNoUnit | v0/varset_data_extractor.py:60-111 | corrected: a readable plain number is reported with SI unit `?` wherever it stands |
| VarsetExtractor.UnboundUnitCounterexample | v0/varset_data_extractor.py:60-135 | as written, a plain number met before any quantity is dropped (the unit local is unbound), while the corrected extraction reports it |

## Left out

- Host, network and process calls are parameters of the model, not modelled. This covers sockets, threads, HTTP headers, the server lifecycle, `urlopen`, `time.sleep`, clocks, file reads and writes, browser processes, Qt dialogs and command registration.
- Console output and callbacks (`_notify_callbacks`, `FreeCAD.Console`) are left out. They do not change any state that is modelled.
- Floating point is modelled as exact `real` arithmetic. Float parsing (`float()`) is an oracle `parseFloat`.
- Text.IsSpace: blanks are the ASCII ones only (space, tab, line feed, carriage return, U+000B, U+000C and U+001C-U+001F). Python's `str.split()`, `str.strip()` and regex `\s` also treat Unicode blanks such as U+00A0, U+0085 and U+2000-U+200A as blanks. So the model never splits at those characters.
- PlugServer.SplitDisplay: does not split a display string at a Unicode blank. Python splits `10.00\u00A0in` into `10.00` and `in`; the model sees one word and takes the fallback. The same holds for PlugServer.UnitSi, CalcsLiveTools.CleanName and ParameterExtractor.ConvertUnit, which strip or split ASCII blanks only.
- ParameterExtractor.ScanCell: the pattern's `\d` and `\s` are ASCII here, while Python's are Unicode. So cells such as `5\u00A0mm`, or one with an Arabic-Indic digit, are rejected by the model and accepted by the source.
- Text.Lower: lower-cases ASCII letters only. Python's `str.lower()` also lower-cases other scripts, so case-insensitive matching in ModelUpdater and CalcsLiveTools is ASCII case-insensitive here.
- ConfigManager.SetSetting: returns the new configuration, not the `bool` of `save_config()`. The same holds for SetBaseUrl, SetTimeout, SetAutoSyncInterval, AddRecentArticle, RemoveRecentArticle, SaveParameterMapping and RemoveParameterMapping (core/ConfigManager.py:136-321). Saving is file I/O. Two early returns answer `True` without saving: `remove_recent_article` without a list and `remove_parameter_mapping` without a section. In the model these are the cases where the configuration is returned unchanged.
- ConfigManager.AddRecentArticle: each recent article is an `Article` record with an id, a title and an integer `last_used`. This is the only shape the plug itself writes. The source also behaves in ways the model does not cover for hand-edited entries: it keeps an entry without `id` (`None != id`), it raises on an entry that is not a dict, and `last_used` is whatever `FreeCAD.now()` returns, which is a parameter here. ConfigManager.RemoveRecentArticle has the same limitation.
- ConfigManager.SaveParameterMapping: states when the save succeeds, not what it stores. ConfigManager.SaveThenGet states the stored value.
- ConfigManager: `load_config`, `save_config`, `import_config`, `export_config`, `reset_to_defaults`, `get_config_summary`, the UI and sync flag getters and setters, and the default configuration's other sections are left out. They are file I/O or single dictionary reads.
- ParameterMapper.ConfigPath: follows POSIX `os.path` only. On Windows, `ntpath` also splits at `\` and drive letters. For example `C:\a.b\model` maps to `C:\a.b\model_calcslive_mapping.json` there, while the model reads it as one POSIX name and gives `C:\a_calcslive_mapping.json`. The same holds for ParameterMapper.BaseName, ParameterMapper.DirName and ParameterMapper.JoinPath.
- ParameterMapper.LoadMappingConfig: the loaded file is typed as a configuration. A file holding some other JSON shape is not modelled. The description and author fields of the default configuration are dropped.
- ParameterMapper: `save_mapping_config` (file I/O), `get_mapping_summary` (text formatting) and `update_freecad_from_calcslive` (host writes) are left out.
- ModelId.GetCurrentModelId: does not model the `except Exception: return None` path (v0/commands/ConnectCommand.py:68-89). The exceptions can only come from the host's document object, which is a parameter here. The string operations themselves cannot raise.
- CalcsLiveClient: `validate_article`, `send_parameters`, `get_calculation_results` and `create_input_dict` are left out. They are request wrappers around `_make_request`, which is modelled. `urlencode` is a parameter.
- CalcsLiveClient.DashboardUrl: `str.format` brace handling in the template is not modelled. The parameters are appended as text.
- CalcsLiveTools.GenerateSymbol: the unused `obj_name` argument is dropped. CalcsLiveTools also calls `UnitMapper.freecad_to_calcslive`, which core/UnitMapper.py does not define. That call is not modelled.
- BrowserLauncher: `get_available_browsers`, the per-platform executable lookups and `open_calcslive_connect`/`open_calcslive_dashboard` are left out. The lookups are the `locate` parameter. The system default browser is one Boolean parameter.
- ModelUpdater: `update_selected_objects` and `create_update_report` are left out, as are the host reads and writes of `update_model_from_calcslive`. Those reads and writes are a per-entry outcome parameter. `_calculate_match_score` is an abstract `score` parameter.
- ErrorHandler: `show_error_dialog`, the report, export and clear functions, and the logging calls are left out.
- PlugServer.Route: the `501` for other HTTP methods comes from the HTTP server base class, not from the plug. JSON body decoding in `do_POST`, and the CORS headers, are left out. `get_pq_mappings`, `set_pq_mappings` and `get_clean_units_data` are left out beyond their status codes. They read and write the host document.
- QuantityTypes: `get_json_output`, `handle_quantity_types_request` and the host's `App.Version()` are left out.

## Findings

| source | as written | input that shows it | evidently intended | confidence | as-written member | corrected member |
|---|---|---|---|---|---|---|
| core/SyncEngine.py:314-355 | `enable_auto_sync` never resets `error_count`. It is set only at lines 38, 334, 340 and 346. So a worker that stopped after three errors leaves the counter at 3 for the next worker. | Three failed syncs stop auto-sync; re-enable it; the next single failure stops the new worker. | A freshly enabled worker stops after three consecutive errors. | not executed | SyncEngine.EnableAutoSyncAsWritten, SyncEngine.ReenabledWorkerStopsEarly | SyncEngine.EnableAutoSync, SyncEngine.FreshWorkerNeedsThreeErrors |
| v0/varset_data_extractor.py:57-111 | The plain-number branch never assigns `unit_si`, yet the record reads it. A number after a quantity gets that quantity's SI unit. A number before any quantity raises `NameError` and is silently skipped. | Properties `[Base_L = 762 mm, Count = 4]` report `Count` with unit `mm`; `[Count = 4]` alone gives no record. | A plain number has SI unit `?`, as the plug server's export writes it (calcslive-freecad-plug-server.py:193-207). | not executed | VarsetExtractor.ExtractAsWritten, VarsetExtractor.StaleUnitCounterexample, VarsetExtractor.UnboundUnitCounterexample | VarsetExtractor.Extract, VarsetExtractor.NumberHasNoUnit |
