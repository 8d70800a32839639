/** The error handler: a bounded error history, the guidance attached to an
    error, the summary statistics, and the error context's decision to
    suppress an exception. Dialogs and console output are left out. */
module ErrorHandler {

  import opened Wrappers
  import opened Text
  import opened Seqs

  const MaxHistory: nat := 50
  const MaxCommon: nat := 5
  const RecentWindow: real := 3600.0

  /** The recorded fields of an error; the traceback and formatted time are
      left out. */
  datatype ErrorInfo = ErrorInfo(timestamp: real, context: string, errorType: string, errorMessage: string)

  /** `handle_error`: appends the record and keeps the last fifty. */
  function HandleError(history: seq<ErrorInfo>, info: ErrorInfo): (r: seq<ErrorInfo>)
    ensures |r| == Min(MaxHistory, |history| + 1)
    ensures r[|r| - 1] == info
    ensures r[..|r| - 1] == history[|history| + 1 - |r|..]
  {
    var h := history + [info];
    if |h| > MaxHistory then h[|h| - MaxHistory..] else h
  }

  /** `get_error_history(limit)`. */
  function GetErrorHistory(history: seq<ErrorInfo>, limit: int): (r: seq<ErrorInfo>)
    ensures limit >= 1 ==> |r| == Min(limit, |history|) && r == history[|history| - |r|..]
    ensures limit == 0 ==> r == history
    ensures limit < 0 ==> r == history[Min(-limit, |history|)..]
    ensures history == [] ==> r == []
  {
    if history == [] then [] else PyTail(history, limit)
  }

  // ---------------------------------------------------------------------
  // Guidance

  const ConnectionAdvice: string := "Check your internet connection and API key configuration."
  const ApiKeyAdvice: string := "Please verify your CalcsLive API key in the configuration."
  const ArticleAdvice: string := "Please check that the article ID is correct and accessible."
  const ParameterAdvice: string := "Ensure your FreeCAD model has extractable parameters with units."
  const SyncAdvice: string := "Try refreshing the connection or checking the article configuration."
  const FileAdvice: string := "Check file permissions and configuration settings."

  const Advice: seq<string> := [ConnectionAdvice, ApiKeyAdvice, ArticleAdvice, ParameterAdvice, SyncAdvice, FileAdvice]

  /** Guidance rule `i` (0 to 5) in the order the handler tries them; context
      and message are compared in lower case, the type's name too for the
      first rule. */
  predicate RuleHolds(i: nat, info: ErrorInfo) {
    var message := Lower(info.errorMessage);
    var context := Lower(info.context);
    match i
    case 0 => Contains(context, "connection") || Contains(Lower(info.errorType), "urlopen")
    case 1 => Contains(message, "unauthorized") || Contains(message, "api key")
    case 2 => Contains(message, "article") || Contains(message, "not found")
    case 3 => Contains(context, "parameter")
    case 4 => Contains(context, "sync")
    case 5 => Contains(message, "file") || Contains(context, "config")
    case _ => false
  }

  /** `_get_error_guidance`: the advice of the first rule that holds. */
  function ErrorGuidance(info: ErrorInfo): (r: Option<string>)
    ensures r.None? <==> forall i :: 0 <= i < |Advice| ==> !RuleHolds(i, info)
    ensures r.Some? ==> exists i :: 0 <= i < |Advice| && RuleHolds(i, info) && r.value == Advice[i]
                                   && forall j :: 0 <= j < i ==> !RuleHolds(j, info)
  {
    var message := Lower(info.errorMessage);
    var context := Lower(info.context);
    if Contains(context, "connection") || Contains(Lower(info.errorType), "urlopen") then
      assert RuleHolds(0, info);
      Some(ConnectionAdvice)
    else if Contains(message, "unauthorized") || Contains(message, "api key") then
      assert RuleHolds(1, info);
      Some(ApiKeyAdvice)
    else if Contains(message, "article") || Contains(message, "not found") then
      assert RuleHolds(2, info);
      Some(ArticleAdvice)
    else if Contains(context, "parameter") then
      assert RuleHolds(3, info);
      Some(ParameterAdvice)
    else if Contains(context, "sync") then
      assert RuleHolds(4, info);
      Some(SyncAdvice)
    else if Contains(message, "file") || Contains(context, "config") then
      assert RuleHolds(5, info);
      Some(FileAdvice)
    else
      None
  }

  /** A connection context, or an error type mentioning `urlopen`, always
      gets the connection advice, whatever the message says. */
  lemma ConnectionAlwaysWins(info: ErrorInfo)
    requires Contains(Lower(info.context), "connection") || Contains(Lower(info.errorType), "urlopen")
    ensures ErrorGuidance(info) == Some("Check your internet connection and API key configuration.")
  {}

  // ---------------------------------------------------------------------
  // Summary

  datatype ErrorSummary = ErrorSummary(
    totalErrors: nat,
    recentErrors: nat,
    commonContexts: seq<(string, nat)>,
    commonTypes: seq<(string, nat)>)

  function CountKey(e: (string, nat)): real {
    e.1 as real
  }

  /** The five most frequent values with their counts, most frequent first;
      ties keep the order of first occurrence. */
  function TopCounts(s: seq<string>): seq<(string, nat)> {
    Take(SortDesc(Tally(s), CountKey), MaxCommon)
  }

  /** Each listed value occurs in the input, with its exact count. */
  lemma TopCountsExact(s: seq<string>)
    ensures var r := TopCounts(s);
      forall i :: 0 <= i < |r| ==> r[i].0 in s && r[i].1 == Count(s, r[i].0)
  {
    var t := Tally(s);
    TallyEntries(s);
    SortDescProps(t, CountKey);
    var sorted := SortDesc(t, CountKey);
    var r := Take(sorted, MaxCommon);
    forall i | 0 <= i < |r| ensures r[i].0 in s && r[i].1 == Count(s, r[i].0) {
      assert r[i] == sorted[i];
      assert sorted[i] in multiset(t);
      var p :| 0 <= p < |t| && t[p] == sorted[i];
    }
  }

  /** No value left out occurs more often than a listed one. */
  lemma TopCountsComplete(s: seq<string>)
    ensures var r := TopCounts(s);
      forall k :: k in s && k !in Keys(r) ==> forall i :: 0 <= i < |r| ==> r[i].1 >= Count(s, k)
  {
    var t := Tally(s);
    TallyEntries(s);
    SortDescProps(t, CountKey);
    var sorted := SortDesc(t, CountKey);
    var r := Take(sorted, MaxCommon);
    forall k | k in s && k !in Keys(r) ensures forall i :: 0 <= i < |r| ==> r[i].1 >= Count(s, k) {
      var p :| 0 <= p < |t| && t[p].0 == k;
      assert t[p] in multiset(sorted);
      forall i | 0 <= i < |r| ensures r[i] != t[p] {
        assert Keys(r)[i] == r[i].0;
      }
      TakeDescendingBound(sorted, MaxCommon, CountKey, t[p]);
    }
  }

  /** What the frequency lists promise: at most five distinct values of the
      input, each with its exact count, in non-increasing count order, and
      no value left out that occurs more often than one listed. */
  lemma TopCountsSpec(s: seq<string>)
    ensures var r := TopCounts(s);
      && |r| == Min(MaxCommon, |Distinct(s)|)
      && (forall i :: 0 <= i < |r| ==> r[i].0 in s && r[i].1 == Count(s, r[i].0))
      && (forall i, j :: 0 <= i < j < |r| ==> r[i].1 >= r[j].1)
      && (forall k :: k in s && k !in Keys(r) ==> forall i :: 0 <= i < |r| ==> r[i].1 >= Count(s, k))
  {
    TallyEntries(s);
    SortDescProps(Tally(s), CountKey);
    var sorted := SortDesc(Tally(s), CountKey);
    var r := Take(sorted, MaxCommon);
    forall i, j | 0 <= i < j < |r| ensures r[i].1 >= r[j].1 {
      assert CountKey(sorted[i]) >= CountKey(sorted[j]);
    }
    TopCountsExact(s);
    TopCountsComplete(s);
  }

  function Contexts(history: seq<ErrorInfo>): (r: seq<string>)
    ensures |r| == |history| && forall i :: 0 <= i < |r| ==> r[i] == history[i].context
  {
    if history == [] then [] else [history[0].context] + Contexts(history[1..])
  }

  function Types(history: seq<ErrorInfo>): (r: seq<string>)
    ensures |r| == |history| && forall i :: 0 <= i < |r| ==> r[i] == history[i].errorType
  {
    if history == [] then [] else [history[0].errorType] + Types(history[1..])
  }

  /** The number of records newer than `threshold`. */
  function CountAfter(history: seq<ErrorInfo>, threshold: real): (n: nat)
    ensures n <= |history|
    ensures n == |history| <==> forall i :: 0 <= i < |history| ==> history[i].timestamp > threshold
  {
    if history == [] then 0
    else (if history[0].timestamp > threshold then 1 else 0) + CountAfter(history[1..], threshold)
  }

  /** `get_error_summary`, with the clock as a parameter. */
  function GetErrorSummary(history: seq<ErrorInfo>, now: real): (r: ErrorSummary)
    ensures history == [] ==> r == ErrorSummary(0, 0, [], [])
    ensures r.totalErrors == |history| && r.recentErrors <= r.totalErrors
    ensures |r.commonContexts| <= MaxCommon && |r.commonTypes| <= MaxCommon
  {
    if history == [] then ErrorSummary(0, 0, [], [])
    else
      TopCountsSpec(Contexts(history));
      TopCountsSpec(Types(history));
      ErrorSummary(|history|, CountAfter(history, now - RecentWindow),
                   TopCounts(Contexts(history)), TopCounts(Types(history)))
  }

  /** The context counts in a summary are exact: each listed context occurs
      in the history that many times. */
  lemma SummaryCountsExact(history: seq<ErrorInfo>, now: real)
    ensures var r := GetErrorSummary(history, now);
      && (forall i :: 0 <= i < |r.commonContexts| ==>
            r.commonContexts[i].1 == Count(Contexts(history), r.commonContexts[i].0))
      && (forall i :: 0 <= i < |r.commonTypes| ==>
            r.commonTypes[i].1 == Count(Types(history), r.commonTypes[i].0))
      && (forall i, j :: 0 <= i < j < |r.commonContexts| ==> r.commonContexts[i].1 >= r.commonContexts[j].1)
      && (forall i, j :: 0 <= i < j < |r.commonTypes| ==> r.commonTypes[i].1 >= r.commonTypes[j].1)
  {
    TopCountsSpec(Contexts(history));
    TopCountsSpec(Types(history));
  }

  // ---------------------------------------------------------------------
  // Error context

  /** What `ErrorContext.__exit__` does: whether the exception is
      suppressed, and the history afterwards. */
  datatype ExitResult = ExitResult(suppress: bool, history: seq<ErrorInfo>)

  function ErrorContextExit(history: seq<ErrorInfo>, reraise: bool, exception: Option<ErrorInfo>): (r: ExitResult)
    ensures r.suppress <==> exception.Some? && !reraise
    ensures exception.None? ==> r.history == history
    ensures exception.Some? ==> r.history == HandleError(history, exception.value)
  {
    match exception
    case None => ExitResult(false, history)
    case Some(info) => ExitResult(!reraise, HandleError(history, info))
  }
}
