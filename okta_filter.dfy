/** `filterAPIError` of `directory/dirokta/op.go`: an Okta API error with a
    summary becomes a plain error made of that summary and the summaries of
    its causes. As written, a cause whose `errorSummary` is not a string makes
    the single-value type assertion panic (see `FilteredAsWritten`); the model
    skips such a cause, as the two-value form evidently meant to. */
module OktaFilter {
  import opened Wrappers
  import opened Text
  import opened Directory
  import opened OktaClient

  const SummaryKey: string := "errorSummary"
  const Separator: string := ": "

  /** The summary one cause contributes: its `errorSummary` when that is a
      string. */
  function CauseSummary(cause: JsonObject): seq<string> {
    if SummaryKey in cause && cause[SummaryKey].JString? then [cause[SummaryKey].s] else []
  }

  /** The summaries of the causes, in order. */
  function CauseSummaries(causes: seq<JsonObject>): seq<string> {
    if causes == [] then [] else CauseSummary(causes[0]) + CauseSummaries(causes[1..])
  }

  /** A cause contributes exactly when it holds a string summary, and the
      summaries keep the order of the causes. */
  lemma {:induction false} CauseSummariesExactly(causes: seq<JsonObject>)
    ensures var r := CauseSummaries(causes);
      |r| <= |causes|
      && (forall s :: s in r <==> exists k :: 0 <= k < |causes| && CauseSummary(causes[k]) == [s])
  {
    if causes != [] {
      CauseSummariesExactly(causes[1..]);
      var r := CauseSummaries(causes);
      forall s ensures s in r <==> exists k :: 0 <= k < |causes| && CauseSummary(causes[k]) == [s] {
        if s in CauseSummaries(causes[1..]) {
          var k :| 0 <= k < |causes[1..]| && CauseSummary(causes[1..][k]) == [s];
          assert CauseSummary(causes[k + 1]) == [s];
        }
        if exists k :: 0 <= k < |causes| && CauseSummary(causes[k]) == [s] {
          var k :| 0 <= k < |causes| && CauseSummary(causes[k]) == [s];
          if k > 0 {
            assert causes[1..][k - 1] == causes[k];
          }
        }
      }
    }
  }

  lemma {:induction false} CauseSummariesKeepOrder(a: seq<JsonObject>, b: seq<JsonObject>)
    ensures CauseSummaries(a + b) == CauseSummaries(a) + CauseSummaries(b)
  {
    if a == [] {
      assert a + b == b;
    } else {
      assert (a + b)[0] == a[0] && (a + b)[1..] == a[1..] + b;
      CauseSummariesKeepOrder(a[1..], b);
      Assoc(CauseSummary(a[0]), CauseSummaries(a[1..]), CauseSummaries(b));
    }
  }

  /** The filtered error, corrected: an API error with a summary becomes the
      summaries joined with `": "`; any other error is returned as it is. */
  function Filtered(f: Failure, sdkText: ApiError -> string): (e: Error)
    ensures !(f.SdkError? && f.api.summary != "") ==> e == Raw(f, sdkText)
    ensures e.AsCoded() == Raw(f, sdkText).AsCoded()
  {
    if f.SdkError? && f.api.summary != "" then Plain(Join([f.api.summary] + CauseSummaries(f.api.causes), Separator))
    else Raw(f, sdkText)
  }

  /** Each string after the first, preceded by the separator. */
  function Suffixes(parts: seq<string>): string {
    if parts == [] then [] else Separator + parts[0] + Suffixes(parts[1..])
  }

  lemma {:induction false} JoinSuffixes(first: string, rest: seq<string>)
    ensures Join([first] + rest, Separator) == first + Suffixes(rest)
    decreases |rest|
  {
    if rest != [] {
      assert ([first] + rest)[1..] == [rest[0]] + rest[1..];
      JoinSuffixes(rest[0], rest[1..]);
    } else {
      assert [first] + rest == [first];
    }
  }

  /** The text of a filtered API error: the summary, then `": "` and the
      summary of every cause that has one, in order. */
  lemma FilteredText(api: ApiError, sdkText: ApiError -> string)
    requires api.summary != ""
    ensures Filtered(SdkError(api), sdkText) == Plain(api.summary + Suffixes(CauseSummaries(api.causes)))
  {
    JoinSuffixes(api.summary, CauseSummaries(api.causes));
  }

  /** The filter as written: `None` is the panic of `es.(string)` on the
      first cause whose `errorSummary` is not a string. */
  function CauseSummariesAsWritten(causes: seq<JsonObject>): Option<seq<string>> {
    if causes == [] then Some([])
    else if SummaryKey in causes[0] && !causes[0][SummaryKey].JString? then None
    else
      match CauseSummariesAsWritten(causes[1..])
      case None => None
      case Some(rest) => Some(CauseSummary(causes[0]) + rest)
  }

  /** `filterAPIError` exactly as written: `None` when it panics. */
  function FilteredAsWritten(f: Failure, sdkText: ApiError -> string): Option<Error> {
    if f.SdkError? && f.api.summary != "" then
      match CauseSummariesAsWritten(f.api.causes)
      case None => None
      case Some(summaries) => Some(Plain(Join([f.api.summary] + summaries, Separator)))
    else Some(Raw(f, sdkText))
  }

  /** Every `errorSummary` a string. */
  predicate StringSummaries(causes: seq<JsonObject>) {
    forall k :: 0 <= k < |causes| && SummaryKey in causes[k] ==> causes[k][SummaryKey].JString?
  }

  /** The as-written filter panics on an API error whose summary is set and one
      of whose causes has a non-string summary; otherwise it agrees with the
      corrected one. */
  lemma {:induction false} AsWrittenAgreesOnStrings(causes: seq<JsonObject>)
    ensures CauseSummariesAsWritten(causes).Some? <==> StringSummaries(causes)
    ensures StringSummaries(causes) ==> CauseSummariesAsWritten(causes) == Some(CauseSummaries(causes))
  {
    if causes != [] {
      AsWrittenAgreesOnStrings(causes[1..]);
      if StringSummaries(causes[1..]) && !(SummaryKey in causes[0] && !causes[0][SummaryKey].JString?) {
        forall k | 0 <= k < |causes| && SummaryKey in causes[k] ensures causes[k][SummaryKey].JString? {
          if k > 0 {
            assert causes[k] == causes[1..][k - 1];
          }
        }
      }
      if StringSummaries(causes) {
        forall k | 0 <= k < |causes[1..]| && SummaryKey in causes[1..][k] ensures causes[1..][k][SummaryKey].JString? {
          assert causes[1..][k] == causes[k + 1];
        }
      }
    }
  }

  /** A concrete panic: an API error whose only cause has a numeric summary. */
  lemma AsWrittenPanicsOnNumericSummary(sdkText: ApiError -> string)
    ensures var f := SdkError(ApiError("Api validation failed", [map[SummaryKey := JOther]]));
      FilteredAsWritten(f, sdkText).None? && Filtered(f, sdkText) == Plain("Api validation failed")
  {
    var causes := [map[SummaryKey := JOther]];
    assert CauseSummaries(causes[1..]) == [];
    assert CauseSummaries(causes) == [];
  }

  /** `filterAPIError`, corrected: the loop over the causes. */
  method FilterAPIError(f: Failure, sdkText: ApiError -> string) returns (e: Error)
    ensures e == Filtered(f, sdkText)
  {
    if f.SdkError? && f.api.summary != "" {
      var causes := f.api.causes;
      var errStr := [f.api.summary];
      var i := 0;
      while i < |causes|
        invariant 0 <= i <= |causes|
        invariant errStr == [f.api.summary] + CauseSummaries(causes[..i])
      {
        CauseSummariesKeepOrder(causes[..i], [causes[i]]);
        assert causes[..i + 1] == causes[..i] + [causes[i]];
        assert CauseSummaries([causes[i]]) == CauseSummary(causes[i]) by {
          assert [causes[i]][1..] == [];
        }
        if SummaryKey in causes[i] && causes[i][SummaryKey].JString? {
          errStr := errStr + [causes[i][SummaryKey].s];
        }
        i := i + 1;
      }
      assert causes[..i] == causes;
      return Plain(Join(errStr, Separator));
    }
    e := Raw(f, sdkText);
  }
}
