/**
 * The completion gate (`checkWorkDone`): has today's menu already been
 * reported for every source? The status service answers with a map from
 * source name to the URL it holds; the request itself and the JSON decoding
 * are not modelled, their outcome is the `response` parameter.
 */
module Completion {
  import opened Outcomes

  /** The decoded status body; a missing or `null` "result" decodes to the empty map. */
  datatype CheckResponseData = CheckResponseData(result: map<string, string>)

  /** Every expected name is present in the status map with a non-empty value. */
  predicate AllReported(names: set<string>, result: map<string, string>) {
    forall name :: name in names ==> name in result && result[name] != ""
  }

  /** `checkWorkDone`: one pass over the target names (in whatever order the
      map yields them), answering false at the first name that is missing or
      empty. A failed request or decode is passed on as an error. */
  method CheckWorkDone(searchTarget: map<string, string>, response: Result<CheckResponseData>)
    returns (r: Result<bool>)
    ensures response.Err? ==> r == Err(response.error)
    ensures response.Ok? ==> r == Ok(AllReported(searchTarget.Keys, response.value.result))
  {
    if response.Err? {
      return Err(response.error);
    }
    var result := response.value.result;
    var remaining := searchTarget.Keys;
    while remaining != {}
      invariant remaining <= searchTarget.Keys
      invariant AllReported(searchTarget.Keys - remaining, result)
      decreases remaining
    {
      var name :| name in remaining;
      if name !in result || result[name] == "" {
        return Ok(false);
      }
      remaining := remaining - {name};
    }
    return Ok(true);
  }

  /** The gate as `main` reads it: the error is discarded, so a failed check counts as "not done". */
  predicate Done(searchTarget: map<string, string>, response: Result<CheckResponseData>) {
    response.Ok? && AllReported(searchTarget.Keys, response.value.result)
  }

  /** With no target names the check passes vacuously, whatever the status map holds. */
  lemma EmptyTargetIsDone(result: map<string, string>)
    ensures Done(map[], Ok(CheckResponseData(result)))
  {
  }

  /** One missing or empty entry is enough for "not done"; by `CheckWorkDone`'s
      contract, a decoded response then yields `Ok(false)`, an answer and not an error. */
  lemma MissingNameIsNotDone(searchTarget: map<string, string>, result: map<string, string>, name: string)
    requires name in searchTarget
    requires name !in result || result[name] == ""
    ensures !AllReported(searchTarget.Keys, result)
  {
  }
}
