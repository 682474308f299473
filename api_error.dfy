/** The client's `ApiErrorResponse`: the backend's error envelope and the one-line message
    the client shows for it. The details map is given by its entries in iteration order. */
module ApiErrors {
  import opened Wrappers
  import opened Strings

  datatype ErrorDetails = ErrorDetails(
    code: string,
    timestamp: int,
    message: string,
    details: Option<seq<(string, string)>>)

  datatype ApiErrorResponse = ApiErrorResponse(success: bool, error: ErrorDetails)

  /** `getValidationErrors()`: the details, or none when the envelope has no details. */
  function ValidationErrors(r: ApiErrorResponse): (entries: seq<(string, string)>)
    ensures r.error.details.None? ==> entries == []
    ensures r.error.details.Some? ==> entries == r.error.details.value
  {
    r.error.details.GetOr([])
  }

  /** One entry as `field: message`. */
  function Rendered(entries: seq<(string, string)>): (parts: seq<string>)
    ensures |parts| == |entries|
    ensures forall k :: 0 <= k < |entries| ==> parts[k] == entries[k].0 + ": " + entries[k].1
  {
    seq(|entries|, k requires 0 <= k < |entries| => entries[k].0 + ": " + entries[k].1)
  }

  /** `getFormattedErrorMessage()`: the message alone when there are no validation errors
      (no details or an empty map), otherwise the message, " - ", and the rendered entries
      joined by "; ". */
  function FormattedErrorMessage(r: ApiErrorResponse): (s: string)
    ensures |ValidationErrors(r)| == 0 ==> s == r.error.message
    ensures |ValidationErrors(r)| > 0 ==> s == r.error.message + " - " + Join(Rendered(ValidationErrors(r)), "; ")
  {
    var validationErrors := ValidationErrors(r);
    if |validationErrors| > 0 then
      r.error.message + " - " + Join(Rendered(validationErrors), "; ")
    else r.error.message
  }

  /** The details text holds one segment per entry: when no field name or message contains
      a semicolon, the separators number one fewer than the entries. */
  lemma SegmentPerEntry(r: ApiErrorResponse)
    requires |ValidationErrors(r)| > 0
    requires forall k :: 0 <= k < |ValidationErrors(r)| ==> ';' !in ValidationErrors(r)[k].0 && ';' !in ValidationErrors(r)[k].1
    ensures CountChar(Join(Rendered(ValidationErrors(r)), "; "), ';') == |ValidationErrors(r)| - 1
  {
    var entries := ValidationErrors(r);
    var parts := Rendered(entries);
    forall k | 0 <= k < |parts|
      ensures ';' !in parts[k]
    {
      assert parts[k] == entries[k].0 + ": " + entries[k].1;
    }
    JoinCount(parts, "; ", ';');
  }
}
