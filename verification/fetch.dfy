/** `fetch_book_data` of the command-line tool: how one request to Open
    Library ends, as a classification of an abstract HTTP outcome into the
    parsed book record or an error message. */
module Fetch {
  import opened Wrappers
  import opened Text
  import opened Json
  import Py

  /** How the request ended. The request itself, its ten-second timeout
      and JSON parsing happen outside the model. */
  datatype HttpOutcome =
      /** `raise_for_status` raised: the status and the exception's text. */
    | HttpError(status: int, detail: string)
    | TimedOut
      /** Any other `requests` failure, with the exception's text. */
    | ConnectionFailed(detail: string)
      /** A successful status with the body text; `body` is `None` when the
          text is not valid JSON. */
    | Delivered(text: string, body: Option<Json>)

  /** Why no data was returned, one case per error message. */
  datatype FetchFailure =
    | NotFoundStatus
    | BadStatus(status: int, detail: string)
    | EmptyResponse
    | NotFoundMarker
    | NoData
    | RequestTimedOut
    | Unreachable(detail: string)
    | Undecodable

  /** Open Library's way of saying "not found" in a 200 response. */
  predicate IsNotFoundMarker(v: Json) {
    v.JObject? && Get(v.members, "error") == Some(JString("notfound"))
  }

  /** The outcome classified: data is passed through only for a delivered,
      non-empty, decodable, truthy body that is not the not-found marker. */
  function Classify(o: HttpOutcome): (r: Result<Json, FetchFailure>)
    ensures r.Success? <==>
      && o.Delivered? && o.text != "" && o.body.Some?
      && Py.Truthy(o.body.value) && !IsNotFoundMarker(o.body.value)
    ensures r.Success? ==> r.value == o.body.value
    ensures o.HttpError? ==> (r == Failure(NotFoundStatus) <==> o.status == 404)
    ensures o.HttpError? && o.status != 404 ==> r == Failure(BadStatus(o.status, o.detail))
    ensures o.Delivered? && o.text == "" ==> r == Failure(EmptyResponse)
    ensures o.TimedOut? ==> r == Failure(RequestTimedOut)
    ensures o.ConnectionFailed? ==> r == Failure(Unreachable(o.detail))
    ensures o.Delivered? && o.text != "" && o.body.None? ==> r == Failure(Undecodable)
    // a decoded body: the marker first, then falsiness
    ensures o.Delivered? && o.text != "" && o.body.Some? && IsNotFoundMarker(o.body.value) ==>
      r == Failure(NotFoundMarker)
    ensures o.Delivered? && o.text != "" && o.body.Some? && !IsNotFoundMarker(o.body.value)
            && !Py.Truthy(o.body.value) ==>
      r == Failure(NoData)
  {
    match o
    case HttpError(status, detail) =>
      if status == 404 then Failure(NotFoundStatus) else Failure(BadStatus(status, detail))
    case TimedOut => Failure(RequestTimedOut)
    case ConnectionFailed(detail) => Failure(Unreachable(detail))
    case Delivered(text, body) =>
      if text == "" then Failure(EmptyResponse)
      else if body.None? then Failure(Undecodable)
      else if IsNotFoundMarker(body.value) then Failure(NotFoundMarker)
      else if !Py.Truthy(body.value) then Failure(NoData)
      else Success(body.value)
  }

  function ApiUrl(isbn: string): string {
    "https://openlibrary.org/isbn/" + isbn + ".json"
  }

  /** The line printed for each failure. */
  function FailureMessage(isbn: string, f: FetchFailure): (r: string)
    ensures "Error: " <= r
    // the not-found family names the ISBN that was looked up
    ensures f.NotFoundStatus? || f.EmptyResponse? || f.NotFoundMarker? || f.NoData? ==>
      NotFoundPrefix(isbn) <= r
  {
    match f
    case NotFoundStatus => NotFoundPrefix(isbn) + " (404 error)."
    case BadStatus(status, detail) =>
      "Error: " + "API request failed with status " + Decimal(status) + ": " + detail
    case EmptyResponse => NotFoundPrefix(isbn) + " or API returned an empty response."
    case NotFoundMarker => NotFoundPrefix(isbn) + "."
    case NoData => NotFoundPrefix(isbn) + " or no data available."
    case RequestTimedOut => "Error: " + "Request to Open Library API timed out accessing " + ApiUrl(isbn)
    case Unreachable(detail) => "Error: " + "Could not connect to Open Library API: " + detail
    case Undecodable =>
      "Error: " + "Could not decode JSON response from " + ApiUrl(isbn)
      + ". The response might not be valid JSON."
  }

  /** The opening shared by the not-found messages. */
  function NotFoundPrefix(isbn: string): (r: string)
    ensures "Error: " <= r
  {
    "Error: " + "ISBN " + isbn + " not found"
  }

  /** What `fetch_book_data` prints and returns. */
  datatype Fetched = Fetched(lines: seq<string>, data: Option<Json>)

  /** `fetch_book_data(isbn)`: the parsed record unchanged, or `None` with
      exactly one error line. Whatever it returns is truthy, so its caller's
      `if book_data` test is the same as "data was returned". */
  function FetchBookData(isbn: string, o: HttpOutcome): (r: Fetched)
    ensures r.data.Some? <==> Classify(o).Success?
    ensures r.data.Some? ==> r.data.value == o.body.value && Py.Truthy(r.data.value)
    ensures r.data.Some? ==> r.lines == []
    ensures r.data.None? ==> r.lines == [FailureMessage(isbn, Classify(o).error)]
  {
    match Classify(o)
    case Success(v) => Fetched([], Some(v))
    case Failure(f) => Fetched([FailureMessage(isbn, f)], None)
  }

  /** The cases of the tool's tests: a 404 and the not-found marker in a
      200 response each print their own message and return no data. */
  lemma NotFoundOutcomes(isbn: string, detail: string, text: string)
    requires text != ""
    ensures FetchBookData(isbn, HttpError(404, detail))
         == Fetched(["Error: ISBN " + isbn + " not found (404 error)."], None)
    ensures FetchBookData(isbn, Delivered(text, Some(JObject([Member("error", JString("notfound"))]))))
         == Fetched(["Error: ISBN " + isbn + " not found."], None)
  {
    var marker := JObject([Member("error", JString("notfound"))]);
    assert IsNotFoundMarker(marker);
    assert "Error: " + "ISBN " == "Error: ISBN ";
    assert " not found" + " (404 error)." == " not found (404 error).";
    assert " not found" + "." == " not found.";
    assert NotFoundPrefix(isbn) + " (404 error)." == "Error: ISBN " + isbn + (" not found" + " (404 error).");
    assert NotFoundPrefix(isbn) + "." == "Error: ISBN " + isbn + (" not found" + ".");
  }
}
