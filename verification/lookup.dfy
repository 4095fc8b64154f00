/** `handle_isbn_lookup` and the command-line entry point of the tool:
    fetch, then either report a redirect, display a titled record, or
    report failure. */
module Lookup {
  import opened Wrappers
  import opened Text
  import opened Json
  import Py
  import IsbnFormat
  import Fetch
  import Display

  /** How a Python call ended: a return value, or an exception that
      propagates to the caller. */
  datatype Completion = Returned(success: bool) | Raised(error: Py.Exception)

  /** The lines printed, in order, and how the call ended. */
  datatype Run = Run(lines: seq<string>, completion: Completion)

  /** The redirect test as the tool writes it: a dict whose `type` is the
      string "/type/redirect" and whose `location` is truthy. */
  predicate IsRedirect(d: Json) {
    d.JObject? && Get(d.members, "type") == Some(JString("/type/redirect"))
    && Py.TruthyField(d.members, "location")
  }

  /** A dict with a truthy `title`. */
  predicate HasTitle(d: Json) {
    d.JObject? && Py.TruthyField(d.members, "title")
  }

  function RedirectMessage(original: string, d: Json): string
    requires IsRedirect(d)
  {
    "Information for ISBN " + original + " has been redirected. You may need to look up: "
    + Py.ToStr(Get(d.members, "location").value)
  }

  function NotDisplayableMessage(original: string): string {
    "No displayable information found for ISBN " + original
    + ", or the response was not structured as expected book data."
  }

  function FailedMessage(original: string): string {
    "Failed to retrieve book data for ISBN " + original + "."
  }

  /** `handle_isbn_lookup(normalized, original)`. The request is made for
      the normalised ISBN; messages name the ISBN as the user wrote it. */
  function HandleLookup(normalized: string, original: string, o: Fetch.HttpOutcome): (run: Run)
    // the call succeeds exactly for a redirect, or a titled record that displays without error
    ensures run.completion == Returned(true) <==>
      && Fetch.Classify(o).Success?
      && (IsRedirect(Fetch.Classify(o).value)
          || (HasTitle(Fetch.Classify(o).value) && Display.DisplayBookInfo(Fetch.Classify(o).value).Success?))
    // an exception can only come from displaying a titled, non-redirect record
    ensures run.completion.Raised? ==>
      && Fetch.Classify(o).Success?
      && !IsRedirect(Fetch.Classify(o).value) && HasTitle(Fetch.Classify(o).value)
      && Display.DisplayBookInfo(Fetch.Classify(o).value) == Failure(run.completion.error)
    // the fetch's own error line always comes first
    ensures Fetch.FetchBookData(normalized, o).lines <= run.lines
    // no data: the fetch's error line, then the failure line
    ensures Fetch.Classify(o).Failure? ==>
      run == Run(Fetch.FetchBookData(normalized, o).lines + [FailedMessage(original)], Returned(false))
    // a redirect: only the redirect notice, naming the location
    ensures Fetch.Classify(o).Success? && IsRedirect(Fetch.Classify(o).value) ==>
      run == Run([RedirectMessage(original, Fetch.Classify(o).value)], Returned(true))
    // a titled record that displays: exactly the display's lines
    ensures Fetch.Classify(o).Success? && !IsRedirect(Fetch.Classify(o).value)
            && HasTitle(Fetch.Classify(o).value)
            && Display.DisplayBookInfo(Fetch.Classify(o).value).Success? ==>
      run == Run(Display.DisplayBookInfo(Fetch.Classify(o).value).value, Returned(true))
    // a titled record whose display raises: nothing printed, the exception propagates
    ensures Fetch.Classify(o).Success? && !IsRedirect(Fetch.Classify(o).value)
            && HasTitle(Fetch.Classify(o).value)
            && Display.DisplayBookInfo(Fetch.Classify(o).value).Failure? ==>
      run == Run([], Raised(Display.DisplayBookInfo(Fetch.Classify(o).value).error))
    // data that is neither a redirect nor titled: the not-displayable line
    ensures Fetch.Classify(o).Success? && !IsRedirect(Fetch.Classify(o).value)
            && !HasTitle(Fetch.Classify(o).value) ==>
      run == Run([NotDisplayableMessage(original)], Returned(false))
  {
    var fetched := Fetch.FetchBookData(normalized, o);
    match fetched.data
    case None =>
      Run(fetched.lines + [FailedMessage(original)], Returned(false))
    case Some(d) =>
      if IsRedirect(d) then
        Run(fetched.lines + [RedirectMessage(original, d)], Returned(true))
      else if HasTitle(d) then
        match Display.DisplayBookInfo(d)
        case Success(lines) => Run(fetched.lines + lines, Returned(true))
        case Failure(e) => Run(fetched.lines, Raised(e))
      else
        Run(fetched.lines + [NotDisplayableMessage(original)], Returned(false))
  }

  /** Data that is not a dict (a non-empty list, a number, a string) is never
      a success. */
  lemma NonDictFails(normalized: string, original: string, o: Fetch.HttpOutcome)
    requires Fetch.Classify(o).Success? && !Fetch.Classify(o).value.JObject?
    ensures HandleLookup(normalized, original, o)
         == Run([NotDisplayableMessage(original)], Returned(false))
  {
  }

  /** A redirect is reported even when the record also has a title: the
      redirect test comes first and nothing is displayed. */
  lemma RedirectTakesPrecedence(normalized: string, original: string, o: Fetch.HttpOutcome)
    requires Fetch.Classify(o).Success?
    requires IsRedirect(Fetch.Classify(o).value) && HasTitle(Fetch.Classify(o).value)
    ensures HandleLookup(normalized, original, o)
         == Run([RedirectMessage(original, Fetch.Classify(o).value)], Returned(true))
  {
  }

  /** The not-found family of failed fetches: each prints its own line
      naming the ISBN, then the failure line, and the lookup returns
      false. */
  lemma NotFoundLookups(isbn: string, original: string, detail: string, text: string)
    requires text != ""
    ensures HandleLookup(isbn, original, Fetch.HttpError(404, detail))
         == Run(["Error: " + "ISBN " + isbn + " not found" + " (404 error).", FailedMessage(original)],
                Returned(false))
    ensures HandleLookup(isbn, original, Fetch.Delivered("", None))
         == Run(["Error: " + "ISBN " + isbn + " not found" + " or API returned an empty response.",
                 FailedMessage(original)], Returned(false))
    ensures HandleLookup(isbn, original, Fetch.Delivered(text, Some(JObject([]))))
         == Run(["Error: " + "ISBN " + isbn + " not found" + " or no data available.", FailedMessage(original)],
                Returned(false))
  {
    assert !Fetch.IsNotFoundMarker(JObject([]));
  }

  /** A request that fails outright, or a body that is not JSON: the line
      names the status and the exception's text, or the request URL, and
      the lookup returns false. */
  lemma FailedRequestLookups(isbn: string, original: string, status: int, detail: string, text: string)
    requires status != 404 && text != ""
    ensures HandleLookup(isbn, original, Fetch.HttpError(status, detail))
         == Run(["Error: " + "API request failed with status " + Decimal(status) + ": " + detail,
                 FailedMessage(original)], Returned(false))
    ensures HandleLookup(isbn, original, Fetch.TimedOut)
         == Run(["Error: " + "Request to Open Library API timed out accessing " + Fetch.ApiUrl(isbn),
                 FailedMessage(original)], Returned(false))
    ensures HandleLookup(isbn, original, Fetch.ConnectionFailed(detail))
         == Run(["Error: " + "Could not connect to Open Library API: " + detail, FailedMessage(original)],
                Returned(false))
    ensures HandleLookup(isbn, original, Fetch.Delivered(text, None))
         == Run(["Error: " + "Could not decode JSON response from " + Fetch.ApiUrl(isbn)
                 + ". The response might not be valid JSON.", FailedMessage(original)], Returned(false))
  {
  }

  /** A delivered record with a title and a key-only author list, as in the
      tool's successful-lookup test, prints the five display lines and
      succeeds. */
  lemma SuccessfulLookup(isbn: string, original: string, text: string,
                         title: string, key: string, date: string, pages: nat, publisher: string)
    requires text != "" && title != "" && key != "" && publisher != ""
    ensures HandleLookup(isbn, original,
              Fetch.Delivered(text, Some(Display.SampleRecord(title, key, date, pages, publisher))))
         == Run([
              "Title: " + title,
              "Author(s): " + Display.AuthorKeysText([key]),
              "Publish Date: " + date,
              "Number of Pages: " + Decimal(pages),
              "Publishers: " + publisher], Returned(true))
  {
    var d := Display.SampleRecord(title, key, date, pages, publisher);
    Display.SampleRecordLines(title, key, date, pages, publisher);
    GetFirst(d.members, "type");
    assert Get(d.members, "type") == None;
    assert HasTitle(d) && !IsRedirect(d);
    GetFirst(d.members, "error");
    var o := Fetch.Delivered(text, Some(d));
    assert Fetch.Classify(o) == Success(d);
    assert Fetch.FetchBookData(isbn, o) == Fetch.Fetched([], Some(d));
  }

  /** What running the script leaves behind: the lines printed and how the
      process ended. */
  datatype ExitStatus = Exited(code: int) | Crashed(error: Py.Exception)
  datatype Outcome = Outcome(lines: seq<string>, exit: ExitStatus)

  /** The entry point as written: the `__main__` block runs before
      `handle_isbn_lookup` is defined further down the module, so every
      valid ISBN ends in a `NameError`. */
  function EntryPointAsWritten(arg: string, o: Fetch.HttpOutcome): (r: Outcome)
    ensures IsbnFormat.IsValidIsbnFormat(arg) ==> r == Outcome([], Crashed(Py.NameError))
    ensures !IsbnFormat.IsValidIsbnFormat(arg) ==>
      r == Outcome([IsbnFormat.InvalidFormatMessage(arg)], Exited(1))
  {
    match IsbnFormat.NormalizeArgument(arg)
    case Failure(message) => Outcome([message], Exited(1))
    case Success(_) => Outcome([], Crashed(Py.NameError))
  }

  /** The lookup is never reached as written, whatever Open Library
      answers: the ISBN-13 of the tool's own test crashes. */
  lemma AsWrittenNeverLooksUp(arg: string, o: Fetch.HttpOutcome)
    requires arg == "9780123456789"
    ensures EntryPointAsWritten(arg, o).exit == Crashed(Py.NameError)
    ensures EntryPointAsWritten(arg, o).lines == []
  {
    IsbnFormat.AcceptedDigitRuns("0123456789", arg);
  }

  /** The entry point as evidently intended: validate, normalise, look up,
      and exit with status 1 when the lookup fails (the two statements left
      unreachable at the end of `handle_isbn_lookup`). */
  function EntryPoint(arg: string, o: Fetch.HttpOutcome): (r: Outcome)
    ensures !IsbnFormat.IsValidIsbnFormat(arg) ==>
      r == Outcome([IsbnFormat.InvalidFormatMessage(arg)], Exited(1))
    ensures IsbnFormat.IsValidIsbnFormat(arg) ==>
      var run := HandleLookup(IsbnFormat.Normalize(arg), arg, o);
      && r.lines == run.lines
      && (r.exit == Exited(0) <==> run.completion == Returned(true))
      && (r.exit == Exited(1) <==> run.completion == Returned(false))
    // an exception from the lookup propagates out of the script
    ensures IsbnFormat.IsValidIsbnFormat(arg) && HandleLookup(IsbnFormat.Normalize(arg), arg, o).completion.Raised? ==>
      r.exit == Crashed(HandleLookup(IsbnFormat.Normalize(arg), arg, o).completion.error)
  {
    match IsbnFormat.NormalizeArgument(arg)
    case Failure(message) => Outcome([message], Exited(1))
    case Success(normalized) =>
      var run := HandleLookup(normalized, arg, o);
      match run.completion
      case Returned(ok) => Outcome(run.lines, Exited(if ok then 0 else 1))
      case Raised(e) => Outcome(run.lines, Crashed(e))
  }

  /** With the entry point corrected, the request goes out for the ISBN
      without hyphens, and the exit status reports whether the lookup
      succeeded. */
  lemma EntryPointLooksUpNormalized(arg: string, o: Fetch.HttpOutcome)
    requires IsbnFormat.IsValidIsbnFormat(arg)
    ensures EntryPoint(arg, o).exit == Exited(0) <==>
      && Fetch.Classify(o).Success?
      && (IsRedirect(Fetch.Classify(o).value)
          || (HasTitle(Fetch.Classify(o).value) && Display.DisplayBookInfo(Fetch.Classify(o).value).Success?))
    ensures IsbnFormat.Hyphen !in IsbnFormat.Normalize(arg)
  {
  }

  /** Open Library marks a redirect record with `"type": {"key":
      "/type/redirect"}` (the shape the repository's server route tests
      for). The tool compares `type` with a plain string, so such a record
      without a title is reported as not displayable. */
  lemma NestedRedirectNotRecognised(normalized: string, original: string, text: string, location: string)
    requires text != "" && location != ""
    ensures HandleLookup(normalized, original, Fetch.Delivered(text, Some(JObject([
              Member("type", JObject([Member("key", JString("/type/redirect"))])),
              Member("location", JString(location))]))))
         == Run([NotDisplayableMessage(original)], Returned(false))
  {
    var d := JObject([
              Member("type", JObject([Member("key", JString("/type/redirect"))])),
              Member("location", JString(location))]);
    assert Get(d.members, "type") == Some(JObject([Member("key", JString("/type/redirect"))]));
    GetFirst(d.members, "title");
    assert Get(d.members, "title") == None;
    GetFirst(d.members, "error");
    assert !IsRedirect(d) && !HasTitle(d);
    var o := Fetch.Delivered(text, Some(d));
    assert Fetch.Classify(o) == Success(d);
    assert Fetch.FetchBookData(normalized, o) == Fetch.Fetched([], Some(d));
  }
}
