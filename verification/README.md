# ISBN lookup — a Dafny model

This project models the decision logic of a small ISBN lookup tool. The tool has two front ends.

- A Python command-line script (`isbn_lookup.py`). It validates an ISBN, asks the Open Library API for the book, classifies the response and prints the book's details.
- A browser page (`nextjs-app/src/app/page.js`). It validates the typed ISBN, asks the server for the book, and shows either an error or the book's details.

Both front ends are modelled as pure functions over immutable data.

- JSON values are a `Json` datatype. An object is a sequence of members, and lookup takes the first member with the key.
- Every outcome of an HTTP request is an `HttpOutcome` value, or a `Reply` value on the page.
- Each line the script would print is an element of a returned sequence.
- Each call of a React state setter is an `Update`, applied in order.
- Python exceptions raised while formatting become `Failure` values. So do JavaScript exceptions.
- The truthiness and string conversion rules of the two languages are modelled separately. They differ: an empty JavaScript array is truthy, an empty Python list is not.

Modules:

- `Wrappers`: `Option` and `Result`.
- `Text`: character removal, joining, decimal text, first-occurrence removal, trimming.
- `Json`: the value datatype and member lookup.
- `Py`: Python's truthiness, `str()`, and `str.join` over a JSON value.
- `Js`: JavaScript's truthiness, `String()`, and `Array.prototype.join`.
- `IsbnFormat`: the two ISBN format checks.
- `Fetch`: classification of the API response.
- `Display`: the five printed detail lines.
- `Lookup`: the lookup handler and the command-line entry point.
- `Page`: one form submission on the page, and the results area.

## Model

| member | source | states |
|---|---|---|
| IsbnFormat.ValidFormatIff | isbn_lookup.py:6-13 | a string is a valid format iff every character is an ASCII digit or a hyphen and the number of digits is 10 or 13 |
| IsbnFormat.IsValidIsbnFormat | isbn_lookup.py:6-13 | a valid string holds only digits and hyphens and is at least ten characters long |
| IsbnFormat.NormalizedDigits | isbn_lookup.py:10-12 | the hyphen-free string is all digits iff every character of the input is a digit or a hyphen |
| IsbnFormat.HyphenInsensitive | isbn_lookup.py:10 | inserting a hyphen anywhere changes neither the normalised string nor validity |
| IsbnFormat.InsertHyphen | isbn_lookup.py:10 | validity is unchanged by a hyphen inserted at any position of any string |
| IsbnFormat.RejectsOtherCharacter | isbn_lookup.py:11-12 | one character that is neither a digit nor a hyphen makes any string invalid, including a trailing X check character |
| IsbnFormat.DigitRunLength | isbn_lookup.py:13 | a string of digits is valid iff its length is 10 or 13 |
| IsbnFormat.NormalizeArgument | isbn_lookup.py:114-119 | the argument is accepted iff it is a valid format; an accepted argument becomes a hyphen-free string of exactly 10 or 13 digits with the same characters apart from hyphens; a rejected one gets the invalid-format message naming the argument |
| IsbnFormat.ClientPatternIsHyphenFreeFormat | nextjs-app/src/app/page.js:23 | the page's pattern accepts a string iff the command-line check accepts it and it has no hyphen |
| IsbnFormat.GroupedIsbn10 | isbn_lookup.py:10-13 | any ten digits grouped with hyphens as 1-3-5-1 pass the command-line check and fail the page's pattern |
| IsbnFormat.HyphenatedGroups4 | isbn_lookup.py:10-13 | joining four groups with hyphens gives the same verdict as joining them directly |
| IsbnFormat.HyphenatedGroups | isbn_lookup.py:10-13 | joining five groups with hyphens gives the same verdict as joining them directly |
| IsbnFormat.GroupedIsbn13 | isbn_lookup.py:10-13 | any thirteen digits grouped with hyphens as 3-1-3-5-1 pass the command-line check |
| IsbnFormat.HyphenatedAcceptedOnlyByCommandLine | nextjs-app/src/app/page.js:23 | the test's "0-123-45678-9" passes the command-line check but not the page's pattern, so the converse of the cross-front-end inclusion fails |
| IsbnFormat.AcceptedDigitRuns | test_isbn_lookup.py:37-41 | "0123456789" and "9780123456789" are valid |
| IsbnFormat.AcceptedHyphenatedIsbn13 | test_isbn_lookup.py:43-45 | "978-0-123-45678-9" is valid |
| IsbnFormat.RejectedLengths | test_isbn_lookup.py:47-51 | digit strings of lengths 5 and 16 are invalid |
| IsbnFormat.RejectedCheckCharacter | test_isbn_lookup.py:53-55 | "978-012345678X" is invalid |
| IsbnFormat.RejectedLetters | test_isbn_lookup.py:56-59 | "abcdefghij" and "978-A-123-45678-9" are invalid |
| Fetch.Classify | isbn_lookup.py:20-55 | data comes back iff the response was delivered with non-empty text, a decodable body that is truthy and not an object whose error is "notfound"; the data is that body unchanged; a 404 status and only a 404 is "not found"; any other status is a failed request with that status and the exception text; empty text is an empty response; a timeout is a timeout; any other request failure is an unreachable API with its text; text that is not JSON is undecodable; a decoded notfound marker is "not found" even when falsy; any other falsy body is "no data" |
| Fetch.FetchBookData | isbn_lookup.py:15-55 | data is returned iff classification succeeds, it is truthy and nothing is printed; otherwise exactly one error line for the failure is printed and nothing is returned |
| Fetch.FailureMessage | isbn_lookup.py:26-54 | every failure line starts with "Error: "; the 404, empty-response, notfound-marker and no-data lines start with "Error: ISBN <isbn> not found" |
| Fetch.NotFoundOutcomes | test_isbn_lookup.py:90-114 | a 404 prints the "not found (404 error)" line and a notfound marker prints the "not found." line, and neither returns data |
| Display.TruthyValues | isbn_lookup.py:79-82 | the kept values are truthy, no more than the authors, and none are kept iff no author has a truthy value for the key |
| Display.TruthyValuesAppend | isbn_lookup.py:79-82 | filtering a concatenation of author lists is the concatenation of the filtered lists |
| Display.TruthyValuesSingle | isbn_lookup.py:79-82 | one author contributes its value under the key iff that value is truthy |
| Display.TruthyStrings | isbn_lookup.py:79-82 | if every truthy value under the key is a string, every kept value is a string |
| Display.AuthorsText | isbn_lookup.py:67-90 | a missing or falsy authors value is "Not available"; a non-empty list holding a non-dictionary raises AttributeError; a non-empty list of dictionaries gives the name-then-key text; a truthy string or dictionary raises AttributeError; a truthy number or boolean raises TypeError |
| Display.RecordsText | isbn_lookup.py:79-88 | for a list of dictionaries, the only exception is a TypeError; it is raised exactly when the kept names hold a non-string, or there are no kept names and the kept keys hold a non-string |
| Display.TruthyValueKept | isbn_lookup.py:79-82 | every truthy value under the key is among the kept values |
| Display.NonStringNameRaises | isbn_lookup.py:79-88 | one truthy name that is not a string makes the authors text raise a TypeError |
| Display.NonStringKeyRaises | isbn_lookup.py:80-84 | with no truthy name, one truthy key that is not a string makes the authors text raise a TypeError |
| Display.NamesShown | isbn_lookup.py:79-88 | when some author has a truthy name and all truthy names are strings, the text is the truthy names joined by ", " in order, unnamed authors skipped |
| Display.KeysShown | isbn_lookup.py:80-84 | when no author has a truthy name but some has a truthy key, and those keys are strings, the text lists the truthy keys in the "Author keys: … (Further lookup needed for names)" form |
| Display.NamedBeforeKeyed | isbn_lookup.py:79-88 | of a named author and a keyed author, only the name is shown |
| Display.KeyedBesideEmpty | isbn_lookup.py:80-84 | a keyed author beside an author with neither field shows only that key |
| Display.AllNamed | isbn_lookup.py:79-88 | when every author has a name, the text is exactly the names joined by ", " |
| Display.TextValues | isbn_lookup.py:79-82 | when every author has non-empty text under a key, filtering keeps all of them in order |
| Display.AllKeyed | isbn_lookup.py:80-84 | when no author has a name but every one has a key, the text lists the keys in the "Author keys: … (Further lookup needed for names)" form |
| Display.NeitherNamedNorKeyed | isbn_lookup.py:85-86 | authors with neither a truthy name nor a truthy key give "Not available" |
| Display.NamePrecedence | isbn_lookup.py:79-88 | if any author has a name, the keys are never shown |
| Display.FieldText | isbn_lookup.py:92-93 | a missing field is "Not available" and a string field is shown verbatim |
| Display.PublishersText | isbn_lookup.py:96-100 | missing or falsy publishers are "Not available"; a truthy value is joined with ", " as `str.join` does; it raises, always a TypeError, exactly for a number, a boolean or a list holding a non-string; a non-empty list of strings is joined in order |
| Display.DisplayBookInfo | isbn_lookup.py:57-106 | falsy data prints "No data to display."; truthy data that is not a dictionary raises; a dictionary prints exactly five lines, the Title, Author(s), Publish Date, Number of Pages and Publishers lines in that order, each with its field's text, unless the authors or the publishers raise; the exception raised is the authors text's own, or else the publishers text's |
| Display.TitleOnly | isbn_lookup.py:65-106 | a record with only a title prints that title and "Not available" on every other line |
| Display.SampleRecordLines | test_isbn_lookup.py:71-88 | a record shaped like the test's sample prints its title, its author key, its date, its page count and its publisher |
| Lookup.HandleLookup | isbn_lookup.py:123-144 | the lookup succeeds iff the fetched data is a redirect, or is a titled dictionary whose details print; a failed fetch prints its error line and the "Failed to retrieve" line and returns false; a redirect prints only the redirect line naming the location and returns true; a titled non-redirect prints exactly the display lines and returns true, or raises the display's exception with nothing printed; any other data prints the "No displayable information" line and returns false |
| Lookup.NotFoundLookups | isbn_lookup.py:26-44 | a 404, an empty response and an empty dictionary each print their "Error: ISBN <isbn> not found" line, then the "Failed to retrieve" line, and the lookup returns false |
| Lookup.FailedRequestLookups | isbn_lookup.py:42-54 | another error status prints the status and the exception text; a timeout and an undecodable body print the request URL; a connection failure prints its text; each is followed by the "Failed to retrieve" line and the lookup returns false |
| Lookup.NonDictFails | isbn_lookup.py:130-139 | fetched data that is not a dictionary gives the "No displayable information" line and false |
| Lookup.RedirectTakesPrecedence | isbn_lookup.py:131-134 | a redirect that also has a title prints only the redirect line and succeeds |
| Lookup.SuccessfulLookup | test_isbn_lookup.py:70-88 | the test's sample record, delivered with status 200, prints its five detail lines and succeeds |
| Lookup.NestedRedirectNotRecognised | isbn_lookup.py:131 | a record whose type is an object with key "/type/redirect" and no title is reported as not displayable |
| Lookup.EntryPointAsWritten | isbn_lookup.py:109-121 | a valid argument ends in a NameError before anything is printed; an invalid one prints the invalid-format line and exits 1 |
| Lookup.AsWrittenNeverLooksUp | isbn_lookup.py:114-123 | for the test's ISBN 9780123456789 the script as written crashes with no output |
| Lookup.EntryPoint | isbn_lookup.py:109-146 | with the handler defined first, an invalid argument exits 1 with the format message; a valid one runs the lookup on the hyphen-free argument and exits 0 iff the lookup returned true, 1 iff it returned false, and crashes with the lookup's exception when it raised |
| Lookup.EntryPointLooksUpNormalized | isbn_lookup.py:118-121 | a valid argument is looked up without hyphens, and the exit status is 0 exactly for successful lookups |
| Page.Validate | nextjs-app/src/app/page.js:17-27 | blank input and only blank input gives "ISBN cannot be empty."; the input passes iff its trimmed form is exactly 10 or 13 ASCII digits; what passes is the trimmed form and is also accepted by the command-line check |
| Page.Headline | nextjs-app/src/app/page.js:36 | the headline is the first truthy of message and error, or "Error: <status>", as a string |
| Page.LocationDetails | nextjs-app/src/app/page.js:37 | the location suffix is empty iff the location is falsy |
| Page.ReplyError | nextjs-app/src/app/page.js:31-38 | composing the error message throws iff the parsed body is null |
| Page.ErrorPrecedence | nextjs-app/src/app/page.js:36-38 | the message wins over the error, which wins over "Error: <status>", and the location suffix follows whichever was chosen |
| Page.RedirectReplyShowsMessageAndLocation | nextjs-app/src/app/page.js:36-38 | a body with an error, a message and a location shows the message and the location, not the error |
| Page.ReplyUpdates | nextjs-app/src/app/page.js:29-45 | a request makes exactly one state update besides loading; it sets book data iff the reply is ok with a parsable body, and that data is the body; a network failure or an unparsable body sets the failed-fetch message; an error body sets its composed error text, or the failed-fetch message when composing throws |
| Page.SubmitUpdates | nextjs-app/src/app/page.js:11-49 | every submission makes five updates: loading on, error cleared, data cleared, one outcome update, loading off; the outcome is the validation message when validation fails, and the reply's update when it passes |
| Page.RequestedIsbn | nextjs-app/src/app/page.js:23-30 | a request is made iff validation passes; the requested ISBN is the trimmed input, and it matches the page's pattern and the command-line check |
| Page.PlainIsbnRequested | nextjs-app/src/app/page.js:17-30 | ten or thirteen bare digits pass validation and are requested exactly as typed |
| Page.Submit | nextjs-app/src/app/page.js:11-49 | after a submission loading is false, the typed ISBN is kept, the error and the book data are never both set, book data comes only from an ok reply to a request, blank input gives the empty message and a bad format gives the format message; an ok parsable reply to a request shows that body with no error; an error body shows its composed error text, or the failed-fetch message when composing throws, with no book data |
| Page.FiveUpdates | nextjs-app/src/app/page.js:13-48 | applying five updates in sequence is applying each in turn |
| Page.FetchFailures | nextjs-app/src/app/page.js:42-45 | a network failure, an unparsable body and a null error body each show the failed-fetch message |
| Page.FirstTruthy | nextjs-app/src/app/page.js:92-95 | the fallback appears when no candidate is truthy; any other result is a truthy candidate |
| Page.FirstTruthyWins | nextjs-app/src/app/page.js:92-95 | a truthy candidate preceded only by falsy ones is the result |
| Page.DetailsAnd | nextjs-app/src/app/page.js:94-96 | a truthy value comes only from a truthy details record's own member |
| Page.TitleShown | nextjs-app/src/app/page.js:92 | the title shown is truthy and is either the title or "N/A" |
| Page.FallbackShown | nextjs-app/src/app/page.js:94-95 | the value shown is truthy; a truthy top-level field wins; otherwise it comes from the details record or is "N/A" |
| Page.FallbackOrder | nextjs-app/src/app/page.js:92-95 | title, publish date and page count equal the first truthy value of their fallback chains |
| Page.AuthorShown | nextjs-app/src/app/page.js:93 | a truthy name is shown; otherwise it succeeds iff the key is a string, and shows the key with its first "/authors/" removed; a null author throws |
| Page.AuthorsShown | nextjs-app/src/app/page.js:93 | mapping succeeds iff every author succeeds, and then yields one text per author in order |
| Page.AuthorsLine | nextjs-app/src/app/page.js:93 | falsy authors show "N/A"; truthy authors that are not an array throw; an array succeeds iff every author succeeds, and shows their texts joined by ", " |
| Page.KeyedAuthorsShowIds | nextjs-app/src/app/page.js:93 | authors that have only a "/authors/<id>" key are shown as their bare ids |
| Page.PublishersLine | nextjs-app/src/app/page.js:96 | truthy top-level publishers are joined with ", "; a failure needs some truthy publishers value |
| Page.PublishersFallback | nextjs-app/src/app/page.js:96 | the line joins the first truthy of publishers and details.publishers, and is "N/A" when neither is truthy |
| Page.ResultsShown | nextjs-app/src/app/page.js:88-96 | the results area appears iff the book data is truthy; it renders iff neither the authors line nor the publishers line throws; when it renders, its values are the title, the authors line, the publish date and page count fallbacks and the publishers line |
| Page.AtMostOneArea | nextjs-app/src/app/page.js:81-88 | after a submission the error area and the results area never both appear |
| Text.RemoveChar | isbn_lookup.py:10 | removing a character leaves none of it, shortens by its count and keeps every other character |
| Text.RemoveCharAppend | isbn_lookup.py:10 | removing a character distributes over concatenation |
| Text.Trim | nextjs-app/src/app/page.js:17 | the trimmed string has no space at either end and is a contiguous part of the input with only spaces cut off |
| Text.TrimBlank | nextjs-app/src/app/page.js:17 | the trimmed string is empty iff every character is a space |
| Text.RemoveFirst | nextjs-app/src/app/page.js:93 | without an occurrence the string is unchanged; with one, exactly the first occurrence is cut out |
| Text.RemoveFirstOfPrefix | nextjs-app/src/app/page.js:93 | removing the first occurrence of a prefix leaves what follows it |
| Text.DecimalRoundTrip | nextjs-app/src/app/page.js:36 | the decimal text of a status reads back as that status, with a leading minus for a negative one |
| Py.JoinValue | isbn_lookup.py:96-100 | join raises a TypeError iff the value is null, a boolean, a number or a list holding a non-string; a list of strings is joined in order |
| Js.ArrayJoin | nextjs-app/src/app/page.js:96 | only an array can be joined; an array of strings gives those strings joined by the separator in order |
| Js.ArrayToStr | nextjs-app/src/app/page.js:93 | `String()` of an array is its join with "," |

## Left out

- The HTTP requests are left out, both `requests.get` and the page's `fetch`. So are the URL and the timeout. Responses are the abstract values `HttpOutcome` and `Reply`.
- JSON parsing is left out. The parsed value is given with the response, and a decode failure is a body of `None`.
- An `HttpError` outcome may carry any status. `raise_for_status` raises only for statuses 400 to 599.
- A body that is not valid JSON is always classified as undecodable, which is what the tool's tests expect. In recent versions of `requests`, the decode error is also a `RequestException`, so the earlier `except` clause at isbn_lookup.py:50 would catch it first. That depends on the library's version, which is not part of this model.
- The exception texts that `requests` attaches to an HTTP or connection error are given as strings.
- Printing, standard output, `argparse` and `sys.exit` are left out. Printed lines are returned, and an exit is an `Exited` value.
- React's hooks, `async`/`await`, `console.error`, JSX and styling are left out. The page is a state value and a sequence of updates. The `loading` flag disabling the form during a request is not modelled.
- Rendering a JSON object or array as a React child is not modelled. React would refuse an object there.
- Floating-point numbers are left out. JSON numbers are integers.
- Unicode digits (`str.isdigit`) are left out. Only ASCII digits count as digits.
- The exact whitespace set of `String.prototype.trim` is a parameter `isSpace`.
- Py.Repr: puts strings between single quotes without Python's escaping of quotes and control characters. Python also switches to double quotes for a string that contains a single quote; the model does not.
- Duplicate keys in a JSON object are not modelled. Lookup takes the first member with the key; Python and JavaScript keep the last.
- The server route that the page calls is not part of this model. Its replies are arbitrary `Reply` values.
- Display.AuthorsText: its own contract states the "Not available" case, every error case, and that a list of dictionaries goes to Display.RecordsText. The success forms are stated by Display.NamesShown, Display.KeysShown and Display.NeitherNamedNorKeyed, for lists of dictionaries whose truthy names and keys are strings. A truthy name or key that is not a string is stated by Display.RecordsText, Display.NonStringNameRaises and Display.NonStringKeyRaises, as a TypeError.
- Display.FieldText: its contract states the text exactly only for a missing field and a string field. Other values go through the modelled `str()`.
- Page.PublishersLine: its own contract states only the top-level branch and the failure condition. Page.PublishersFallback states the whole chain.

## Findings

| source | as written | input that shows it | evidently intended | confidence | as-written member | corrected member |
|---|---|---|---|---|---|---|
| isbn_lookup.py:109-146 | the `__main__` block calls `handle_isbn_lookup` at line 121, but the function is defined only at line 123, after the block has run. The exit-status check at lines 145-146 sits unreachable inside the function body | `python isbn_lookup.py 9780123456789`: any valid ISBN raises NameError before any lookup or output | look up the hyphen-free ISBN, then exit with status 1 when the lookup returns false | high, not executed | Lookup.EntryPointAsWritten, Lookup.AsWrittenNeverLooksUp | Lookup.EntryPoint, Lookup.EntryPointLooksUpNormalized |

There is also an observation that is not a defect claim. The redirect check at isbn_lookup.py:131 compares `type` with the string "/type/redirect". Open Library sends `type` as an object with a `key` member. The server route of the page checks `type.key` instead. `Lookup.NestedRedirectNotRecognised` shows that the command-line tool reports such a record as not displayable.
