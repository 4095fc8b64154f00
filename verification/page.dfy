/** The lookup page of the browser front end: what one form submission does
    to the page's state, and which values the results area shows. React's
    state hooks are modelled as a sequence of updates applied in order. */
module Page {
  import opened Wrappers
  import opened Text
  import opened Json
  import Js
  import IsbnFormat

  /** The page's state variables. `bookData` is `null` when cleared. */
  datatype PageState = PageState(isbn: string, bookData: Json, error: string, loading: bool)

  /** One call of a state setter. */
  datatype Update = SetLoading(on: bool) | SetError(message: string) | SetBookData(data: Json)

  /** What the request to the server route produced: a network failure, or
      a response with its status and its body (`None` when the body is not
      valid JSON). */
  datatype Reply = NetworkFailure | Reply(status: int, body: Option<Json>)

  const EmptyMessage := "ISBN cannot be empty."
  const FormatMessage := "Invalid ISBN format. Must be 10 or 13 digits."
  const FetchFailedMessage :=
    "Failed to fetch book data. Check your network connection or the API may be down."

  function Apply(s: PageState, u: Update): PageState {
    match u
    case SetLoading(on) => s.(loading := on)
    case SetError(message) => s.(error := message)
    case SetBookData(data) => s.(bookData := data)
  }

  function ApplyAll(s: PageState, us: seq<Update>): PageState
    decreases |us|
  {
    if us == [] then s else ApplyAll(Apply(s, us[0]), us[1..])
  }

  /** The checks made before any request: blank input first, then the
      pattern. On success the trimmed ISBN is what gets requested. */
  function Validate(isbn: string, isSpace: char -> bool): (r: Result<string, string>)
    ensures r == Failure(EmptyMessage) <==> forall i :: 0 <= i < |isbn| ==> isSpace(isbn[i])
    ensures r.Success? <==> IsbnFormat.MatchesClientPattern(Trim(isbn, isSpace))
    ensures r.Success? ==> r.value == Trim(isbn, isSpace) && IsbnFormat.IsValidIsbnFormat(r.value)
    ensures r.Failure? ==> r.error == EmptyMessage || r.error == FormatMessage
  {
    var t := Trim(isbn, isSpace);
    TrimBlank(isbn, isSpace);
    IsbnFormat.ClientPatternIsHyphenFreeFormat(t);
    if t == [] then Failure(EmptyMessage)
    else if !IsbnFormat.MatchesClientPattern(t) then Failure(FormatMessage)
    else Success(t)
  }

  /** `response.ok`. */
  predicate IsOk(status: int) {
    200 <= status <= 299
  }

  /** `data.message || data.error || `Error: ${status}``, as text. */
  function Headline(message: Option<Json>, error: Option<Json>, status: int): (r: string)
    ensures r == Js.ToStr(FirstTruthy([message, error], JString("Error: " + Decimal(status))))
  {
    assert [message, error][1..][1..] == [];
    if Js.TruthyOpt(message) then Js.ToStr(message.value)
    else if Js.TruthyOpt(error) then Js.ToStr(error.value)
    else "Error: " + Decimal(status)
  }

  /** `data.location ? ` (Location: ${data.location})` : ''`. */
  function LocationDetails(location: Option<Json>): (r: string)
    ensures r == "" <==> !Js.TruthyOpt(location)
    ensures r != "" ==> r == " (Location: " + Js.ToStr(location.value) + ")"
  {
    if Js.TruthyOpt(location) then " (Location: " + Js.ToStr(location.value) + ")" else ""
  }

  /** The error text for a response that is not ok. Reading a property of a
      `null` body throws, which the page reports as a failed fetch. */
  function ReplyError(body: Json, status: int): (r: Result<string, Js.Exception>)
    ensures r.Failure? <==> body.JNull?
  {
    if body.JNull? then Failure(Js.TypeError)
    else
      Success(Headline(Field(body, "message"), Field(body, "error"), status)
              + LocationDetails(Field(body, "location")))
  }

  /** `message` wins over `error`, which wins over the status; the location
      is appended after whichever was chosen. */
  lemma ErrorPrecedence(body: Json, status: int)
    requires !body.JNull?
    ensures Js.TruthyOpt(Field(body, "message")) ==>
      ReplyError(body, status) == Success(Js.ToStr(Field(body, "message").value) + LocationDetails(Field(body, "location")))
    ensures !Js.TruthyOpt(Field(body, "message")) && Js.TruthyOpt(Field(body, "error")) ==>
      ReplyError(body, status) == Success(Js.ToStr(Field(body, "error").value) + LocationDetails(Field(body, "location")))
    ensures !Js.TruthyOpt(Field(body, "message")) && !Js.TruthyOpt(Field(body, "error")) ==>
      ReplyError(body, status) == Success("Error: " + Decimal(status) + LocationDetails(Field(body, "location")))
  {
  }

  /** The body the server route sends for a redirected ISBN (an `error`, a
      `message` and a `location`) shows the message and the location, not
      the error. */
  lemma RedirectReplyShowsMessageAndLocation(error: string, message: string, location: string, status: int)
    requires message != "" && location != ""
    ensures ReplyError(JObject([Member("error", JString(error)), Member("message", JString(message)),
                                Member("location", JString(location))]), status)
         == Success(message + " (Location: " + location + ")")
  {
    var m := [Member("error", JString(error)), Member("message", JString(message)),
              Member("location", JString(location))];
    var body := JObject(m);
    assert m[0].key != "message" && m[0].key != "location" && m[1].key != "location";
    assert Get(m[1..], "message") == Some(JString(message));
    assert Field(body, "message") == Some(JString(message));
    assert Get(m[2..], "location") == Some(JString(location));
    assert Get(m[1..], "location") == Some(JString(location));
    assert Field(body, "location") == Some(JString(location));
    assert Headline(Field(body, "message"), Field(body, "error"), status) == message;
    assert LocationDetails(Field(body, "location")) == " (Location: " + location + ")";
    assert message + (" (Location: " + location + ")") == message + " (Location: " + location + ")";
    assert ReplyError(body, status) == Success(message + (" (Location: " + location + ")"));
  }

  /** The updates that follow a successful validation. */
  function ReplyUpdates(reply: Reply): (us: seq<Update>)
    ensures |us| == 1 && !us[0].SetLoading?
    ensures us[0].SetBookData? <==> reply.Reply? && reply.body.Some? && IsOk(reply.status)
    ensures us[0].SetBookData? ==> us[0].data == reply.body.value
    // no response or an unparsable body: the failed-fetch message
    ensures reply.NetworkFailure? || reply.body.None? ==> us == [SetError(FetchFailedMessage)]
    // a parsed error body: its headline, or the failed-fetch message when reading it throws
    ensures reply.Reply? && reply.body.Some? && !IsOk(reply.status) ==>
      us == [SetError(match ReplyError(reply.body.value, reply.status)
                      case Success(message) => message
                      case Failure(_) => FetchFailedMessage)]
  {
    match reply
    case NetworkFailure => [SetError(FetchFailedMessage)]
    case Reply(status, body) =>
      if body.None? then [SetError(FetchFailedMessage)]
      else if IsOk(status) then [SetBookData(body.value)]
      else
        match ReplyError(body.value, status)
        case Failure(_) => [SetError(FetchFailedMessage)]
        case Success(message) => [SetError(message)]
  }

  /** Every state update one submission makes, in order. */
  function SubmitUpdates(isbn: string, isSpace: char -> bool, reply: Reply): (us: seq<Update>)
    ensures |us| == 5
    ensures us[..3] == [SetLoading(true), SetError(""), SetBookData(JNull)]
    ensures us[4] == SetLoading(false)
    ensures !us[3].SetLoading?
    ensures Validate(isbn, isSpace).Failure? ==> us[3] == SetError(Validate(isbn, isSpace).error)
    ensures Validate(isbn, isSpace).Success? ==> [us[3]] == ReplyUpdates(reply)
  {
    var outcome :=
      match Validate(isbn, isSpace)
      case Failure(message) => [SetError(message)]
      case Success(_) => ReplyUpdates(reply);
    [SetLoading(true), SetError(""), SetBookData(JNull)] + outcome + [SetLoading(false)]
  }

  /** The ISBN the page requests from the server route, if it requests one. */
  function RequestedIsbn(isbn: string, isSpace: char -> bool): (r: Option<string>)
    ensures r.Some? ==> IsbnFormat.MatchesClientPattern(r.value) && IsbnFormat.IsValidIsbnFormat(r.value)
    ensures r.None? <==> Validate(isbn, isSpace).Failure?
    ensures r.Some? ==> r.value == Trim(isbn, isSpace)
  {
    match Validate(isbn, isSpace)
    case Failure(_) => None
    case Success(t) => Some(t)
  }

  /** An ISBN typed as ten or thirteen bare digits, with no surrounding
      space, is requested exactly as typed. */
  lemma PlainIsbnRequested(t: string, isSpace: char -> bool)
    requires IsbnFormat.MatchesClientPattern(t)
    requires forall c :: IsDigit(c) ==> !isSpace(c)
    ensures Validate(t, isSpace) == Success(t)
    ensures RequestedIsbn(t, isSpace) == Some(t)
  {
    assert IsDigit(t[0]) && IsDigit(t[|t| - 1]);
    TrimUnpadded(t, isSpace);
  }

  /** The state after one submission. Loading ends false on every path, at
      most one of error and book data is set, and the typed ISBN is kept. */
  function Submit(s: PageState, isSpace: char -> bool, reply: Reply): (r: PageState)
    ensures r.isbn == s.isbn && !r.loading
    ensures r.error == "" || r.bookData == JNull
    ensures r.bookData != JNull ==>
      && RequestedIsbn(s.isbn, isSpace).Some?
      && reply.Reply? && IsOk(reply.status) && reply.body == Some(r.bookData)
    ensures (forall i :: 0 <= i < |s.isbn| ==> isSpace(s.isbn[i])) ==>
      r == s.(error := EmptyMessage, bookData := JNull, loading := false)
    ensures Validate(s.isbn, isSpace) == Failure(FormatMessage) ==>
      r == s.(error := FormatMessage, bookData := JNull, loading := false)
    // a requested ISBN whose ok reply parses: the body is shown, the error cleared
    ensures RequestedIsbn(s.isbn, isSpace).Some? && reply.Reply? && reply.body.Some? && IsOk(reply.status) ==>
      r == s.(error := "", bookData := reply.body.value, loading := false)
    // a requested ISBN whose reply is an error body: its headline, or the failed-fetch message
    ensures RequestedIsbn(s.isbn, isSpace).Some? && reply.Reply? && reply.body.Some? && !IsOk(reply.status) ==>
      r == s.(error := (match ReplyError(reply.body.value, reply.status)
                        case Success(message) => message
                        case Failure(_) => FetchFailedMessage),
              bookData := JNull, loading := false)
  {
    var us := SubmitUpdates(s.isbn, isSpace, reply);
    FiveUpdates(s, us);
    ApplyAll(s, us)
  }

  lemma FiveUpdates(s: PageState, us: seq<Update>)
    requires |us| == 5
    ensures ApplyAll(s, us) == Apply(Apply(Apply(Apply(Apply(s, us[0]), us[1]), us[2]), us[3]), us[4])
  {
    var s1 := Apply(s, us[0]);
    var s2 := Apply(s1, us[1]);
    var s3 := Apply(s2, us[2]);
    var s4 := Apply(s3, us[3]);
    assert ApplyAll(s4, us[4..]) == Apply(s4, us[4]) by {
      assert us[4..][1..] == [];
    }
    assert ApplyAll(s3, us[3..]) == ApplyAll(s4, us[4..]) by {
      assert us[3..][1..] == us[4..];
    }
    assert ApplyAll(s2, us[2..]) == ApplyAll(s3, us[3..]) by {
      assert us[2..][1..] == us[3..];
    }
    assert ApplyAll(s1, us[1..]) == ApplyAll(s2, us[2..]) by {
      assert us[1..][1..] == us[2..];
    }
  }

  /** A network failure, an unparsable body and a `null` error body all end
      in the same failed-fetch message. */
  lemma FetchFailures(s: PageState, isSpace: char -> bool, status: int)
    requires RequestedIsbn(s.isbn, isSpace).Some?
    ensures Submit(s, isSpace, NetworkFailure).error == FetchFailedMessage
    ensures Submit(s, isSpace, Reply(status, None)).error == FetchFailedMessage
    ensures !IsOk(status) ==> Submit(s, isSpace, Reply(status, Some(JNull))).error == FetchFailedMessage
  {
    FiveUpdates(s, SubmitUpdates(s.isbn, isSpace, NetworkFailure));
    FiveUpdates(s, SubmitUpdates(s.isbn, isSpace, Reply(status, None)));
    FiveUpdates(s, SubmitUpdates(s.isbn, isSpace, Reply(status, Some(JNull))));
  }

  // The results area

  const NA := JString("N/A")

  /** `book.title || 'N/A'`. */
  function TitleShown(book: Json): (r: Json)
    ensures Js.Truthy(r)
    ensures r == NA || Field(book, "title") == Some(r)
  {
    var t := Field(book, "title");
    if Js.TruthyOpt(t) then t.value else NA
  }

  /** `c0 || c1 || ... || fallback`: the first truthy candidate, or the
      fallback when none is. */
  function FirstTruthy(cs: seq<Option<Json>>, fallback: Json): (r: Json)
    ensures Js.Truthy(fallback) ==> Js.Truthy(r)
    ensures (forall i :: 0 <= i < |cs| ==> !Js.TruthyOpt(cs[i])) ==> r == fallback
    ensures r != fallback ==> exists i :: 0 <= i < |cs| && cs[i] == Some(r) && Js.Truthy(r)
  {
    if cs == [] then fallback
    else if Js.TruthyOpt(cs[0]) then cs[0].value
    else FirstTruthy(cs[1..], fallback)
  }

  /** The first truthy candidate wins, whatever follows it. */
  lemma {:induction false} FirstTruthyWins(cs: seq<Option<Json>>, fallback: Json, i: nat)
    requires i < |cs| && Js.TruthyOpt(cs[i])
    requires forall j :: 0 <= j < i ==> !Js.TruthyOpt(cs[j])
    ensures FirstTruthy(cs, fallback) == cs[i].value
    decreases i
  {
    if i > 0 {
      assert !Js.TruthyOpt(cs[0]);
      forall j | 0 <= j < i - 1 ensures !Js.TruthyOpt(cs[1..][j]) {
        assert cs[1..][j] == cs[j + 1];
      }
      FirstTruthyWins(cs[1..], fallback, i - 1);
    }
  }

  /** `book.details && book.details.k`: `details` itself when it is falsy,
      otherwise its member `k`. */
  function DetailsAnd(book: Json, k: string): (r: Option<Json>)
    ensures Js.TruthyOpt(r) ==> Js.TruthyOpt(Field(book, "details")) && r == Field(Field(book, "details").value, k)
  {
    var details := Field(book, "details");
    if Js.TruthyOpt(details) then Field(details.value, k) else details
  }

  /** `book.k || (book.details && book.details.k) || 'N/A'`. */
  function FallbackShown(book: Json, k: string): (r: Json)
    ensures Js.Truthy(r)
    ensures Js.TruthyOpt(Field(book, k)) ==> r == Field(book, k).value
    ensures r == NA || Field(book, k) == Some(r) || DetailsAnd(book, k) == Some(r)
  {
    var top := Field(book, k);
    var details := Field(book, "details");
    if Js.TruthyOpt(top) then top.value
    else if Js.TruthyOpt(details) && Js.TruthyOpt(Field(details.value, k)) then Field(details.value, k).value
    else NA
  }

  /** Title, publish date and page count are each the first truthy value
      of the chain the page writes out, with "N/A" last. */
  lemma FallbackOrder(book: Json, k: string)
    ensures TitleShown(book) == FirstTruthy([Field(book, "title")], NA)
    ensures FallbackShown(book, k) == FirstTruthy([Field(book, k), DetailsAnd(book, k)], NA)
  {
    assert [Field(book, "title")][1..] == [];
    assert [Field(book, k), DetailsAnd(book, k)][1..] == [DetailsAnd(book, k)];
    assert [Field(book, k), DetailsAnd(book, k)][1..][1..] == [];
  }

  /** One author: `author.name || author.key.replace('/authors/', '')`.
      Reading `.name` of `null`, or calling `replace` on a key that is not a
      string, throws. */
  function AuthorShown(a: Json): (r: Result<string, Js.Exception>)
    ensures a.JNull? ==> r.Failure?
    ensures Js.TruthyOpt(Field(a, "name")) ==> r == Success(Js.ToStr(Field(a, "name").value))
    ensures !Js.TruthyOpt(Field(a, "name")) && !a.JNull? ==>
      (r.Success? <==> Field(a, "key").Some? && Field(a, "key").value.JString?)
    // an unnamed author with a string key shows the key without its first "/authors/"
    ensures !Js.TruthyOpt(Field(a, "name")) && !a.JNull? && Field(a, "key").Some? && Field(a, "key").value.JString? ==>
      r == Success(RemoveFirst(Field(a, "key").value.s, AuthorsPrefix))
  {
    match Js.Property(a, "name")
    case Failure(e) => Failure(e)
    case Success(name) =>
      if Js.TruthyOpt(name) then Success(Js.ToStr(name.value))
      else
        match Js.Property(a, "key")
        case Success(Some(JString(k))) => Success(RemoveFirst(k, AuthorsPrefix))
        case _ => Failure(Js.TypeError)
  }

  const AuthorsPrefix := "/authors/"

  /** `authors.map(AuthorShown)`: the first author that throws ends it. */
  function AuthorsShown(items: seq<Json>): (r: Result<seq<string>, Js.Exception>)
    ensures r.Success? <==> forall i :: 0 <= i < |items| ==> AuthorShown(items[i]).Success?
    ensures r.Success? ==> |r.value| == |items|
    ensures r.Success? ==> forall i :: 0 <= i < |items| ==> r.value[i] == AuthorShown(items[i]).value
  {
    if items == [] then Success([])
    else
      match AuthorShown(items[0])
      case Failure(e) => Failure(e)
      case Success(first) =>
        match AuthorsShown(items[1..])
        case Failure(e) => Failure(e)
        case Success(rest) => Success([first] + rest)
  }

  /** The "Authors" line: the authors joined by ", ", or "N/A". An authors
      value that is truthy but not an array has no `map` and throws. */
  function AuthorsLine(book: Json): (r: Result<string, Js.Exception>)
    ensures !Js.TruthyOpt(Field(book, "authors")) ==> r == Success("N/A")
    ensures Js.TruthyOpt(Field(book, "authors")) && !Field(book, "authors").value.JArray? ==> r.Failure?
    // an array: the shown authors joined by ", ", failing exactly when one of them throws
    ensures Js.TruthyOpt(Field(book, "authors")) && Field(book, "authors").value.JArray? ==>
      && (r.Success? <==> AuthorsShown(Field(book, "authors").value.items).Success?)
      && (r.Success? ==> r.value == Join(", ", AuthorsShown(Field(book, "authors").value.items).value))
  {
    var authors := Field(book, "authors");
    if !Js.TruthyOpt(authors) then Success("N/A")
    else if !authors.value.JArray? then Failure(Js.TypeError)
    else
      match AuthorsShown(authors.value.items)
      case Failure(e) => Failure(e)
      case Success(names) => Success(Join(", ", names))
  }

  /** Author records of Open Library's shape, `{"key": "/authors/<id>"}`
      without a name, are shown as their bare ids. */
  lemma KeyedAuthorsShowIds(ids: seq<string>)
    ensures AuthorsShown(seq(|ids|, i requires 0 <= i < |ids| => JObject([Member("key", JString(AuthorsPrefix + ids[i]))])))
         == Success(ids)
  {
    var items := seq(|ids|, i requires 0 <= i < |ids| => JObject([Member("key", JString(AuthorsPrefix + ids[i]))]));
    forall i | 0 <= i < |ids| ensures AuthorShown(items[i]) == Success(ids[i]) {
      var m := items[i].members;
      assert Get(m[1..], "name") == None;
      RemoveFirstOfPrefix(AuthorsPrefix, ids[i]);
    }
    var r := AuthorsShown(items);
    assert r.Success?;
    assert r.value == ids;
  }

  /** `p.join(', ')` if `p` is truthy (and throws unless it is an array);
      otherwise the same for `details.publishers`; otherwise "N/A". */
  function PublishersLine(book: Json): (r: Result<string, Js.Exception>)
    ensures Js.TruthyOpt(Field(book, "publishers")) ==> r == Js.ArrayJoin(Field(book, "publishers").value, ", ")
    ensures r.Failure? ==> Js.TruthyOpt(Field(book, "publishers")) || Js.TruthyOpt(DetailsAnd(book, "publishers"))
  {
    var p := Field(book, "publishers");
    var details := Field(book, "details");
    if Js.TruthyOpt(p) then Js.ArrayJoin(p.value, ", ")
    else if Js.TruthyOpt(details) && Js.TruthyOpt(Field(details.value, "publishers")) then
      Js.ArrayJoin(Field(details.value, "publishers").value, ", ")
    else Success("N/A")
  }

  /** The publishers line joins the first truthy of `publishers` and
      `details.publishers`, and is "N/A" when neither is truthy. */
  lemma PublishersFallback(book: Json)
    ensures var p := FirstTruthy([Field(book, "publishers"), DetailsAnd(book, "publishers")], JNull);
      PublishersLine(book) == if p == JNull then Success("N/A") else Js.ArrayJoin(p, ", ")
  {
    var cs := [Field(book, "publishers"), DetailsAnd(book, "publishers")];
    assert cs[1..][1..] == [];
  }

  /** The five values of the results area. */
  datatype Details = Details(title: Json, authors: string, publishDate: Json, pages: Json, publishers: string)

  /** The results area: absent when `bookData` is falsy; otherwise the five
      values, unless computing one of them throws. */
  function ResultsShown(book: Json): (r: Option<Result<Details, Js.Exception>>)
    ensures r.None? <==> !Js.Truthy(book)
    ensures r.Some? && r.value.Success? ==>
      && r.value.value.title == TitleShown(book)
      && Js.Truthy(r.value.value.publishDate) && Js.Truthy(r.value.value.pages)
      && AuthorsLine(book) == Success(r.value.value.authors)
      && PublishersLine(book) == Success(r.value.value.publishers)
    ensures r.Some? && r.value.Success? ==>
      && r.value.value.publishDate == FallbackShown(book, "publish_date")
      && r.value.value.pages == FallbackShown(book, "number_of_pages")
    // a truthy record is shown exactly when neither the authors nor the publishers line throws
    ensures Js.Truthy(book) ==>
      (r.value.Success? <==> AuthorsLine(book).Success? && PublishersLine(book).Success?)
  {
    if !Js.Truthy(book) then None
    else
      match AuthorsLine(book)
      case Failure(e) => Some(Failure(e))
      case Success(authors) =>
        match PublishersLine(book)
        case Failure(e) => Some(Failure(e))
        case Success(publishers) =>
          Some(Success(Details(TitleShown(book), authors, FallbackShown(book, "publish_date"),
                               FallbackShown(book, "number_of_pages"), publishers)))
  }

  /** A cleared page shows neither an error nor results; after a submission
      at most one of the two areas can appear. */
  lemma AtMostOneArea(s: PageState, isSpace: char -> bool, reply: Reply)
    ensures var r := Submit(s, isSpace, reply);
      !(r.error != "" && ResultsShown(r.bookData).Some?)
  {
  }
}
