/** `display_book_info` of the command-line tool: the five lines printed
    for a book record, with the author fallback chain and the
    "Not available" defaults. Python exceptions raised on records of an
    unexpected shape end the operation with no line printed. */
module Display {
  import opened Wrappers
  import opened Text
  import opened Json
  import Py

  const NotAvailable := "Not available"

  predicate AllObjects(items: seq<Json>) {
    forall i :: 0 <= i < |items| ==> items[i].JObject?
  }

  /** `[a.get(key) for a in items if a.get(key)]`: the truthy values stored
      under `key`, in order. */
  function TruthyValues(items: seq<Json>, key: string): (r: seq<Json>)
    requires AllObjects(items)
    ensures |r| <= |items|
    ensures forall j :: 0 <= j < |r| ==> Py.Truthy(r[j])
    ensures r == [] <==> forall i :: 0 <= i < |items| ==> !Py.TruthyField(items[i].members, key)
  {
    if items == [] then []
    else
      var rest := TruthyValues(items[1..], key);
      var f := Get(items[0].members, key);
      if f.Some? && Py.Truthy(f.value) then [f.value] + rest else rest
  }

  /** The "Author(s)" text: the truthy names joined by ", "; failing that
      the truthy keys, marked as needing a further lookup; failing that
      "Not available". */
  function AuthorsText(authors: Option<Json>): (r: Result<string, Py.Exception>)
    ensures (authors.None? || !Py.Truthy(authors.value)) ==> r == Success(NotAvailable)
    ensures r.Success? && authors.Some? && Py.Truthy(authors.value) ==>
      authors.value.JArray? && AllObjects(authors.value.items)
    ensures authors.Some? && authors.value.JArray? && authors.value.items != [] && !AllObjects(authors.value.items)
      ==> r == Failure(Py.AttributeError)
    // a truthy list of records is read by the name-then-key chain
    ensures authors.Some? && authors.value.JArray? && authors.value.items != [] && AllObjects(authors.value.items)
      ==> r == RecordsText(authors.value.items)
    // iterating a string or a dict yields strings, which have no `.get`
    ensures authors.Some? && Py.Truthy(authors.value) && (authors.value.JString? || authors.value.JObject?)
      ==> r == Failure(Py.AttributeError)
    // a number or a boolean cannot be iterated
    ensures authors.Some? && Py.Truthy(authors.value) && (authors.value.JNumber? || authors.value.JBool?)
      ==> r == Failure(Py.TypeError)
  {
    if authors.None? || !Py.Truthy(authors.value) then Success(NotAvailable)
    else
      match authors.value
      case JArray(items) =>
        if !AllObjects(items) then Failure(Py.AttributeError) else RecordsText(items)
      // iterating a string yields strings and a dict yields its keys; neither has `.get`
      case JString(_) => Failure(Py.AttributeError)
      case JObject(_) => Failure(Py.AttributeError)
      // numbers and booleans are not iterable
      case _ => Failure(Py.TypeError)
  }

  /** The "Author(s)" text for a list of author records: the names if any
      record has a truthy one, else the keys if any has a truthy one, else
      "Not available". A kept name or key that is not a string makes
      `join` raise. */
  function RecordsText(items: seq<Json>): (r: Result<string, Py.Exception>)
    requires AllObjects(items)
    ensures r.Failure? ==> r.error == Py.TypeError
    // joining kept names, or kept keys when there are no names, raises on a non-string
    ensures TruthyValues(items, "name") != [] && !AllStrings(TruthyValues(items, "name")) ==>
      r == Failure(Py.TypeError)
    ensures TruthyValues(items, "name") == [] && TruthyValues(items, "key") != []
            && !AllStrings(TruthyValues(items, "key")) ==>
      r == Failure(Py.TypeError)
  {
    var names := TruthyValues(items, "name");
    if names != [] then
      if AllStrings(names) then Success(Join(", ", Strings(names))) else Failure(Py.TypeError)
    else
      var keys := TruthyValues(items, "key");
      if keys != [] then
        if AllStrings(keys) then Success(AuthorKeysText(Strings(keys))) else Failure(Py.TypeError)
      else Success(NotAvailable)
  }

  function AuthorKeysText(keys: seq<string>): string {
    "Author keys: " + Join(", ", keys) + " (Further lookup needed for names)"
  }

  /** A record whose `key` field holds a non-empty string. */
  predicate HasText(a: Json, key: string) {
    a.JObject? && Get(a.members, key).Some? && Get(a.members, key).value.JString?
    && Get(a.members, key).value.s != ""
  }

  function TextOf(a: Json, key: string): string {
    if HasText(a, key) then Get(a.members, key).value.s else ""
  }

  /** When every author record carries a non-empty string name, the text is
      exactly those names, in order, joined by ", ". */
  lemma AllNamed(items: seq<Json>)
    requires items != [] && forall i :: 0 <= i < |items| ==> HasText(items[i], "name")
    ensures AuthorsText(Some(JArray(items)))
         == Success(Join(", ", seq(|items|, i requires 0 <= i < |items| => TextOf(items[i], "name"))))
  {
    TextValues(items, "name");
    var names := TruthyValues(items, "name");
    assert Strings(names) == seq(|items|, i requires 0 <= i < |items| => TextOf(items[i], "name"));
  }

  /** When every record has a non-empty string under `key`, the truthy
      values are exactly those strings. */
  lemma {:induction false} TextValues(items: seq<Json>, key: string)
    requires forall i :: 0 <= i < |items| ==> HasText(items[i], key)
    ensures AllObjects(items)
    ensures |TruthyValues(items, key)| == |items|
    ensures forall i :: 0 <= i < |items| ==> TruthyValues(items, key)[i] == JString(TextOf(items[i], key))
  {
    if items != [] {
      TextValues(items[1..], key);
      assert forall i :: 1 <= i < |items| ==> items[1..][i - 1] == items[i];
    }
  }

  /** When no author record has a truthy name and each has a non-empty
      string key (the shape Open Library's ISBN records use), the text lists
      the keys. */
  lemma AllKeyed(items: seq<Json>)
    requires items != []
    requires forall i :: 0 <= i < |items| ==>
      HasText(items[i], "key") && !Py.TruthyField(items[i].members, "name")
    ensures AuthorsText(Some(JArray(items)))
         == Success(AuthorKeysText(seq(|items|, i requires 0 <= i < |items| => TextOf(items[i], "key"))))
  {
    TextValues(items, "key");
    var keys := TruthyValues(items, "key");
    assert Strings(keys) == seq(|items|, i requires 0 <= i < |items| => TextOf(items[i], "key"));
  }

  /** Records with neither a truthy name nor a truthy key give
      "Not available". */
  lemma NeitherNamedNorKeyed(items: seq<Json>)
    requires AllObjects(items)
    requires forall i :: 0 <= i < |items| ==>
      !Py.TruthyField(items[i].members, "name") && !Py.TruthyField(items[i].members, "key")
    ensures AuthorsText(Some(JArray(items))) == Success(NotAvailable)
  {
  }

  /** A single name wins over any number of keys: a name anywhere in the
      list suppresses the "Author keys" text. */
  lemma NamePrecedence(items: seq<Json>, k: int)
    requires AllObjects(items) && 0 <= k < |items| && Py.TruthyField(items[k].members, "name")
    ensures AuthorsText(Some(JArray(items))).Success? ==>
      AuthorsText(Some(JArray(items))) == Success(Join(", ", Strings(TruthyValues(items, "name"))))
  {
    assert TruthyValues(items, "name") != [];
    assert Py.Truthy(JArray(items));
  }

  /** The filter works record by record: the truthy values of a list are
      those of its first part followed by those of the rest. */
  lemma {:induction false} TruthyValuesAppend(a: seq<Json>, b: seq<Json>, key: string)
    requires AllObjects(a) && AllObjects(b)
    ensures AllObjects(a + b)
    ensures TruthyValues(a + b, key) == TruthyValues(a, key) + TruthyValues(b, key)
  {
    if a == [] {
      assert a + b == b;
    } else {
      assert (a + b)[1..] == a[1..] + b;
      TruthyValuesAppend(a[1..], b, key);
    }
  }

  /** One record contributes its value under `key` exactly when that value
      is truthy. */
  lemma TruthyValuesSingle(a: Json, key: string)
    requires a.JObject?
    ensures TruthyValues([a], key)
         == if Py.TruthyField(a.members, key) then [Get(a.members, key).value] else []
  {
    assert [a][1..] == [];
  }

  /** When every truthy value under `key` is a string, so is every kept
      value. */
  lemma {:induction false} TruthyStrings(items: seq<Json>, key: string)
    requires AllObjects(items)
    requires forall i :: 0 <= i < |items| && Py.TruthyField(items[i].members, key) ==>
      Get(items[i].members, key).value.JString?
    ensures AllStrings(TruthyValues(items, key))
  {
    if items != [] {
      assert forall i :: 1 <= i < |items| ==> items[1..][i - 1] == items[i];
      TruthyStrings(items[1..], key);
    }
  }

  /** As soon as one record has a truthy name, the text is the names of the
      records that have one, in order, joined by ", "; records without a
      name are skipped, whatever keys they carry. */
  lemma NamesShown(items: seq<Json>)
    requires AllObjects(items)
    requires exists k :: 0 <= k < |items| && Py.TruthyField(items[k].members, "name")
    requires forall i :: 0 <= i < |items| && Py.TruthyField(items[i].members, "name") ==>
      Get(items[i].members, "name").value.JString?
    ensures AllStrings(TruthyValues(items, "name"))
    ensures AuthorsText(Some(JArray(items))) == Success(Join(", ", Strings(TruthyValues(items, "name"))))
  {
    TruthyStrings(items, "name");
    assert TruthyValues(items, "name") != [];
    assert RecordsText(items) == Success(Join(", ", Strings(TruthyValues(items, "name"))));
    assert Py.Truthy(JArray(items));
  }

  /** With no truthy name anywhere and a truthy key on at least one record,
      the text lists the keys of the records that have one, in order. */
  lemma KeysShown(items: seq<Json>)
    requires AllObjects(items)
    requires forall i :: 0 <= i < |items| ==> !Py.TruthyField(items[i].members, "name")
    requires exists k :: 0 <= k < |items| && Py.TruthyField(items[k].members, "key")
    requires forall i :: 0 <= i < |items| && Py.TruthyField(items[i].members, "key") ==>
      Get(items[i].members, "key").value.JString?
    ensures AllStrings(TruthyValues(items, "key"))
    ensures AuthorsText(Some(JArray(items))) == Success(AuthorKeysText(Strings(TruthyValues(items, "key"))))
  {
    TruthyStrings(items, "key");
    assert TruthyValues(items, "name") == [];
    assert TruthyValues(items, "key") != [];
    assert RecordsText(items) == Success(AuthorKeysText(Strings(TruthyValues(items, "key"))));
    assert Py.Truthy(JArray(items));
  }

  /** Every truthy value under `key` is kept. */
  lemma {:induction false} TruthyValueKept(items: seq<Json>, key: string, k: nat)
    requires AllObjects(items) && k < |items| && Py.TruthyField(items[k].members, key)
    ensures Get(items[k].members, key).value in TruthyValues(items, key)
  {
    if k > 0 {
      assert items[1..][k - 1] == items[k];
      TruthyValueKept(items[1..], key, k - 1);
    }
  }

  /** A truthy name that is not a string makes joining the names raise. */
  lemma NonStringNameRaises(items: seq<Json>, k: nat)
    requires AllObjects(items) && k < |items| && Py.TruthyField(items[k].members, "name")
    requires !Get(items[k].members, "name").value.JString?
    ensures AuthorsText(Some(JArray(items))) == Failure(Py.TypeError)
  {
    TruthyValueKept(items, "name", k);
    assert !AllStrings(TruthyValues(items, "name"));
    assert Py.Truthy(JArray(items));
  }

  /** With no truthy name, a truthy key that is not a string makes joining
      the keys raise. */
  lemma NonStringKeyRaises(items: seq<Json>, k: nat)
    requires AllObjects(items)
    requires forall i :: 0 <= i < |items| ==> !Py.TruthyField(items[i].members, "name")
    requires k < |items| && Py.TruthyField(items[k].members, "key")
    requires !Get(items[k].members, "key").value.JString?
    ensures AuthorsText(Some(JArray(items))) == Failure(Py.TypeError)
  {
    TruthyValueKept(items, "key", k);
    assert TruthyValues(items, "name") == [];
    assert !AllStrings(TruthyValues(items, "key"));
    assert Py.Truthy(JArray(items));
  }

  /** A named author and a keyed-only author: only the name is shown. */
  lemma NamedBeforeKeyed(name: string, key: string)
    requires name != "" && key != ""
    ensures AuthorsText(Some(JArray([JObject([Member("name", JString(name))]),
                                     JObject([Member("key", JString(key))])])))
         == Success(name)
  {
    var a := JObject([Member("name", JString(name))]);
    var b := JObject([Member("key", JString(key))]);
    assert Get(b.members[1..], "name") == None;
    TruthyValuesSingle(a, "name");
    TruthyValuesSingle(b, "name");
    TruthyValuesAppend([a], [b], "name");
    assert [a] + [b] == [a, b];
    NamesShown([a, b]);
    assert Strings([JString(name)]) == [name];
  }

  /** A keyed author and an empty record: the one key is listed. */
  lemma KeyedBesideEmpty(key: string)
    requires key != ""
    ensures AuthorsText(Some(JArray([JObject([Member("key", JString(key))]), JObject([])])))
         == Success(AuthorKeysText([key]))
  {
    var a := JObject([Member("key", JString(key))]);
    var b := JObject([]);
    assert Get(a.members[1..], "name") == None;
    TruthyValuesSingle(a, "key");
    TruthyValuesSingle(b, "key");
    TruthyValuesAppend([a], [b], "key");
    assert [a] + [b] == [a, b];
    KeysShown([a, b]);
    assert Strings([JString(key)]) == [key];
  }

  /** `data.get(key, "Not available")` rendered with `str()`. */
  function FieldText(members: seq<Member>, key: string): (r: string)
    ensures Get(members, key).None? ==> r == NotAvailable
    ensures Get(members, key).Some? && Get(members, key).value.JString? ==> r == Get(members, key).value.s
  {
    match Get(members, key)
    case None => NotAvailable
    case Some(v) => Py.ToStr(v)
  }

  /** The "Publishers" text: a truthy value joined by ", ". */
  function PublishersText(p: Option<Json>): (r: Result<string, Py.Exception>)
    ensures (p.None? || !Py.Truthy(p.value)) ==> r == Success(NotAvailable)
    ensures p.Some? && p.value.JArray? && p.value.items != [] && AllStrings(p.value.items)
      ==> r == Success(Join(", ", Strings(p.value.items)))
    // a truthy value goes to `", ".join`, which raises a TypeError exactly
    // for a number, a boolean or a list holding a non-string
    ensures p.Some? && Py.Truthy(p.value) ==> r == Py.JoinValue(", ", p.value)
    ensures p.Some? && Py.Truthy(p.value) ==>
      (r.Failure? <==> p.value.JNumber? || p.value.JBool? || (p.value.JArray? && !AllStrings(p.value.items)))
    ensures r.Failure? ==> r.error == Py.TypeError
  {
    if p.Some? && Py.Truthy(p.value) then Py.JoinValue(", ", p.value) else Success(NotAvailable)
  }

  /** `display_book_info(data)`: the printed lines. A record that is not a
      dict, an author list of the wrong shape, and a publishers value that
      cannot be joined raise, and then nothing is printed. */
  function DisplayBookInfo(data: Json): (r: Result<seq<string>, Py.Exception>)
    ensures !Py.Truthy(data) ==> r == Success(["No data to display."])
    ensures Py.Truthy(data) && !data.JObject? ==> r == Failure(Py.AttributeError)
    ensures r.Success? && Py.Truthy(data) ==>
      && |r.value| == 5
      && r.value[0] == "Title: " + FieldText(data.members, "title")
      && AuthorsText(Get(data.members, "authors")).Success?
      && r.value[1] == "Author(s): " + AuthorsText(Get(data.members, "authors")).value
      && r.value[2] == "Publish Date: " + FieldText(data.members, "publish_date")
      && r.value[3] == "Number of Pages: " + FieldText(data.members, "number_of_pages")
      && PublishersText(Get(data.members, "publishers")).Success?
      && r.value[4] == "Publishers: " + PublishersText(Get(data.members, "publishers")).value
    ensures data.JObject? && Py.Truthy(data) ==>
      (r.Success? <==> AuthorsText(Get(data.members, "authors")).Success?
                       && PublishersText(Get(data.members, "publishers")).Success?)
    // the exception is the authors text's own, or else the publishers text's
    ensures data.JObject? && Py.Truthy(data) && r.Failure? ==>
      r.error == (if AuthorsText(Get(data.members, "authors")).Failure?
                  then AuthorsText(Get(data.members, "authors")).error
                  else PublishersText(Get(data.members, "publishers")).error)
  {
    if !Py.Truthy(data) then Success(["No data to display."])
    else if !data.JObject? then Failure(Py.AttributeError)
    else
      var m := data.members;
      match AuthorsText(Get(m, "authors"))
      case Failure(e) => Failure(e)
      case Success(authors) =>
        match PublishersText(Get(m, "publishers"))
        case Failure(e) => Failure(e)
        case Success(publishers) =>
          Success([
            "Title: " + FieldText(m, "title"),
            "Author(s): " + authors,
            "Publish Date: " + FieldText(m, "publish_date"),
            "Number of Pages: " + FieldText(m, "number_of_pages"),
            "Publishers: " + publishers
          ])
  }

  /** A record with only a title shows "Not available" for every other
      field. */
  lemma TitleOnly(t: string)
    requires t != ""
    ensures DisplayBookInfo(JObject([Member("title", JString(t))])) == Success([
      "Title: " + t,
      "Author(s): " + NotAvailable,
      "Publish Date: " + NotAvailable,
      "Number of Pages: " + NotAvailable,
      "Publishers: " + NotAvailable
    ])
  {
    var m := [Member("title", JString(t))];
    assert Get(m[1..], "authors") == None;
    assert Get(m[1..], "publishers") == None;
    assert Get(m[1..], "publish_date") == None;
    assert Get(m[1..], "number_of_pages") == None;
  }

  /** A record shaped like the tool's successful-lookup test: a title, one
      author given by key only, a date, a page count and one publisher. */
  function SampleRecord(title: string, key: string, date: string, pages: nat, publisher: string): Json {
    JObject([
      Member("title", JString(title)),
      Member("authors", JArray([JObject([Member("key", JString(key))])])),
      Member("publish_date", JString(date)),
      Member("number_of_pages", JNumber(pages)),
      Member("publishers", JArray([JString(publisher)]))])
  }

  lemma SampleRecordLines(title: string, key: string, date: string, pages: nat, publisher: string)
    requires title != "" && key != "" && publisher != ""
    ensures DisplayBookInfo(SampleRecord(title, key, date, pages, publisher)) == Success([
      "Title: " + title,
      "Author(s): " + AuthorKeysText([key]),
      "Publish Date: " + date,
      "Number of Pages: " + Decimal(pages),
      "Publishers: " + publisher])
  {
    var d := SampleRecord(title, key, date, pages, publisher);
    SampleLeadingFields(title, key, date, pages, publisher);
    SampleTrailingFields(title, key, date, pages, publisher);
    assert Py.Truthy(d);
  }

  lemma SampleLeadingFields(title: string, key: string, date: string, pages: nat, publisher: string)
    requires key != ""
    ensures FieldText(SampleRecord(title, key, date, pages, publisher).members, "title") == title
    ensures AuthorsText(Get(SampleRecord(title, key, date, pages, publisher).members, "authors"))
         == Success(AuthorKeysText([key]))
  {
    var m := SampleRecord(title, key, date, pages, publisher).members;
    var author := JObject([Member("key", JString(key))]);
    assert Get(author.members[1..], "name") == None;
    assert Get(author.members, "name") == None;
    assert HasText(author, "key");
    AllKeyed([author]);
    assert seq(1, i requires 0 <= i < 1 => TextOf([author][i], "key")) == [key];
    assert Get(m, "title") == Some(JString(title));
    assert Get(m, "authors") == Some(JArray([author]));
  }

  lemma SampleTrailingFields(title: string, key: string, date: string, pages: nat, publisher: string)
    requires publisher != ""
    ensures FieldText(SampleRecord(title, key, date, pages, publisher).members, "publish_date") == date
    ensures FieldText(SampleRecord(title, key, date, pages, publisher).members, "number_of_pages") == Decimal(pages)
    ensures PublishersText(Get(SampleRecord(title, key, date, pages, publisher).members, "publishers"))
         == Success(publisher)
  {
    var m := SampleRecord(title, key, date, pages, publisher).members;
    assert Get(m[2..], "publish_date") == Some(JString(date));
    assert Get(m, "publish_date") == Some(JString(date));
    assert Get(m[3..], "number_of_pages") == Some(JNumber(pages));
    assert Get(m[2..], "number_of_pages") == Some(JNumber(pages));
    assert Get(m, "number_of_pages") == Some(JNumber(pages));
    assert Py.Repr(JNumber(pages)) == Decimal(pages);
    assert Get(m[4..], "publishers") == Some(JArray([JString(publisher)]));
    assert Get(m[3..], "publishers") == Some(JArray([JString(publisher)]));
    assert Get(m[2..], "publishers") == Some(JArray([JString(publisher)]));
    assert Get(m, "publishers") == Some(JArray([JString(publisher)]));
    assert Strings([JString(publisher)]) == [publisher];
  }
}
