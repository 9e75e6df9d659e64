/** Loading bookmark requests from an input file. The format follows the
    file name's suffix; each loader walks its records in order and stops at
    the first bad one. Reading the file is replaced by what the three
    readers see: its lines, its CSV header and rows, and its decoded JSON. */
module BookmarkLoader {
  import opened Common
  import opened UploadClient

  /** A decoded JSON value. */
  datatype Json =
    | JNull
    | JBool(b: bool)
    | JNumber(n: real)
    | JString(s: string)
    | JArray(elems: seq<Json>)
    | JObject(fields: map<string, Json>)

  /** Python truthiness of a decoded value. */
  predicate JsonTruthy(v: Json) {
    match v
    case JNull => false
    case JBool(b) => b
    case JNumber(n) => n != 0.0
    case JString(s) => s != []
    case JArray(e) => e != []
    case JObject(f) => |f| != 0
  }

  /** `row.get(key)`, with an absent key read as `None`. */
  function Get(row: map<string, Json>, key: string): Json {
    if key in row then row[key] else JNull
  }

  datatype LoadError =
    | BookmarkLoadError(message: string)
      /** A value of the wrong type reached a string operation: Python
          raises AttributeError or TypeError here, not BookmarkLoadError. */
    | WrongType

  /** A request with the source and 1-based position it came from. */
  datatype LoadedBookmark = LoadedBookmark(request: BookmarkRequest, source: string, lineNumber: nat)

  // ---------------------------------------------------------------------
  // Fields

  /** `_clean`: strip an optional value; nothing left means no value. */
  function Clean(value: Option<string>): (r: Option<string>)
    ensures r.None? <==> value.None? || Strip(value.value) == []
    ensures r.Some? ==> r.value == Strip(value.value) && r.value != [] && Trimmed(r.value)
  {
    match value
    case None => None
    case Some(v) => if Strip(v) == [] then None else Some(Strip(v))
  }

  /** Cleaning twice is cleaning once. */
  lemma CleanIdempotent(value: Option<string>)
    ensures Clean(Clean(value)) == Clean(value)
  {
  }

  /** An optional field of a row: absent or null is no value, a string is
      cleaned, anything else cannot be stripped. */
  function CleanField(row: map<string, Json>, key: string): (r: Result<Option<string>, LoadError>)
    ensures r.Err? <==> Get(row, key) != JNull && !Get(row, key).JString?
    ensures r.Err? ==> r.error == WrongType
    ensures Get(row, key) == JNull ==> r == Ok(None)
    ensures Get(row, key).JString? ==> r == Ok(Clean(Some(Get(row, key).s)))
  {
    match Get(row, key)
    case JNull => Ok(None)
    case JString(s) => Ok(Clean(Some(s)))
    case _ => Err(WrongType)
  }

  const NoUrlMessage: string := "Encountered a row without a URL."

  /** The url of a row is missing: absent, falsy, or blank once stripped. */
  predicate UrlBlank(row: map<string, Json>) {
    var v := Get(row, "url");
    !JsonTruthy(v) || (v.JString? && Strip(v.s) == [])
  }

  /** `_bookmark_from_row`: the stripped url, which must not be empty, and
      the other three fields cleaned, read in the order title,
      description, folder_id. */
  function BookmarkFromRow(row: map<string, Json>): (r: Result<BookmarkRequest, LoadError>)
    ensures r == Err(BookmarkLoadError(NoUrlMessage)) <==> UrlBlank(row)
    ensures r.Ok? ==>
      Get(row, "url").JString? && r.value.url == Strip(Get(row, "url").s) &&
      r.value.url != [] && Trimmed(r.value.url)
    ensures r.Ok? <==>
      !UrlBlank(row) && Get(row, "url").JString? &&
      CleanField(row, "title").Ok? && CleanField(row, "description").Ok? && CleanField(row, "folder_id").Ok?
    ensures r.Ok? ==>
      Ok(r.value.title) == CleanField(row, "title") &&
      Ok(r.value.description) == CleanField(row, "description") &&
      Ok(r.value.folderId) == CleanField(row, "folder_id")
  {
    var v := Get(row, "url");
    if !JsonTruthy(v) then Err(BookmarkLoadError(NoUrlMessage))
    else if !v.JString? then Err(WrongType)
    else if Strip(v.s) == [] then Err(BookmarkLoadError(NoUrlMessage))
    else
      var title := CleanField(row, "title");
      if title.Err? then Err(title.error)
      else
        var description := CleanField(row, "description");
        if description.Err? then Err(description.error)
        else
          var folderId := CleanField(row, "folder_id");
          if folderId.Err? then Err(folderId.error)
          else Ok(BookmarkRequest(Strip(v.s), title.value, description.value, folderId.value))
  }

  /** A row written from a request: its set fields as strings. */
  function RowOf(r: BookmarkRequest): map<string, Json> {
    var m0 := map["url" := JString(r.url)];
    var m1 := if r.title.Some? then m0["title" := JString(r.title.value)] else m0;
    var m2 := if r.description.Some? then m1["description" := JString(r.description.value)] else m1;
    if r.folderId.Some? then m2["folder_id" := JString(r.folderId.value)] else m2
  }

  /** A request whose fields are already clean: a non-empty trimmed url,
      and optional fields that are absent or non-empty and trimmed. */
  predicate CleanRequest(r: BookmarkRequest) {
    r.url != [] && Trimmed(r.url) &&
    (r.title.Some? ==> r.title.value != [] && Trimmed(r.title.value)) &&
    (r.description.Some? ==> r.description.value != [] && Trimmed(r.description.value)) &&
    (r.folderId.Some? ==> r.folderId.value != [] && Trimmed(r.folderId.value))
  }

  /** Reading back the row of a clean request gives the request. */
  lemma RowRoundTrip(r: BookmarkRequest)
    requires CleanRequest(r)
    ensures BookmarkFromRow(RowOf(r)) == Ok(r)
  {
    var row := RowOf(r);
    assert Get(row, "url") == JString(r.url);
    assert CleanField(row, "title") == Ok(r.title);
    assert CleanField(row, "description") == Ok(r.description);
    assert CleanField(row, "folder_id") == Ok(r.folderId);
  }

  /** Every request a row yields is clean. */
  lemma RowRequestIsClean(row: map<string, Json>)
    ensures BookmarkFromRow(row).Ok? ==> CleanRequest(BookmarkFromRow(row).value)
  {
  }

  // ---------------------------------------------------------------------
  // Text files: one bookmark per line, "url|title|description|folder_id"

  /** What one line of a text file gives. */
  datatype LineResult = Skip | MissingUrl | Request(req: BookmarkRequest)

  /** The `i`-th segment of a split line, if there is one. */
  function Segment(segments: seq<string>, i: nat): Option<string> {
    if i < |segments| then Some(segments[i]) else None
  }

  function StripAll(parts: seq<string>): (r: seq<string>)
    ensures |r| == |parts|
    ensures forall i :: 0 <= i < |parts| ==> r[i] == Strip(parts[i])
  {
    if parts == [] then [] else [Strip(parts[0])] + StripAll(parts[1..])
  }

  /** A line that is blank once stripped, or a comment, gives nothing. The
      rest is split on '|' and each segment stripped. */
  function TextLine(line: string): (r: LineResult)
    ensures r == Skip <==> Strip(line) == [] || StartsWith(Strip(line), "#")
    ensures r.Request? ==> CleanRequest(r.req)
  {
    var t := Strip(line);
    if t == [] || StartsWith(t, "#") then Skip
    else LineFields(StripAll(Split(t, '|')))
  }

  /** The stripped segments of a line: the first is the url, which must not
      be empty; the next three are title, description and folder id,
      absent ones are `None` and later ones are ignored. */
  function LineFields(segments: seq<string>): (r: LineResult)
    requires |segments| >= 1
    ensures r != Skip
    ensures r == MissingUrl <==> segments[0] == []
    ensures r.Request? && Trimmed(segments[0]) ==> CleanRequest(r.req)
  {
    if segments[0] == [] then MissingUrl
    else Request(BookmarkRequest(segments[0], Clean(Segment(segments, 1)),
                                 Clean(Segment(segments, 2)), Clean(Segment(segments, 3))))
  }

  /** The line written for four fields, separated by '|'. */
  function FormatLine(url: string, title: string, description: string, folderId: string): string {
    url + "|" + title + "|" + description + "|" + folderId
  }

  /** The four fields are the pieces of the line between the '|'s. */
  lemma FormatLineJoins(url: string, title: string, description: string, folderId: string)
    ensures Join([url, title, description, folderId], '|') == FormatLine(url, title, description, folderId)
  {
    var parts := [url, title, description, folderId];
    assert parts[1..] == [title, description, folderId];
    assert parts[1..][1..] == [description, folderId];
    assert parts[1..][1..][1..] == [folderId];
    var tail := description + "|" + folderId;
    assert Join([description, folderId], '|') == tail;
    assert Join([title, description, folderId], '|') == title + "|" + tail;
    assert Join(parts, '|') == url + "|" + (title + "|" + tail);
    assert url + "|" + (title + "|" + tail) == FormatLine(url, title, description, folderId);
  }

  lemma FormatLineTrimmed(url: string, title: string, description: string, folderId: string)
    requires url != [] && Trimmed(url) && Trimmed(folderId)
    ensures var line := FormatLine(url, title, description, folderId);
      Trimmed(line) && line[0] == url[0]
  {
    var line := FormatLine(url, title, description, folderId);
    assert line[0] == url[0];
    if folderId != [] {
      assert line[|line| - 1] == folderId[|folderId| - 1];
    } else {
      assert line[|line| - 1] == '|';
    }
  }

  /** Four fields read back from their stripped segments. */
  lemma FourFields(url: string, title: string, description: string, folderId: string)
    requires url != []
    ensures LineFields([url, Strip(title), Strip(description), Strip(folderId)]) ==
      Request(BookmarkRequest(url, Clean(Some(title)), Clean(Some(description)), Clean(Some(folderId))))
  {
    var segments := [url, Strip(title), Strip(description), Strip(folderId)];
    assert Segment(segments, 1) == Some(Strip(title));
    assert Segment(segments, 2) == Some(Strip(description));
    assert Segment(segments, 3) == Some(Strip(folderId));
  }

  /** A line written from a url (non-empty, trimmed, not starting with '#')
      and three further fields without '|', the last one trimmed, is read
      back as those fields, each cleaned. */
  lemma TextLineOfFormat(url: string, title: string, description: string, folderId: string)
    requires url != [] && Trimmed(url) && url[0] != '#'
    requires '|' !in url && '|' !in title && '|' !in description && '|' !in folderId
    requires Trimmed(folderId)
    ensures TextLine(FormatLine(url, title, description, folderId)) ==
      Request(BookmarkRequest(url, Clean(Some(title)), Clean(Some(description)), Clean(Some(folderId))))
  {
    var line := FormatLine(url, title, description, folderId);
    var parts := [url, title, description, folderId];
    FormatLineJoins(url, title, description, folderId);
    SplitJoin(parts, '|');
    FormatLineTrimmed(url, title, description, folderId);
    assert !StartsWith(line, "#") by {
      assert line[..1] == [url[0]];
    }
    assert StripAll(parts) == [url, Strip(title), Strip(description), Strip(folderId)];
    FourFields(url, title, description, folderId);
  }

  function MissingUrlMessage(lineNumber: nat, name: string): string {
    "Missing URL on line " + NatToString(lineNumber) + " of " + name + "."
  }

  /** Each line of a text file is read on its own. */
  function ParseLines(lines: seq<string>): (rs: seq<LineResult>)
    ensures |rs| == |lines|
  {
    if lines == [] then [] else [TextLine(lines[0])] + ParseLines(lines[1..])
  }

  lemma {:induction false} ParseLinesAt(lines: seq<string>, j: nat)
    requires j < |lines|
    ensures ParseLines(lines)[j] == TextLine(lines[j])
  {
    if j > 0 {
      ParseLinesAt(lines[1..], j - 1);
    }
  }

  /** `_load_from_text` over the read lines of file `name`, numbered from
      `first`: the first line with an empty url ends the load. */
  function LoadLines(name: string, rs: seq<LineResult>, first: nat): Result<seq<LoadedBookmark>, LoadError>
    decreases |rs|
  {
    if rs == [] then Ok([])
    else
      match rs[0]
      case Skip => LoadLines(name, rs[1..], first + 1)
      case MissingUrl => Err(BookmarkLoadError(MissingUrlMessage(first, name)))
      case Request(req) => Prepend([LoadedBookmark(req, name, first)], LoadLines(name, rs[1..], first + 1))
  }

  function LoadText(name: string, lines: seq<string>): Result<seq<LoadedBookmark>, LoadError> {
    LoadLines(name, ParseLines(lines), 1)
  }

  /** The bookmarks of the lines that give one, numbered from `first`,
      leaving aside lines with an empty url. */
  function Records(name: string, rs: seq<LineResult>, first: nat): seq<LoadedBookmark>
    decreases |rs|
  {
    if rs == [] then []
    else (if rs[0].Request? then [LoadedBookmark(rs[0].req, name, first)] else []) + Records(name, rs[1..], first + 1)
  }

  function RequestCount(rs: seq<LineResult>): nat {
    if rs == [] then 0 else (if rs[0].Request? then 1 else 0) + RequestCount(rs[1..])
  }

  /** One bookmark per request line. */
  lemma {:induction false} RecordsCount(name: string, rs: seq<LineResult>, first: nat)
    ensures |Records(name, rs, first)| == RequestCount(rs)
    decreases |rs|
  {
    if rs != [] {
      RecordsCount(name, rs[1..], first + 1);
    }
  }

  /** Each bookmark carries the number and the request of its own line. */
  lemma {:induction false} RecordsMatchLines(name: string, rs: seq<LineResult>, first: nat)
    ensures forall k :: 0 <= k < |Records(name, rs, first)| ==>
      var b := Records(name, rs, first)[k];
      first <= b.lineNumber < first + |rs| && b.source == name && rs[b.lineNumber - first] == Request(b.request)
    decreases |rs|
  {
    if rs != [] {
      RecordsMatchLines(name, rs[1..], first + 1);
      var rest := Records(name, rs[1..], first + 1);
      var bs := Records(name, rs, first);
      var head := if rs[0].Request? then [LoadedBookmark(rs[0].req, name, first)] else [];
      assert bs == head + rest;
      forall k | 0 <= k < |bs|
        ensures first <= bs[k].lineNumber < first + |rs| && bs[k].source == name &&
          rs[bs[k].lineNumber - first] == Request(bs[k].request)
      {
        if k >= |head| {
          var b := rest[k - |head|];
          assert bs[k] == b;
          assert rs[1..][b.lineNumber - first - 1] == rs[b.lineNumber - first];
        }
      }
    }
  }

  /** Line numbers strictly increase along `bs`. */
  predicate InLineOrder(bs: seq<LoadedBookmark>) {
    forall k, l :: 0 <= k < l < |bs| ==> bs[k].lineNumber < bs[l].lineNumber
  }

  /** Bookmarks come in line order. */
  lemma {:induction false} RecordsInLineOrder(name: string, rs: seq<LineResult>, first: nat)
    ensures InLineOrder(Records(name, rs, first))
    decreases |rs|
  {
    if rs != [] {
      RecordsInLineOrder(name, rs[1..], first + 1);
      RecordsMatchLines(name, rs[1..], first + 1);
      var rest := Records(name, rs[1..], first + 1);
      if rs[0].Request? {
        var bs := [LoadedBookmark(rs[0].req, name, first)] + rest;
        assert Records(name, rs, first) == bs;
        forall k, l | 0 <= k < l < |bs|
          ensures bs[k].lineNumber < bs[l].lineNumber
        {
          assert bs[l] == rest[l - 1];
          if k > 0 {
            assert bs[k] == rest[k - 1];
          }
        }
      } else {
        assert Records(name, rs, first) == rest;
      }
    }
  }

  /** A text file loads exactly when no line has an empty url, and then
      gives the bookmarks of its request lines. */
  lemma {:induction false} LoadLinesOk(name: string, rs: seq<LineResult>, first: nat)
    ensures LoadLines(name, rs, first).Ok? <==> forall j :: 0 <= j < |rs| ==> rs[j] != MissingUrl
    ensures LoadLines(name, rs, first).Ok? ==> LoadLines(name, rs, first).value == Records(name, rs, first)
    decreases |rs|
  {
    if rs != [] {
      LoadLinesOk(name, rs[1..], first + 1);
      assert forall j :: 1 <= j < |rs| ==> rs[j] == rs[1..][j - 1];
    }
  }

  /** A failed text load names the first line with an empty url. */
  lemma {:induction false} LoadLinesFirstError(name: string, rs: seq<LineResult>, first: nat, j: nat)
    requires j < |rs| && rs[j] == MissingUrl
    requires forall i :: 0 <= i < j ==> rs[i] != MissingUrl
    ensures LoadLines(name, rs, first) == Err(BookmarkLoadError(MissingUrlMessage(first + j, name)))
    decreases |rs|
  {
    if j > 0 {
      assert forall i :: 0 <= i < j - 1 ==> rs[1..][i] == rs[i + 1];
      LoadLinesFirstError(name, rs[1..], first + 1, j - 1);
    }
  }

  /** One line of the loop: a missing url ends the load, a request moves
      to the bookmarks gathered so far, anything else is passed over. */
  lemma LoadLinesStep(name: string, rs: seq<LineResult>, first: nat, results: seq<LoadedBookmark>)
    requires rs != []
    ensures rs[0].MissingUrl? ==>
      Prepend(results, LoadLines(name, rs, first)) == Err(BookmarkLoadError(MissingUrlMessage(first, name)))
    ensures rs[0].Skip? ==>
      Prepend(results, LoadLines(name, rs, first)) == Prepend(results, LoadLines(name, rs[1..], first + 1))
    ensures rs[0].Request? ==>
      Prepend(results, LoadLines(name, rs, first)) ==
      Prepend(results + [LoadedBookmark(rs[0].req, name, first)], LoadLines(name, rs[1..], first + 1))
  {
    if rs[0].Request? {
      PrependOne(results, LoadedBookmark(rs[0].req, name, first), LoadLines(name, rs[1..], first + 1));
    }
  }

  /** Reading line `index` of the file. */
  method ReadLine(lines: seq<string>, index: nat) returns (r: LineResult)
    requires index < |lines|
    ensures r == ParseLines(lines)[index]
  {
    r := TextLine(lines[index]);
    ParseLinesAt(lines, index);
  }

  /** `_load_from_text` for file `name`, lines numbered from 1. */
  method LoadFromText(name: string, lines: seq<string>) returns (r: Result<seq<LoadedBookmark>, LoadError>)
    ensures r == LoadText(name, lines)
  {
    ghost var rs := ParseLines(lines);
    var results: seq<LoadedBookmark> := [];
    var index := 0;
    assert rs[0..] == rs;
    PrependEmpty(LoadLines(name, rs, 1));
    while index < |lines|
      invariant 0 <= index <= |lines|
      invariant LoadLines(name, rs, 1) == Prepend(results, LoadLines(name, rs[index..], index + 1))
      decreases |lines| - index
    {
      var line := ReadLine(lines, index);
      assert rs[index..][0] == line;
      assert rs[index..][1..] == rs[index + 1..];
      LoadLinesStep(name, rs[index..], index + 1, results);
      if line.MissingUrl? {
        return Err(BookmarkLoadError(MissingUrlMessage(index + 1, name)));
      }
      if line.Request? {
        results := results + [LoadedBookmark(line.req, name, index + 1)];
      }
      index := index + 1;
    }
    assert results + [] == results;
    return Ok(results);
  }

  // ---------------------------------------------------------------------
  // CSV and JSON files: one bookmark per record

  const NotObjectMessage: string := "JSON items must be objects containing at least a 'url' field."

  /** What one CSV or JSON record gives: it must be an object, read as a row. */
  function ItemResult(item: Json): (r: Result<BookmarkRequest, LoadError>)
    ensures !item.JObject? ==> r == Err(BookmarkLoadError(NotObjectMessage))
    ensures item.JObject? ==> r == BookmarkFromRow(item.fields)
  {
    if item.JObject? then BookmarkFromRow(item.fields) else Err(BookmarkLoadError(NotObjectMessage))
  }

  function ItemResults(items: seq<Json>): (rs: seq<Result<BookmarkRequest, LoadError>>)
    ensures |rs| == |items|
  {
    if items == [] then [] else [ItemResult(items[0])] + ItemResults(items[1..])
  }

  lemma {:induction false} ItemResultsAt(items: seq<Json>, j: nat)
    requires j < |items|
    ensures ItemResults(items)[j] == ItemResult(items[j])
  {
    if j > 0 {
      ItemResultsAt(items[1..], j - 1);
    }
  }

  /** The records of a CSV or JSON file, read, numbered from `first`; the
      first one that gives no request ends the load. */
  function LoadItems(name: string, rs: seq<Result<BookmarkRequest, LoadError>>, first: nat)
    : Result<seq<LoadedBookmark>, LoadError>
    decreases |rs|
  {
    if rs == [] then Ok([])
    else
      match rs[0]
      case Err(e) => Err(e)
      case Ok(req) => Prepend([LoadedBookmark(req, name, first)], LoadItems(name, rs[1..], first + 1))
  }

  /** A record load succeeds exactly when every record gives a request, and
      then keeps one bookmark per record, in order, numbered consecutively
      from `first`; otherwise it fails with the first record's error. */
  lemma {:induction false} LoadItemsOk(name: string, rs: seq<Result<BookmarkRequest, LoadError>>, first: nat)
    ensures LoadItems(name, rs, first).Ok? <==> forall j :: 0 <= j < |rs| ==> rs[j].Ok?
    ensures LoadItems(name, rs, first).Ok? ==>
      var bs := LoadItems(name, rs, first).value;
      |bs| == |rs| && forall j :: 0 <= j < |rs| ==> bs[j] == LoadedBookmark(rs[j].value, name, first + j)
    decreases |rs|
  {
    if rs != [] {
      LoadItemsOk(name, rs[1..], first + 1);
      assert forall j :: 1 <= j < |rs| ==> rs[j] == rs[1..][j - 1];
    }
  }

  /** A failed record load reports the error of the first bad record. */
  lemma {:induction false} LoadItemsFirstError(name: string, rs: seq<Result<BookmarkRequest, LoadError>>, first: nat, j: nat)
    requires j < |rs| && rs[j].Err?
    requires forall i :: 0 <= i < j ==> rs[i].Ok?
    ensures LoadItems(name, rs, first) == Err(rs[j].error)
    decreases |rs|
  {
    if j > 0 {
      assert forall i :: 0 <= i < j - 1 ==> rs[1..][i] == rs[i + 1];
      LoadItemsFirstError(name, rs[1..], first + 1, j - 1);
    }
  }

  /** One record of the loop: an error ends the load with that error, a
      request moves to the bookmarks gathered so far. */
  lemma LoadItemsStep(name: string, rs: seq<Result<BookmarkRequest, LoadError>>, first: nat,
                      results: seq<LoadedBookmark>)
    requires rs != []
    ensures rs[0].Err? ==> Prepend(results, LoadItems(name, rs, first)) == Err(rs[0].error)
    ensures rs[0].Ok? ==>
      Prepend(results, LoadItems(name, rs, first)) ==
      Prepend(results + [LoadedBookmark(rs[0].value, name, first)], LoadItems(name, rs[1..], first + 1))
  {
    if rs[0].Ok? {
      PrependOne(results, LoadedBookmark(rs[0].value, name, first), LoadItems(name, rs[1..], first + 1));
    }
  }

  /** The loop invariant of `LoadEntries` carried past record `index`. */
  lemma LoadEntriesStep(name: string, rs: seq<Result<BookmarkRequest, LoadError>>, first: nat, index: nat,
                        results: seq<LoadedBookmark>)
    requires index < |rs|
    requires LoadItems(name, rs, first) == Prepend(results, LoadItems(name, rs[index..], first + index))
    ensures rs[index].Err? ==> LoadItems(name, rs, first) == Err(rs[index].error)
    ensures rs[index].Ok? ==>
      LoadItems(name, rs, first) ==
      Prepend(results + [LoadedBookmark(rs[index].value, name, first + index)], LoadItems(name, rs[index + 1..], first + index + 1))
  {
    assert rs[index..][0] == rs[index];
    assert rs[index..][1..] == rs[index + 1..];
    LoadItemsStep(name, rs[index..], first + index, results);
  }

  /** Every record's result, each stated through `ItemResult`. */
  lemma ItemResultsEach(items: seq<Json>)
    ensures |ItemResults(items)| == |items|
    ensures forall j {:trigger ItemResult(items[j])} :: 0 <= j < |items| ==> ItemResults(items)[j] == ItemResult(items[j])
  {
    forall j | 0 <= j < |items|
      ensures ItemResults(items)[j] == ItemResult(items[j])
    {
      ItemResultsAt(items, j);
    }
  }

  /** Reading record `index`: an object is read as a row. */
  method ReadItem(items: seq<Json>, index: nat, ghost rs: seq<Result<BookmarkRequest, LoadError>>)
    returns (r: Result<BookmarkRequest, LoadError>)
    requires index < |items| == |rs|
    requires forall j {:trigger ItemResult(items[j])} :: 0 <= j < |items| ==> rs[j] == ItemResult(items[j])
    ensures r == rs[index]
  {
    var item := items[index];
    if !item.JObject? {
      r := Err(BookmarkLoadError(NotObjectMessage));
    } else {
      r := BookmarkFromRow(item.fields);
    }
    assert r == ItemResult(items[index]);
  }

  /** The loop shared by the CSV and JSON loaders. */
  method LoadEntries(name: string, items: seq<Json>, first: nat) returns (r: Result<seq<LoadedBookmark>, LoadError>)
    ensures r == LoadItems(name, ItemResults(items), first)
  {
    ItemResultsEach(items);
    r := LoadEach(name, items, ItemResults(items), first);
  }

  /** The loop over the records, whose results `rs` are given. */
  method LoadEach(name: string, items: seq<Json>, ghost rs: seq<Result<BookmarkRequest, LoadError>>, first: nat)
    returns (r: Result<seq<LoadedBookmark>, LoadError>)
    requires |items| == |rs|
    requires forall j {:trigger ItemResult(items[j])} :: 0 <= j < |items| ==> rs[j] == ItemResult(items[j])
    ensures r == LoadItems(name, rs, first)
  {
    var results: seq<LoadedBookmark> := [];
    var index := 0;
    assert rs[0..] == rs;
    PrependEmpty(LoadItems(name, rs, first));
    while index < |items|
      invariant 0 <= index <= |items|
      invariant LoadItems(name, rs, first) == Prepend(results, LoadItems(name, rs[index..], first + index))
      decreases |items| - index
    {
      var request := ReadItem(items, index, rs);
      LoadEntriesStep(name, rs, first, index, results);
      if request.Err? {
        return Err(request.error);
      }
      results := results + [LoadedBookmark(request.value, name, first + index)];
      index := index + 1;
    }
    assert results + [] == results;
    return Ok(results);
  }

  /** What the CSV reader sees: the header (none for an empty file) and
      each row as a map from column to value, missing trailing values
      absent. */
  datatype CsvTable = CsvTable(header: Option<seq<string>>, rows: seq<map<string, string>>)

  function CsvRecord(row: map<string, string>): (item: Json)
    ensures item.JObject? && forall k :: k in row <==> k in item.fields
    ensures forall k :: k in row ==> item.fields[k] == JString(row[k])
  {
    JObject(map k | k in row :: JString(row[k]))
  }

  function CsvRecords(rows: seq<map<string, string>>): (items: seq<Json>)
    ensures |items| == |rows|
    ensures forall j :: 0 <= j < |rows| ==> items[j] == CsvRecord(rows[j])
  {
    if rows == [] then [] else [CsvRecord(rows[0])] + CsvRecords(rows[1..])
  }

  const NoUrlColumnMessage: string := "CSV input must contain a 'url' column."

  /** `_load_from_csv`: the header must name a url column; rows are
      numbered from 2, the header being line 1. */
  function LoadCsv(name: string, table: CsvTable): (r: Result<seq<LoadedBookmark>, LoadError>)
    ensures table.header.None? ==> r == Err(WrongType)
    ensures table.header.Some? && "url" !in table.header.value ==> r == Err(BookmarkLoadError(NoUrlColumnMessage))
    ensures table.header.Some? && "url" in table.header.value ==> r == LoadItems(name, ItemResults(CsvRecords(table.rows)), 2)
  {
    match table.header
    case None => Err(WrongType)
    case Some(h) =>
      if "url" !in h then Err(BookmarkLoadError(NoUrlColumnMessage))
      else LoadItems(name, ItemResults(CsvRecords(table.rows)), 2)
  }

  method LoadFromCsv(name: string, table: CsvTable) returns (r: Result<seq<LoadedBookmark>, LoadError>)
    ensures r == LoadCsv(name, table)
  {
    if table.header.None? {
      return Err(WrongType);
    }
    if "url" !in table.header.value {
      return Err(BookmarkLoadError(NoUrlColumnMessage));
    }
    r := LoadEntries(name, CsvRecords(table.rows), 2);
  }

  const NotIterableMessage: string := "JSON input must be an iterable of items."

  /** `_load_from_json`: the document itself, or its "items" when it is an
      object, must be iterable. Iterating a string or an object yields
      strings, never objects, so either fails unless empty. Items are
      numbered from 1. */
  function LoadJson(name: string, doc: Json): (r: Result<seq<LoadedBookmark>, LoadError>)
    ensures doc.JArray? ==> r == LoadItems(name, ItemResults(doc.elems), 1)
    ensures doc.JObject? && Get(doc.fields, "items").JArray? ==> r == LoadItems(name, ItemResults(Get(doc.fields, "items").elems), 1)
    ensures doc.JObject? && Get(doc.fields, "items") == JNull ==> r == Err(BookmarkLoadError(NotIterableMessage))
    ensures var items := if doc.JObject? then Get(doc.fields, "items") else doc;
      items.JNumber? || items.JBool? || items.JNull? ==> r == Err(BookmarkLoadError(NotIterableMessage))
    ensures var items := if doc.JObject? then Get(doc.fields, "items") else doc;
      items.JString? || items.JObject? ==>
        (r.Ok? <==> (items.JString? && items.s == []) || (items.JObject? && |items.fields| == 0)) &&
        (r.Ok? ==> r.value == []) && (r.Err? ==> r.error == BookmarkLoadError(NotObjectMessage))
  {
    var items := if doc.JObject? then Get(doc.fields, "items") else doc;
    match items
    case JArray(e) => LoadItems(name, ItemResults(e), 1)
    case JString(s) => if s == [] then Ok([]) else Err(BookmarkLoadError(NotObjectMessage))
    case JObject(f) => if |f| == 0 then Ok([]) else Err(BookmarkLoadError(NotObjectMessage))
    case _ => Err(BookmarkLoadError(NotIterableMessage))
  }

  method LoadFromJson(name: string, doc: Json) returns (r: Result<seq<LoadedBookmark>, LoadError>)
    ensures r == LoadJson(name, doc)
  {
    var items := doc;
    if doc.JObject? {
      items := Get(doc.fields, "items");
    }
    if items.JArray? {
      r := LoadEntries(name, items.elems, 1);
    } else if items.JString? {
      r := if items.s == [] then Ok([]) else Err(BookmarkLoadError(NotObjectMessage));
    } else if items.JObject? {
      r := if |items.fields| == 0 then Ok([]) else Err(BookmarkLoadError(NotObjectMessage));
    } else {
      r := Err(BookmarkLoadError(NotIterableMessage));
    }
  }

  // ---------------------------------------------------------------------
  // Dispatch

  datatype Format = CsvFormat | JsonFormat | TextFormat

  /** `_loader_for_suffix` on a lower-cased suffix. */
  function LoaderForSuffix(suffix: string): (r: Result<Format, LoadError>)
    ensures r == Ok(CsvFormat) <==> suffix == ".csv"
    ensures r == Ok(JsonFormat) <==> suffix == ".json"
    ensures r == Ok(TextFormat) <==> suffix == ".txt" || suffix == []
    ensures r.Err? ==> r.error == BookmarkLoadError(
      "Unsupported input format '" + (if suffix == [] then "plain text" else suffix) + "'.")
  {
    if suffix == ".csv" then Ok(CsvFormat)
    else if suffix == ".json" then Ok(JsonFormat)
    else if suffix == ".txt" || suffix == [] then Ok(TextFormat)
    else Err(BookmarkLoadError("Unsupported input format '" + (if suffix == [] then "plain text" else suffix) + "'."))
  }

  /** The format of a file name, from its suffix, ignoring case. */
  function FormatOf(name: string): Result<Format, LoadError> {
    LoaderForSuffix(Lower(Suffix(name)))
  }

  /** Lower-casing never moves a dot. */
  lemma {:induction false} LowerLastDot(s: string)
    ensures LastIndexOf(Lower(s), '.') == LastIndexOf(s, '.')
    decreases |s|
  {
    if s != [] {
      assert Lower(s)[..|s| - 1] == Lower(s[..|s| - 1]);
      LowerLastDot(s[..|s| - 1]);
    }
  }

  lemma LowerSuffixSlice(s: string, i: nat)
    requires i <= |s|
    ensures Lower(s)[i..] == Lower(s[i..])
  {
  }

  lemma LowerIdempotent(s: string)
    ensures Lower(Lower(s)) == Lower(s)
  {
  }

  /** The suffix of a lower-cased name is the lower-cased suffix. */
  lemma SuffixOfLower(name: string)
    ensures Suffix(Lower(name)) == Lower(Suffix(name))
  {
    LowerLastDot(name);
    var d := LastIndexOf(name, '.');
    if d.Some? && 0 < d.value < |name| - 1 {
      LowerSuffixSlice(name, d.value);
    }
  }

  /** Format dispatch does not depend on the case of the name. */
  lemma FormatIgnoresCase(name: string)
    ensures FormatOf(Lower(name)) == FormatOf(name)
  {
    SuffixOfLower(name);
    LowerIdempotent(Suffix(name));
    assert Lower(Suffix(Lower(name))) == Lower(Suffix(name));
  }

  /** What the readers see of a file: its lines, its CSV table and its
      decoded JSON (only the one the format selects is read). */
  datatype FileData = FileData(lines: seq<string>, csv: CsvTable, json: Json)

  /** The requests of the loaded bookmarks, in order. */
  function RequestsOf(entries: seq<LoadedBookmark>): (rs: seq<BookmarkRequest>)
    ensures |rs| == |entries|
    ensures forall j :: 0 <= j < |entries| ==> rs[j] == entries[j].request
  {
    if entries == [] then [] else [entries[0].request] + RequestsOf(entries[1..])
  }

  function LoadFormat(format: Format, name: string, data: FileData): Result<seq<LoadedBookmark>, LoadError> {
    match format
    case CsvFormat => LoadCsv(name, data.csv)
    case JsonFormat => LoadJson(name, data.json)
    case TextFormat => LoadText(name, data.lines)
  }

  /** `load_from_path` for a file called `name`. */
  function LoadPath(name: string, data: FileData): (r: Result<seq<BookmarkRequest>, LoadError>)
    ensures FormatOf(name).Err? ==> r == Err(FormatOf(name).error)
    ensures FormatOf(name).Ok? ==>
      var loaded := LoadFormat(FormatOf(name).value, name, data);
      (r.Ok? <==> loaded.Ok?) &&
      (r.Ok? ==> r.value == RequestsOf(loaded.value)) &&
      (r.Err? ==> r.error == loaded.error)
  {
    match FormatOf(name)
    case Err(e) => Err(e)
    case Ok(format) =>
      match LoadFormat(format, name, data)
      case Err(e) => Err(e)
      case Ok(entries) => Ok(RequestsOf(entries))
  }

  method LoadWith(format: Format, name: string, data: FileData) returns (r: Result<seq<LoadedBookmark>, LoadError>)
    ensures r == LoadFormat(format, name, data)
  {
    match format
    case CsvFormat => r := LoadFromCsv(name, data.csv);
    case JsonFormat => r := LoadFromJson(name, data.json);
    case TextFormat => r := LoadFromText(name, data.lines);
  }

  method LoadFromPath(name: string, data: FileData) returns (r: Result<seq<BookmarkRequest>, LoadError>)
    ensures r == LoadPath(name, data)
  {
    var format := FormatOf(name);
    if format.Err? {
      return Err(format.error);
    }
    var loaded := LoadWith(format.value, name, data);
    if loaded.Err? {
      return Err(loaded.error);
    }
    return Ok(RequestsOf(loaded.value));
  }
}
