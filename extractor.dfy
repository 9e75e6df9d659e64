/** The bookmark and highlight extractor over the Instapaper library: the
    lazily authenticated session, the merge of the unread, archive and
    starred categories, the conversion of the library's records, the text
    lookup and the collection of highlights. The library's answers are a
    parameter: whether the login succeeds, and each category's bookmarks
    (`None` where the request raises). */
module Extractor {
  import opened Common

  /** A bookmark as the library returns it; an attribute it may lack is
      an `Option`, `text` is what `get_text()` returns (`None`: it
      raises) and `highlights` what `get_highlights()` returns. */
  datatype RawBookmark = RawBookmark(
    bookmarkId: int,
    title: Option<string>,
    url: Option<string>,
    description: Option<string>,
    time: Option<int>,
    progress: Option<real>,
    starred: Option<bool>,
    text: Option<string>,
    highlights: Option<seq<RawHighlight>>)

  datatype RawHighlight = RawHighlight(
    highlightId: int,
    bookmarkId: int,
    text: Option<string>,
    note: Option<string>,
    time: Option<int>,
    position: Option<int>)

  /** `BookmarkData`. */
  datatype BookmarkData = BookmarkData(
    bookmarkId: int,
    title: string,
    url: string,
    description: string,
    timeAdded: int,
    progress: real,
    starred: bool,
    fullText: Option<string>)

  /** `HighlightData`. */
  datatype HighlightData = HighlightData(
    highlightId: int,
    bookmarkId: int,
    text: string,
    note: Option<string>,
    time: int,
    position: int)

  /** What the service answers: whether logging in succeeds, and each
      category's bookmarks, `None` where fetching it raises. */
  datatype Library = Library(
    loginOk: bool,
    unread: Option<seq<RawBookmark>>,
    archive: Option<seq<RawBookmark>>,
    starred: Option<seq<RawBookmark>>)

  /** The library client held in `_client`: created before logging in, so
      it stays set, not logged in, when the login fails. */
  datatype Session = Session(loggedIn: bool)

  datatype ExtractError = AuthenticationError

  /** `x or ''` for an optional string. */
  function OrEmpty(s: Option<string>): (r: string)
    ensures s.Some? ==> r == s.value
    ensures s.None? ==> r == []
  {
    if s.Some? then s.value else []
  }

  // ---------------------------------------------------------------------
  // Conversion

  /** The record `get_all_bookmarks` builds: absent texts become '', an
      absent time 0, an absent progress 0.0, an absent starred false. */
  function ToBookmarkData(b: RawBookmark): (d: BookmarkData)
    ensures d.bookmarkId == b.bookmarkId && d.fullText.None?
    ensures d.title == OrEmpty(b.title) && d.url == OrEmpty(b.url) && d.description == OrEmpty(b.description)
    ensures d.timeAdded == (if b.time.Some? then b.time.value else 0)
    ensures d.progress == (if b.progress.Some? then b.progress.value else 0.0)
    ensures d.starred <==> b.starred == Some(true)
  {
    BookmarkData(b.bookmarkId, OrEmpty(b.title), OrEmpty(b.url), OrEmpty(b.description),
                 if b.time.Some? then b.time.value else 0,
                 if b.progress.Some? then b.progress.value else 0.0,
                 b.starred == Some(true), None)
  }

  /** The record `get_bookmark_highlights` builds: an absent text becomes
      '', an absent time or position 0, the note is kept as it is. */
  function ToHighlightData(h: RawHighlight): (d: HighlightData)
    ensures d.highlightId == h.highlightId && d.bookmarkId == h.bookmarkId && d.note == h.note
    ensures d.text == OrEmpty(h.text)
    ensures d.time == (if h.time.Some? then h.time.value else 0)
    ensures d.position == (if h.position.Some? then h.position.value else 0)
  {
    HighlightData(h.highlightId, h.bookmarkId, OrEmpty(h.text),
                  h.note,
                  if h.time.Some? then h.time.value else 0,
                  if h.position.Some? then h.position.value else 0)
  }

  function ConvertAll(raw: seq<RawBookmark>): (ds: seq<BookmarkData>)
    ensures |ds| == |raw|
    ensures forall k :: 0 <= k < |raw| ==> ds[k] == ToBookmarkData(raw[k])
  {
    seq(|raw|, k requires 0 <= k < |raw| => ToBookmarkData(raw[k]))
  }

  /** The conversion loop of `get_all_bookmarks`. */
  method ConvertBookmarks(raw: seq<RawBookmark>) returns (bookmarks: seq<BookmarkData>)
    ensures bookmarks == ConvertAll(raw)
  {
    bookmarks := [];
    var i := 0;
    while i < |raw|
      invariant 0 <= i <= |raw|
      invariant bookmarks == ConvertAll(raw[..i])
      decreases |raw| - i
    {
      bookmarks := bookmarks + [ToBookmarkData(raw[i])];
      i := i + 1;
      assert raw[..i] == raw[..i - 1] + [raw[i - 1]];
    }
    assert raw[..i] == raw;
  }

  /** What `get_bookmark_highlights` returns: the converted highlights in
      order, or nothing when fetching them fails. */
  function HighlightsOf(b: RawBookmark): (hs: seq<HighlightData>)
    ensures b.highlights.None? ==> hs == []
    ensures b.highlights.Some? ==>
      |hs| == |b.highlights.value| &&
      forall k :: 0 <= k < |hs| ==> hs[k] == ToHighlightData(b.highlights.value[k])
  {
    if b.highlights.None? then []
    else seq(|b.highlights.value|, k requires 0 <= k < |b.highlights.value| => ToHighlightData(b.highlights.value[k]))
  }

  // ---------------------------------------------------------------------
  // Merging the categories

  function Ids(bs: seq<RawBookmark>): set<int> {
    set b | b in bs :: b.bookmarkId
  }

  /** The starred bookmarks whose id is not among `existing`, in order. */
  function NewStarred(starred: seq<RawBookmark>, existing: set<int>): (r: seq<RawBookmark>)
    ensures forall b :: b in r <==> b in starred && b.bookmarkId !in existing
    decreases |starred|
  {
    if starred == [] then []
    else (if starred[0].bookmarkId in existing then [] else [starred[0]]) + NewStarred(starred[1..], existing)
  }

  /** `get_all_bookmarks` before conversion: unread, then archive with no
      deduplication between the two, then the starred ones not already
      present. */
  function Merged(unread: seq<RawBookmark>, archive: seq<RawBookmark>, starred: seq<RawBookmark>): seq<RawBookmark> {
    unread + archive + NewStarred(starred, Ids(unread + archive))
  }

  /** Unread and archive are kept whole and first; what follows are
      exactly the starred bookmarks whose id neither of them has; every id
      of the three categories is present. */
  lemma MergedKeepsCategories(unread: seq<RawBookmark>, archive: seq<RawBookmark>, starred: seq<RawBookmark>)
    ensures var m := Merged(unread, archive, starred);
      |m| >= |unread| + |archive| && m[..|unread| + |archive|] == unread + archive &&
      (forall b :: b in m[|unread| + |archive|..] <==> b in starred && b.bookmarkId !in Ids(unread + archive)) &&
      Ids(m) == Ids(unread) + Ids(archive) + Ids(starred)
  {
    var m := Merged(unread, archive, starred);
    var front := unread + archive;
    var rest := NewStarred(starred, Ids(front));
    assert m == front + rest;
    assert m[..|front|] == front;
    assert m[|front|..] == rest;
    forall id | id in Ids(starred)
      ensures id in Ids(m)
    {
      var b :| b in starred && b.bookmarkId == id;
      if id !in Ids(front) {
        assert b in rest;
        assert b in m;
      } else {
        var c :| c in front && c.bookmarkId == id;
        assert c in m;
      }
    }
    forall id | id in Ids(m)
      ensures id in Ids(unread) + Ids(archive) + Ids(starred)
    {
      var b :| b in m && b.bookmarkId == id;
      if b in front {
        assert b in unread || b in archive;
      } else {
        assert b in rest;
      }
    }
    forall id | id in Ids(unread) + Ids(archive)
      ensures id in Ids(m)
    {
      if id in Ids(unread) {
        var b :| b in unread && b.bookmarkId == id;
        assert b in m;
      } else {
        var b :| b in archive && b.bookmarkId == id;
        assert b in m;
      }
    }
  }

  /** A category whose fetch failed contributes nothing. */
  function Available(category: Option<seq<RawBookmark>>, loggedIn: bool): (r: seq<RawBookmark>)
    ensures r == [] <== category.None? || !loggedIn
  {
    if loggedIn && category.Some? then category.value else []
  }

  /** The session after the `client` property has been read. */
  function SessionAfter(session: Option<Session>, library: Library): Session {
    if session.None? then Session(library.loginOk) else session.value
  }

  /** The bookmarks `get_all_bookmarks` returns for a session state. */
  function AllBookmarks(loggedIn: bool, library: Library): seq<BookmarkData> {
    ConvertAll(Merged(Available(library.unread, loggedIn), Available(library.archive, loggedIn),
                      Available(library.starred, loggedIn)))
  }

  // ---------------------------------------------------------------------
  // Deduplication by id

  /** The first bookmark of each id, in order of first appearance. */
  function FirstById(bs: seq<RawBookmark>): seq<RawBookmark>
    decreases |bs|
  {
    if bs == [] then []
    else
      var init := bs[..|bs| - 1];
      var last := bs[|bs| - 1];
      if last.bookmarkId in Ids(init) then FirstById(init) else FirstById(init) + [last]
  }

  predicate DistinctIds(bs: seq<RawBookmark>) {
    forall i, j :: 0 <= i < j < |bs| ==> bs[i].bookmarkId != bs[j].bookmarkId
  }

  /** Deduplication keeps one bookmark per id, each the first of its id,
      and loses no id. */
  lemma {:induction false} FirstByIdKeepsFirst(bs: seq<RawBookmark>)
    ensures DistinctIds(FirstById(bs))
    ensures Ids(FirstById(bs)) == Ids(bs)
    ensures forall b :: b in FirstById(bs) ==> b in bs
    ensures forall j :: 0 <= j < |bs| && bs[j].bookmarkId !in Ids(bs[..j]) ==> bs[j] in FirstById(bs)
    decreases |bs|
  {
    if bs != [] {
      var init := bs[..|bs| - 1];
      var last := bs[|bs| - 1];
      FirstByIdKeepsFirst(init);
      assert bs == init + [last];
      forall j | 0 <= j < |bs| && bs[j].bookmarkId !in Ids(bs[..j])
        ensures bs[j] in FirstById(bs)
      {
        if j < |bs| - 1 {
          assert bs[..j] == init[..j];
          assert init[j] == bs[j];
        } else {
          assert bs[..j] == init;
        }
      }
      forall id | id in Ids(bs)
        ensures id in Ids(FirstById(bs))
      {
        var b :| b in bs && b.bookmarkId == id;
        if b in init {
          assert id in Ids(init);
        } else {
          assert b == last;
          if id in Ids(init) {
          } else {
            assert last in FirstById(bs);
          }
        }
      }
      forall id | id in Ids(FirstById(bs))
        ensures id in Ids(bs)
      {
        var b :| b in FirstById(bs) && b.bookmarkId == id;
        assert b in bs;
      }
    }
  }

  /** The dedup loop of `get_all_highlights`, with its `seen` set. */
  method Deduplicate(raw: seq<RawBookmark>) returns (unique: seq<RawBookmark>)
    ensures unique == FirstById(raw)
  {
    var seen: set<int> := {};
    unique := [];
    var i := 0;
    while i < |raw|
      invariant 0 <= i <= |raw|
      invariant unique == FirstById(raw[..i])
      invariant seen == Ids(raw[..i])
      decreases |raw| - i
    {
      var b := raw[i];
      assert raw[..i + 1][..i] == raw[..i] && raw[..i + 1][i] == b;
      if b.bookmarkId !in seen {
        seen := seen + {b.bookmarkId};
        unique := unique + [b];
      }
      i := i + 1;
      assert Ids(raw[..i]) == Ids(raw[..i - 1]) + {b.bookmarkId} by {
        assert raw[..i] == raw[..i - 1] + [b];
      }
    }
    assert raw[..i] == raw;
  }

  /** The highlights of each bookmark, concatenated in order. */
  function AllHighlightsOf(bs: seq<RawBookmark>): seq<HighlightData>
    decreases |bs|
  {
    if bs == [] then [] else AllHighlightsOf(bs[..|bs| - 1]) + HighlightsOf(bs[|bs| - 1])
  }

  /** Every highlight collected belongs to one of the bookmarks, in the
      bookmark's own list, and each bookmark's highlights all appear. */
  lemma {:induction false} AllHighlightsComplete(bs: seq<RawBookmark>)
    ensures forall h :: h in AllHighlightsOf(bs) <==> exists b :: b in bs && h in HighlightsOf(b)
    decreases |bs|
  {
    if bs != [] {
      var init := bs[..|bs| - 1];
      AllHighlightsComplete(init);
      assert bs == init + [bs[|bs| - 1]];
    }
  }

  // ---------------------------------------------------------------------
  // Text lookup

  /** The first bookmark with the given id. */
  function FirstWithId(bs: seq<RawBookmark>, id: int): (r: Option<RawBookmark>)
    ensures r.Some? ==> r.value in bs && r.value.bookmarkId == id
    ensures r.None? <==> id !in Ids(bs)
    decreases |bs|
  {
    if bs == [] then None
    else if bs[0].bookmarkId == id then Some(bs[0])
    else
      assert Ids(bs) == {bs[0].bookmarkId} + Ids(bs[1..]) by {
        assert bs == [bs[0]] + bs[1..];
      }
      FirstWithId(bs[1..], id)
  }

  /** `get_bookmark_text`: the text of the first bookmark with that id
      across unread, archive and starred, or '' when a category cannot be
      fetched, no bookmark has the id, or its text cannot be fetched. */
  function BookmarkText(loggedIn: bool, library: Library, id: int): string {
    if !loggedIn || library.unread.None? || library.archive.None? || library.starred.None? then []
    else
      match FirstWithId(library.unread.value + library.archive.value + library.starred.value, id)
      case None => []
      case Some(b) => OrEmpty(b.text)
  }

  /** The lookup loop of `get_bookmark_text`. */
  method FindText(bs: seq<RawBookmark>, id: int) returns (text: string)
    ensures text == if FirstWithId(bs, id).Some? then OrEmpty(FirstWithId(bs, id).value.text) else []
  {
    var i := 0;
    assert bs[0..] == bs;
    while i < |bs|
      invariant 0 <= i <= |bs|
      invariant FirstWithId(bs, id) == FirstWithId(bs[i..], id)
      decreases |bs| - i
    {
      assert bs[i..][0] == bs[i] && bs[i..][1..] == bs[i + 1..];
      if bs[i].bookmarkId == id {
        return OrEmpty(bs[i].text);
      }
      i := i + 1;
    }
    return [];
  }

  /** The conversion loop of `get_bookmark_highlights`. */
  method GetBookmarkHighlights(b: RawBookmark) returns (highlights: seq<HighlightData>)
    ensures highlights == HighlightsOf(b)
  {
    if b.highlights.None? {
      return [];
    }
    var raw := b.highlights.value;
    highlights := [];
    var i := 0;
    while i < |raw|
      invariant 0 <= i <= |raw|
      invariant |highlights| == i
      invariant forall k :: 0 <= k < i ==> highlights[k] == ToHighlightData(raw[k])
      decreases |raw| - i
    {
      highlights := highlights + [ToHighlightData(raw[i])];
      i := i + 1;
    }
  }

  /** `InstapaperExtractor`: the credentials and the lazily created
      library client. */
  class InstapaperExtractor {
    const consumerKey: string
    const consumerSecret: string
    const username: string
    const password: string
    var session: Option<Session>

    constructor(consumerKey: string, consumerSecret: string, username: string, password: string)
      ensures this.consumerKey == consumerKey && this.consumerSecret == consumerSecret
      ensures this.username == username && this.password == password
      ensures session.None?
    {
      this.consumerKey := consumerKey;
      this.consumerSecret := consumerSecret;
      this.username := username;
      this.password := password;
      session := None;
    }

    /** `authenticate`: a new client is stored, then logged in; a failed
        login is an `AuthenticationError` and leaves that client stored. */
    method Authenticate(library: Library) returns (r: Result<(), ExtractError>)
      modifies this
      ensures session == Some(Session(library.loginOk))
      ensures r.Ok? <==> library.loginOk
    {
      session := Some(Session(false));
      if !library.loginOk {
        return Err(AuthenticationError);
      }
      session := Some(Session(true));
      return Ok(());
    }

    /** The `client` property: authenticates only when no client is
        stored yet. */
    method Client(library: Library) returns (r: Result<Session, ExtractError>)
      modifies this
      ensures session == Some(SessionAfter(old(session), library))
      ensures old(session).Some? ==> r == Ok(old(session).value)
      ensures old(session).None? ==> (r.Ok? <==> library.loginOk) && (r.Ok? ==> r.value == Session(true))
    {
      if session.None? {
        var auth := Authenticate(library);
        if auth.Err? {
          return Err(auth.error);
        }
      }
      return Ok(session.value);
    }

    /** `self.client.get_bookmarks(category)`: `None` where it raises,
        because the client cannot be had, is not logged in, or the
        category cannot be fetched. */
    method GetBookmarks(category: Option<seq<RawBookmark>>, library: Library) returns (r: Option<seq<RawBookmark>>)
      modifies this
      ensures session == Some(SessionAfter(old(session), library))
      ensures r == if SessionAfter(old(session), library).loggedIn then category else None
    {
      var client := Client(library);
      if client.Err? || !client.value.loggedIn {
        return None;
      }
      return category;
    }

    /** `get_all_bookmarks`: each category that fails is skipped. */
    method GetAllBookmarks(library: Library) returns (bookmarks: seq<BookmarkData>)
      modifies this
      ensures session == Some(SessionAfter(old(session), library))
      ensures bookmarks == AllBookmarks(SessionAfter(old(session), library).loggedIn, library)
    {
      ghost var loggedIn := SessionAfter(session, library).loggedIn;
      var raw: seq<RawBookmark> := [];
      var unread := GetBookmarks(library.unread, library);
      if unread.Some? {
        raw := raw + unread.value;
      }
      assert raw == Available(library.unread, loggedIn);
      var archive := GetBookmarks(library.archive, library);
      if archive.Some? {
        raw := raw + archive.value;
      }
      assert raw == Available(library.unread, loggedIn) + Available(library.archive, loggedIn);
      var starred := GetBookmarks(library.starred, library);
      assert starred == if loggedIn then library.starred else None;
      if starred.Some? {
        var existing := set b | b in raw :: b.bookmarkId;
        raw := raw + NewStarred(starred.value, existing);
      }
      assert raw == Merged(Available(library.unread, loggedIn), Available(library.archive, loggedIn),
                           Available(library.starred, loggedIn));
      if raw == [] {
        return [];
      }
      bookmarks := ConvertBookmarks(raw);
    }

    /** `get_bookmark_text`. */
    method GetBookmarkText(id: int, library: Library) returns (text: string)
      modifies this
      ensures session == Some(SessionAfter(old(session), library))
      ensures text == BookmarkText(SessionAfter(old(session), library).loggedIn, library, id)
    {
      var unread := GetBookmarks(library.unread, library);
      if unread.None? {
        return [];
      }
      var archive := GetBookmarks(library.archive, library);
      if archive.None? {
        return [];
      }
      var starred := GetBookmarks(library.starred, library);
      if starred.None? {
        return [];
      }
      text := FindText(unread.value + archive.value + starred.value, id);
    }

    /** `get_all_highlights`: the three categories, each skipped on
        failure, deduplicated by id keeping the first, then every kept
        bookmark's highlights in that order. */
    method GetAllHighlights(library: Library) returns (highlights: seq<HighlightData>)
      modifies this
      ensures session == Some(SessionAfter(old(session), library))
      ensures highlights == AllHighlights(SessionAfter(old(session), library).loggedIn, library)
    {
      ghost var loggedIn := SessionAfter(session, library).loggedIn;
      var raw: seq<RawBookmark> := [];
      var unread := GetBookmarks(library.unread, library);
      if unread.Some? {
        raw := raw + unread.value;
      }
      var archive := GetBookmarks(library.archive, library);
      if archive.Some? {
        raw := raw + archive.value;
      }
      assert raw == Available(library.unread, loggedIn) + Available(library.archive, loggedIn);
      var starred := GetBookmarks(library.starred, library);
      if starred.Some? {
        raw := raw + starred.value;
      }
      assert raw == Available(library.unread, loggedIn) + Available(library.archive, loggedIn) +
                    Available(library.starred, loggedIn);
      var unique := Deduplicate(raw);
      highlights := [];
      var i := 0;
      while i < |unique|
        invariant 0 <= i <= |unique|
        invariant highlights == AllHighlightsOf(unique[..i])
        invariant session == Some(SessionAfter(old(session), library))
        decreases |unique| - i
      {
        var one := GetBookmarkHighlights(unique[i]);
        assert unique[..i + 1][..i] == unique[..i] && unique[..i + 1][i] == unique[i];
        highlights := highlights + one;
        i := i + 1;
      }
      assert unique[..i] == unique;
    }
  }

  /** The highlights `get_all_highlights` returns for a session state. */
  function AllHighlights(loggedIn: bool, library: Library): seq<HighlightData> {
    AllHighlightsOf(FirstById(Available(library.unread, loggedIn) + Available(library.archive, loggedIn) +
                              Available(library.starred, loggedIn)))
  }
}
