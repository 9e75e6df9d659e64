/** The bookmark-upload client: the request payload, the access-token reply
    of the xAuth exchange, the add-bookmark status rule and ordered bulk
    submission. The HTTP session is replaced by its replies, passed in as
    `Response` values; the client records every payload it posts. */
module UploadClient {
  import opened Common

  /** A bookmark to add; absent optional fields are `None`. */
  datatype BookmarkRequest = BookmarkRequest(
    url: string,
    title: Option<string>,
    description: Option<string>,
    folderId: Option<string>)

  /** The form fields posted for a request: the url always, every other
      field only when it is set and non-empty. */
  function ToPayload(r: BookmarkRequest): (p: map<string, string>)
    ensures "url" in p && p["url"] == r.url
    ensures "title" in p <==> Truthy(r.title)
    ensures "description" in p <==> Truthy(r.description)
    ensures "folder_id" in p <==> Truthy(r.folderId)
    ensures "title" in p ==> p["title"] == r.title.value
    ensures "description" in p ==> p["description"] == r.description.value
    ensures "folder_id" in p ==> p["folder_id"] == r.folderId.value
    ensures p.Keys <= {"url", "title", "description", "folder_id"}
  {
    var p0 := map["url" := r.url];
    var p1 := if Truthy(r.title) then p0["title" := r.title.value] else p0;
    var p2 := if Truthy(r.description) then p1["description" := r.description.value] else p1;
    if Truthy(r.folderId) then p2["folder_id" := r.folderId.value] else p2
  }

  /** A reply from the service: its status, text body and decoded JSON body. */
  datatype Response = Response(status: int, text: string, body: map<string, string>)

  datatype ErrorKind = AuthenticationFailed | UnparsableToken | AddFailed

  /** An API error always carries the HTTP status of the reply. */
  datatype InstapaperError = InstapaperError(kind: ErrorKind, status: int)

  // ---------------------------------------------------------------------
  // Form-encoded bodies (section 2.3 of RFC 5849: oauth_token and
  // oauth_token_secret in application/x-www-form-urlencoded form)

  /** Index of the first `c` in `s`. */
  function IndexOf(s: string, c: char): (r: Option<nat>)
    ensures r.Some? ==> r.value < |s| && s[r.value] == c
    ensures r.Some? ==> forall i :: 0 <= i < r.value ==> s[i] != c
    ensures r.None? <==> c !in s
  {
    if s == [] then None
    else if s[0] == c then Some(0)
    else
      var r := IndexOf(s[1..], c);
      if r.Some? then Some(r.value + 1)
      else
        assert s == [s[0]] + s[1..];
        None
  }

  /** One `name=value` piece, split at its first '='. A piece without '='
      or with an empty value contributes nothing (blank values are not kept). */
  function ParsePiece(piece: string): (r: Option<(string, string)>)
    ensures r.Some? ==> r.value.1 != [] && '=' !in r.value.0 && piece == r.value.0 + "=" + r.value.1
  {
    match IndexOf(piece, '=')
    case None => None
    case Some(k) =>
      if k + 1 < |piece| then
        assert piece == piece[..k] + "=" + piece[k + 1..];
        Some((piece[..k], piece[k + 1..]))
      else None
  }

  function ParsePieces(pieces: seq<string>): seq<(string, string)> {
    if pieces == [] then []
    else (if ParsePiece(pieces[0]).Some? then [ParsePiece(pieces[0]).value] else []) + ParsePieces(pieces[1..])
  }

  /** The name/value pairs of a form-encoded body, in order (percent-decoding
      is not modelled). */
  function QueryPairs(text: string): seq<(string, string)> {
    ParsePieces(Split(text, '&'))
  }

  /** The first value given for `name`, as `parse_qs(text)[name][0]`. */
  function FirstValue(pairs: seq<(string, string)>, name: string): (r: Option<string>)
    ensures r.Some? ==> exists i :: 0 <= i < |pairs| && pairs[i] == (name, r.value)
    ensures r.None? ==> forall i :: 0 <= i < |pairs| ==> pairs[i].0 != name
  {
    if pairs == [] then None
    else if pairs[0].0 == name then Some(pairs[0].1)
    else
      var r := FirstValue(pairs[1..], name);
      if r.Some? then
        var i :| 0 <= i < |pairs[1..]| && pairs[1..][i] == (name, r.value);
        assert pairs[i + 1] == (name, r.value);
        r
      else r
  }

  /** The encoding partner of `QueryPairs`. */
  function FormEncode(pairs: seq<(string, string)>): string {
    Join(Pieces(pairs), '&')
  }

  function Pieces(pairs: seq<(string, string)>): (ps: seq<string>)
    ensures |ps| == |pairs|
    ensures forall i :: 0 <= i < |pairs| ==> ps[i] == pairs[i].0 + "=" + pairs[i].1
  {
    if pairs == [] then [] else [pairs[0].0 + "=" + pairs[0].1] + Pieces(pairs[1..])
  }

  /** Pairs that survive encoding: names without '=' or '&', non-empty
      values without '&'. */
  predicate Encodable(pairs: seq<(string, string)>) {
    forall i :: 0 <= i < |pairs| ==>
      '=' !in pairs[i].0 && '&' !in pairs[i].0 && '&' !in pairs[i].1 && pairs[i].1 != []
  }

  lemma {:induction false} ParsePiecesOfPieces(pairs: seq<(string, string)>)
    requires Encodable(pairs)
    ensures ParsePieces(Pieces(pairs)) == pairs
  {
    if pairs != [] {
      PieceOfPair(pairs[0].0, pairs[0].1);
      assert Pieces(pairs)[1..] == Pieces(pairs[1..]);
      ParsePiecesOfPieces(pairs[1..]);
    }
  }

  /** A piece written from a name without '=' and a non-empty value
      splits back into them. */
  lemma PieceOfPair(k: string, v: string)
    requires '=' !in k && v != []
    ensures ParsePiece(k + "=" + v) == Some((k, v))
  {
    var piece := k + "=" + v;
    assert IndexOf(piece, '=') == Some(|k|) by {
      assert piece[|k|] == '=';
      assert forall i :: 0 <= i < |k| ==> piece[i] == k[i];
    }
    assert piece[..|k|] == k && piece[|k| + 1..] == v;
  }

  /** Decoding an encoded body gives the pairs back. */
  lemma QueryPairsRoundTrip(pairs: seq<(string, string)>)
    requires Encodable(pairs)
    ensures QueryPairs(FormEncode(pairs)) == pairs
  {
    var ps := Pieces(pairs);
    if pairs == [] {
      assert Split([], '&') == [[]];
    } else {
      forall i | 0 <= i < |ps| ensures '&' !in ps[i] {
        assert ps[i] == pairs[i].0 + "=" + pairs[i].1;
      }
      SplitJoin(ps, '&');
      ParsePiecesOfPieces(pairs);
    }
  }

  /** `_parse_access_token_response`: the token and secret of a 200 reply. */
  function ParseAccessTokenResponse(resp: Response): (r: Result<(string, string), InstapaperError>)
    ensures resp.status != 200 ==> r == Err(InstapaperError(AuthenticationFailed, resp.status))
    ensures resp.status == 200 && r.Err? ==> r.error == InstapaperError(UnparsableToken, 200)
    ensures r.Ok? ==> resp.status == 200 && r.value.0 != [] && r.value.1 != []
    ensures r.Ok? <==> (resp.status == 200 &&
                        FirstValue(QueryPairs(resp.text), "oauth_token").Some? &&
                        FirstValue(QueryPairs(resp.text), "oauth_token_secret").Some?)
  {
    if resp.status != 200 then Err(InstapaperError(AuthenticationFailed, resp.status))
    else
      var pairs := QueryPairs(resp.text);
      var token := FirstValue(pairs, "oauth_token");
      var secret := FirstValue(pairs, "oauth_token_secret");
      if token.None? || secret.None? then Err(InstapaperError(UnparsableToken, 200))
      else
        ParsedValuesNonEmpty(resp.text, "oauth_token");
        ParsedValuesNonEmpty(resp.text, "oauth_token_secret");
        Ok((token.value, secret.value))
  }

  lemma ParsedValuesNonEmpty(text: string, name: string)
    ensures FirstValue(QueryPairs(text), name).Some? ==> FirstValue(QueryPairs(text), name).value != []
  {
    ParsePiecesNonEmpty(Split(text, '&'));
  }

  lemma {:induction false} ParsePiecesNonEmpty(pieces: seq<string>)
    ensures forall i :: 0 <= i < |ParsePieces(pieces)| ==> ParsePieces(pieces)[i].1 != []
  {
    if pieces != [] {
      ParsePiecesNonEmpty(pieces[1..]);
    }
  }

  /** A well-formed token reply yields exactly its token and secret. */
  lemma AccessTokenRoundTrip(token: string, secret: string)
    requires token != [] && secret != [] && '&' !in token && '&' !in secret
    ensures ParseAccessTokenResponse(Response(200, FormEncode([("oauth_token", token), ("oauth_token_secret", secret)]), map[]))
      == Ok((token, secret))
  {
    var pairs := [("oauth_token", token), ("oauth_token_secret", secret)];
    assert '=' !in "oauth_token" && '&' !in "oauth_token";
    assert '=' !in "oauth_token_secret" && '&' !in "oauth_token_secret";
    QueryPairsRoundTrip(pairs);
    assert FirstValue(pairs, "oauth_token") == Some(token);
    assert FirstValue(pairs[1..], "oauth_token_secret") == Some(secret);
  }

  /** The reply "oauth_token=a&oauth_token_secret=b" yields ("a", "b"). */
  lemma AccessTokenExample()
    ensures ParseAccessTokenResponse(Response(200, "oauth_token=a&oauth_token_secret=b", map[])) == Ok(("a", "b"))
  {
    AccessTokenRoundTrip("a", "b");
    ExampleEncoding();
  }

  lemma ExampleEncoding()
    ensures FormEncode([("oauth_token", "a"), ("oauth_token_secret", "b")]) == "oauth_token=a&oauth_token_secret=b"
  {
    var pairs := [("oauth_token", "a"), ("oauth_token_secret", "b")];
    var p0 := "oauth_token" + "=" + "a";
    var p1 := "oauth_token_secret" + "=" + "b";
    assert Pieces(pairs) == [p0, p1];
    assert FormEncode(pairs) == p0 + "&" + p1;
    LiteralConcat();
  }

  lemma LiteralConcat()
    ensures ("oauth_token" + "=" + "a") + "&" + ("oauth_token_secret" + "=" + "b") == "oauth_token=a&oauth_token_secret=b"
  {
  }

  /** The status rule of `add_bookmark`: the JSON body on 200, an error
      carrying the status otherwise. */
  function AddResult(resp: Response): (r: Result<map<string, string>, InstapaperError>)
    ensures r.Ok? <==> resp.status == 200
    ensures r.Ok? ==> r.value == resp.body
    ensures r.Err? ==> r.error == InstapaperError(AddFailed, resp.status)
  {
    if resp.status == 200 then Ok(resp.body) else Err(InstapaperError(AddFailed, resp.status))
  }

  /** The error of making sure of a session: none when already signed in,
      otherwise the error of the token reply, if any. */
  function SessionFailure(signedIn: bool, auth: Response): (e: Option<InstapaperError>)
    ensures signedIn ==> e.None?
    ensures !signedIn ==> (e.None? <==> ParseAccessTokenResponse(auth).Ok?)
  {
    if signedIn then None
    else match ParseAccessTokenResponse(auth)
      case Ok(_) => None
      case Err(err) => Some(err)
  }

  /** The outcome of `bulk_add` and the number of payloads it posts. The
      requests are sent in order; `session` is the failure, if any, of
      making sure of a session before the first one (later ones find the
      client signed in); the first failure, of the session or of an add,
      ends the run. */
  function BulkOutcome(session: Option<InstapaperError>, requests: seq<BookmarkRequest>, replies: seq<Response>)
    : (r: (Result<seq<map<string, string>>, InstapaperError>, nat))
    requires |replies| == |requests|
    ensures r.1 <= |requests|
    decreases |requests|
  {
    if requests == [] then (Ok([]), 0)
    else if session.Some? then (Err(session.value), 0)
    else if replies[0].status != 200 then (Err(InstapaperError(AddFailed, replies[0].status)), 1)
    else
      var (rest, n) := BulkOutcome(None, requests[1..], replies[1..]);
      (if rest.Ok? then Ok([replies[0].body] + rest.value) else rest, n + 1)
  }

  /** A successful bulk add returns one body per request, in request
      order, having posted every request. */
  lemma {:induction false} BulkOkInOrder(session: Option<InstapaperError>, requests: seq<BookmarkRequest>, replies: seq<Response>)
    requires |replies| == |requests|
    ensures BulkOutcome(session, requests, replies).0.Ok? ==>
      var bodies := BulkOutcome(session, requests, replies).0.value;
      |bodies| == |requests| && BulkOutcome(session, requests, replies).1 == |requests| &&
      forall i :: 0 <= i < |requests| ==> replies[i].status == 200 && bodies[i] == replies[i].body
    decreases |requests|
  {
    if requests != [] {
      BulkOkInOrder(None, requests[1..], replies[1..]);
    }
  }

  /** Once signed in, a bulk add fails exactly when some reply is not 200,
      with the status of the first such reply, after posting the requests
      up to and including that one. */
  lemma {:induction false} BulkStopsAtFirstFailure(requests: seq<BookmarkRequest>, replies: seq<Response>, k: nat)
    requires |replies| == |requests|
    requires k < |replies| && replies[k].status != 200
    requires forall i :: 0 <= i < k ==> replies[i].status == 200
    ensures BulkOutcome(None, requests, replies) == (Err(InstapaperError(AddFailed, replies[k].status)), k + 1)
    decreases |requests|
  {
    if k > 0 {
      BulkStopsAtFirstFailure(requests[1..], replies[1..], k - 1);
    }
  }

  /** The payloads of the requests, in order. */
  function Payloads(requests: seq<BookmarkRequest>): (ps: seq<map<string, string>>)
    ensures |ps| == |requests|
  {
    if requests == [] then []
    else Payloads(requests[..|requests| - 1]) + [ToPayload(requests[|requests| - 1])]
  }

  /** The first request ends the run when the session or its add fails. */
  lemma BulkFailure(session: Option<InstapaperError>, requests: seq<BookmarkRequest>, replies: seq<Response>)
    requires |replies| == |requests| > 0
    ensures session.Some? ==> BulkOutcome(session, requests, replies) == (Err(session.value), 0)
    ensures session.None? && replies[0].status != 200 ==>
      BulkOutcome(session, requests, replies) == (Err(InstapaperError(AddFailed, replies[0].status)), 1)
  {
  }

  /** One successful add moves its body from the outcome of the remaining
      requests to the results gathered so far. */
  lemma BulkStep(session: Option<InstapaperError>, requests: seq<BookmarkRequest>, replies: seq<Response>,
                 results: seq<map<string, string>>)
    requires |replies| == |requests| > 0
    requires session.None? && replies[0].status == 200
    ensures var next := BulkOutcome(None, requests[1..], replies[1..]);
      Prepend(results, BulkOutcome(session, requests, replies).0) == Prepend(results + [replies[0].body], next.0) &&
      BulkOutcome(session, requests, replies).1 == next.1 + 1
  {
    PrependOne(results, replies[0].body, BulkOutcome(None, requests[1..], replies[1..]).0);
  }

  /** The access token and secret once a session is made sure of: kept
      when signed in, the parsed pair when authentication succeeds, and
      otherwise left as they were. */
  function SessionTokens(signedIn: bool, tokens: (Option<string>, Option<string>), auth: Response)
    : (t: (Option<string>, Option<string>))
    ensures signedIn || ParseAccessTokenResponse(auth).Err? ==> t == tokens
    ensures !signedIn && ParseAccessTokenResponse(auth).Ok? ==>
      t == (Some(ParseAccessTokenResponse(auth).value.0), Some(ParseAccessTokenResponse(auth).value.1))
  {
    if signedIn then tokens
    else match ParseAccessTokenResponse(auth)
      case Ok(ts) => (Some(ts.0), Some(ts.1))
      case Err(_) => tokens
  }

  /** The client: credentials are fixed at creation, the access token and
      secret are filled in by authentication. */
  class InstapaperClient {
    const consumerKey: string
    const consumerSecret: string
    const username: string
    const password: string
    var accessToken: Option<string>
    var accessTokenSecret: Option<string>
    /** Every payload posted to the add endpoint, in order. */
    ghost var posted: seq<map<string, string>>

    predicate Valid()
      reads this
    {
      consumerKey != [] && consumerSecret != [] && username != [] && password != []
    }

    /** The access token and its secret. */
    function Tokens(): (Option<string>, Option<string>)
      reads this
    {
      (accessToken, accessTokenSecret)
    }

    /** Both halves of the access token are present and non-empty. */
    predicate SignedIn()
      reads this
    {
      Truthy(accessToken) && Truthy(accessTokenSecret)
    }

    constructor(consumerKey: string, consumerSecret: string, username: string, password: string)
      requires consumerKey != [] && consumerSecret != [] && username != [] && password != []
      ensures Valid() && !SignedIn() && posted == []
      ensures this.consumerKey == consumerKey && this.consumerSecret == consumerSecret
      ensures this.username == username && this.password == password
    {
      this.consumerKey := consumerKey;
      this.consumerSecret := consumerSecret;
      this.username := username;
      this.password := password;
      accessToken := None;
      accessTokenSecret := None;
      posted := [];
    }

    /** Creation refuses an empty credential (the `ValueError` path). */
    static method Create(consumerKey: string, consumerSecret: string, username: string, password: string)
      returns (r: Result<InstapaperClient, string>)
      ensures r.Ok? <==> consumerKey != [] && consumerSecret != [] && username != [] && password != []
      ensures r.Ok? ==> fresh(r.value) && r.value.Valid() && !r.value.SignedIn() && r.value.posted == []
      ensures r.Err? ==> r.error == "All Instapaper credentials must be provided."
    {
      if consumerKey == [] || consumerSecret == [] || username == [] || password == [] {
        return Err("All Instapaper credentials must be provided.");
      }
      var c := new InstapaperClient(consumerKey, consumerSecret, username, password);
      return Ok(c);
    }

    /** `authenticate`: store the token and secret of the reply; on an
        error nothing is stored. */
    method Authenticate(reply: Response) returns (r: Result<(), InstapaperError>)
      modifies this
      ensures posted == old(posted)
      ensures var p := ParseAccessTokenResponse(reply);
        match p
        case Ok(ts) => r == Ok(()) && accessToken == Some(ts.0) && accessTokenSecret == Some(ts.1) && SignedIn()
        case Err(e) => r == Err(e) && unchanged(this)
    {
      var p := ParseAccessTokenResponse(reply);
      if p.Err? {
        return Err(p.error);
      }
      accessToken := Some(p.value.0);
      accessTokenSecret := Some(p.value.1);
      return Ok(());
    }

    /** `_ensure_session`: authenticate only when a token half is missing. */
    method EnsureSession(auth: Response) returns (r: Result<(), InstapaperError>)
      modifies this
      ensures posted == old(posted)
      ensures old(SignedIn()) ==> r == Ok(()) && unchanged(this)
      ensures !old(SignedIn()) ==>
        (r.Ok? <==> ParseAccessTokenResponse(auth).Ok?) &&
        (r.Ok? ==> SignedIn()) &&
        (r.Err? ==> r.error == ParseAccessTokenResponse(auth).error && unchanged(this))
    ensures Tokens() == SessionTokens(old(SignedIn()), old(Tokens()), auth)
    {
      if !SignedIn() {
        r := Authenticate(auth);
      } else {
        r := Ok(());
      }
    }

    /** `add_bookmark`: make sure of a session (authenticating with `auth`
        if needed), post the payload, and apply the status rule to `reply`. */
    method AddBookmark(request: BookmarkRequest, auth: Response, reply: Response)
      returns (r: Result<map<string, string>, InstapaperError>)
      modifies this
      ensures old(SignedIn()) ==> accessToken == old(accessToken) && accessTokenSecret == old(accessTokenSecret)
      ensures Tokens() == SessionTokens(old(SignedIn()), old(Tokens()), auth)
      ensures var failure := SessionFailure(old(SignedIn()), auth);
        if failure.Some? then r == Err(failure.value) && posted == old(posted) && !SignedIn()
        else r == AddResult(reply) && posted == old(posted) + [ToPayload(request)] && SignedIn()
    {
      var s := EnsureSession(auth);
      if s.Err? {
        return Err(s.error);
      }
      posted := posted + [ToPayload(request)];
      r := AddResult(reply);
    }

    /** `bulk_add`: add the requests in order, the i-th answered by
        `replies[i]`, stopping at the first failure. */
    method BulkAdd(requests: seq<BookmarkRequest>, auth: Response, replies: seq<Response>)
      returns (r: Result<seq<map<string, string>>, InstapaperError>)
      requires |replies| == |requests|
      modifies this
      ensures r == BulkOutcome(SessionFailure(old(SignedIn()), auth), requests, replies).0
      ensures posted == old(posted) + Payloads(requests[..BulkOutcome(SessionFailure(old(SignedIn()), auth), requests, replies).1])
      ensures Tokens() == if requests == [] then old(Tokens()) else SessionTokens(old(SignedIn()), old(Tokens()), auth)
      ensures requests != [] && SessionFailure(old(SignedIn()), auth).None? ==> SignedIn()
      ensures old(SignedIn()) || requests == [] || SessionFailure(old(SignedIn()), auth).Some? ==>
        Tokens() == old(Tokens())
    {
      var results: seq<map<string, string>> := [];
      var i := 0;
      ghost var session := SessionFailure(SignedIn(), auth);
      ghost var start := BulkOutcome(session, requests, replies);
      assert requests[0..] == requests && replies[0..] == replies;
      PrependEmpty(start.0);
      while i < |requests|
        invariant 0 <= i <= |requests|
        invariant session == SessionFailure(SignedIn(), auth)
        invariant start.0 == Prepend(results, BulkOutcome(session, requests[i..], replies[i..]).0)
        invariant start.1 == i + BulkOutcome(session, requests[i..], replies[i..]).1
        invariant posted == old(posted) + Payloads(requests[..i])
        invariant Tokens() == if i == 0 then old(Tokens()) else SessionTokens(old(SignedIn()), old(Tokens()), auth)
        invariant i > 0 ==> session.None? && SignedIn()
        decreases |requests| - i
      {
        var one := BulkRound(requests, auth, replies, i, results, session, old(posted));
        if one.Err? {
          return Err(one.error);
        }
        results := results + [one.value];
        i := i + 1;
        session := None;
      }
      assert requests[i..] == [] && requests[..i] == requests;
      assert results + [] == results;
      return Ok(results);
    }

    /** One round of `bulk_add`: the add of `requests[i]`, after which
        either the run ends with its error, or its body joins the results
        and the rest of the run is the run of the requests after it. */
    method BulkRound(requests: seq<BookmarkRequest>, auth: Response, replies: seq<Response>, i: nat,
                     results: seq<map<string, string>>, ghost session: Option<InstapaperError>,
                     ghost base: seq<map<string, string>>)
      returns (one: Result<map<string, string>, InstapaperError>)
      requires |replies| == |requests| && i < |requests|
      requires session == SessionFailure(SignedIn(), auth)
      requires posted == base + Payloads(requests[..i])
      modifies this
      ensures Tokens() == SessionTokens(old(SignedIn()), old(Tokens()), auth)
      ensures session.None? ==> SignedIn()
      ensures var rest := BulkOutcome(session, requests[i..], replies[i..]);
        one.Err? ==> rest.0 == Err(one.error) && posted == base + Payloads(requests[..i + rest.1])
      ensures var rest := BulkOutcome(session, requests[i..], replies[i..]);
        var next := BulkOutcome(None, requests[i + 1..], replies[i + 1..]);
        one.Ok? ==> (SignedIn() && posted == base + Payloads(requests[..i + 1]) &&
                     Prepend(results, rest.0) == Prepend(results + [one.value], next.0) && rest.1 == next.1 + 1)
    {
      ghost var before := posted;
      one := AddBookmark(requests[i], auth, replies[i]);
      if one.Err? {
        BulkFailure(session, requests[i..], replies[i..]);
        PostedAtFailure(session, requests, replies, i, base, before, posted);
        return;
      }
      PostedAfterAdd(requests, i, base, before, posted);
      BulkStep(session, requests[i..], replies[i..], results);
      assert requests[i..][1..] == requests[i + 1..];
      assert replies[i..][1..] == replies[i + 1..];
    }
  }

  /** What has been posted when the add of `requests[i]` fails. */
  lemma PostedAtFailure(session: Option<InstapaperError>, requests: seq<BookmarkRequest>, replies: seq<Response>, i: nat,
                        base: seq<map<string, string>>, before: seq<map<string, string>>, after: seq<map<string, string>>)
    requires |replies| == |requests| && i < |requests|
    requires before == base + Payloads(requests[..i])
    requires session.Some? ==> after == before
    requires session.None? ==> after == before + [ToPayload(requests[i])] && replies[i].status != 200
    ensures after == base + Payloads(requests[..i + BulkOutcome(session, requests[i..], replies[i..]).1])
  {
    if session.None? {
      PostedAfterAdd(requests, i, base, before, after);
    }
  }

  /** Posting `requests[i]` extends the posted payloads by one. */
  lemma PostedAfterAdd(requests: seq<BookmarkRequest>, i: nat,
                       base: seq<map<string, string>>, before: seq<map<string, string>>, after: seq<map<string, string>>)
    requires i < |requests|
    requires before == base + Payloads(requests[..i])
    requires after == before + [ToPayload(requests[i])]
    ensures after == base + Payloads(requests[..i + 1])
  {
    PayloadsSnoc(requests, i);
  }

  lemma PayloadsSnoc(requests: seq<BookmarkRequest>, i: nat)
    requires i < |requests|
    ensures Payloads(requests[..i + 1]) == Payloads(requests[..i]) + [ToPayload(requests[i])]
  {
    assert requests[..i + 1][..i] == requests[..i];
  }
}
