/** The bookmark-upload command line: gathering requests from input files
    and --url options, finding credentials in the environment or by
    prompting, the dry-run listing, and the decision flow of `main`. The
    file system, the environment, the console and the service are
    parameters: files by path, environment variables by name, the answer
    typed at each prompt, the token reply and the reply to the i-th add. */
module UploadCli {
  import opened Common
  import opened UploadClient
  import opened BookmarkLoader

  /** The parsed command line. */
  datatype Args = Args(
    inputs: seq<string>,
    urls: seq<string>,          // every --url, in order (none given is empty)
    title: Option<string>,
    description: Option<string>,
    folderId: Option<string>,
    dryRun: bool,
    noPrompt: bool,
    verbose: bool)

  // ---------------------------------------------------------------------
  // Requests

  function MissingInputMessage(path: string): string {
    "Input file '" + path + "' does not exist."
  }

  /** What reading one input gives: `None` when the path does not exist,
      otherwise the outcome of loading it under its file name. */
  function FileLoad(path: string, files: map<string, FileData>): Option<Result<seq<BookmarkRequest>, LoadError>> {
    if path in files then Some(LoadPath(FileName(path), files[path])) else None
  }

  /** The outcome of reading every input, in argument order. */
  function FileLoads(inputs: seq<string>, files: map<string, FileData>)
    : (loads: seq<Option<Result<seq<BookmarkRequest>, LoadError>>>)
    ensures |loads| == |inputs|
    decreases |inputs|
  {
    if inputs == [] then [] else [FileLoad(inputs[0], files)] + FileLoads(inputs[1..], files)
  }

  lemma {:induction false} FileLoadsAt(inputs: seq<string>, files: map<string, FileData>, i: nat)
    requires i < |inputs|
    ensures FileLoads(inputs, files)[i] == FileLoad(inputs[i], files)
    decreases |inputs|
  {
    if i > 0 {
      FileLoadsAt(inputs[1..], files, i - 1);
    }
  }

  /** The requests of the input files, in argument order; a path that
      does not exist or a file that does not load ends the collection. */
  function FromFiles(inputs: seq<string>, loads: seq<Option<Result<seq<BookmarkRequest>, LoadError>>>)
    : Result<seq<BookmarkRequest>, LoadError>
    requires |loads| == |inputs|
    decreases |inputs|
  {
    if inputs == [] then Ok([])
    else
      match loads[0]
      case None => Err(BookmarkLoadError(MissingInputMessage(inputs[0])))
      case Some(Err(e)) => Err(e)
      case Some(Ok(rs)) => Prepend(rs, FromFiles(inputs[1..], loads[1..]))
  }

  /** One request per --url, each with the shared title, description and
      folder id, as given. */
  function UrlRequests(args: Args): (rs: seq<BookmarkRequest>)
    ensures |rs| == |args.urls|
    ensures forall j :: 0 <= j < |rs| ==>
      rs[j] == BookmarkRequest(args.urls[j], args.title, args.description, args.folderId)
  {
    seq(|args.urls|, j requires 0 <= j < |args.urls| =>
      BookmarkRequest(args.urls[j], args.title, args.description, args.folderId))
  }

  /** `_collect_requests`: the file requests first, then the --url ones. */
  function Collected(args: Args, files: map<string, FileData>): Result<seq<BookmarkRequest>, LoadError> {
    WithUrls(FromFiles(args.inputs, FileLoads(args.inputs, files)), args)
  }

  function WithUrls(fromFiles: Result<seq<BookmarkRequest>, LoadError>, args: Args): Result<seq<BookmarkRequest>, LoadError> {
    match fromFiles
    case Err(e) => Err(e)
    case Ok(rs) => Ok(rs + UrlRequests(args))
  }

  /** With every input loading, the requests are those of each file in
      argument order. */
  lemma {:induction false} FromFilesInOrder(inputs: seq<string>, loads: seq<Option<Result<seq<BookmarkRequest>, LoadError>>>)
    requires |loads| == |inputs|
    requires forall j :: 0 <= j < |loads| ==> loads[j].Some? && loads[j].value.Ok?
    ensures FromFiles(inputs, loads).Ok?
    ensures inputs != [] ==>
      FromFiles(inputs, loads).value == loads[0].value.value + FromFiles(inputs[1..], loads[1..]).value
    decreases |inputs|
  {
    if inputs != [] {
      FromFilesInOrder(inputs[1..], loads[1..]);
    }
  }

  /** The first input that does not exist ends the collection with its
      path, when every input before it loads. */
  lemma {:induction false} MissingInputFails(inputs: seq<string>, loads: seq<Option<Result<seq<BookmarkRequest>, LoadError>>>, j: nat)
    requires |loads| == |inputs|
    requires j < |inputs| && loads[j].None?
    requires forall i :: 0 <= i < j ==> loads[i].Some? && loads[i].value.Ok?
    ensures FromFiles(inputs, loads) == Err(BookmarkLoadError(MissingInputMessage(inputs[j])))
    decreases |inputs|
  {
    if j > 0 {
      MissingInputFails(inputs[1..], loads[1..], j - 1);
    }
  }

  /** The --url requests come last, after every file request. */
  lemma CollectedEndsWithUrls(fromFiles: Result<seq<BookmarkRequest>, LoadError>, args: Args)
    ensures WithUrls(fromFiles, args).Ok? <==> fromFiles.Ok?
    ensures fromFiles.Ok? ==>
      var rs := WithUrls(fromFiles, args).value;
      |rs| == |fromFiles.value| + |args.urls| &&
      rs[..|fromFiles.value|] == fromFiles.value &&
      forall j :: 0 <= j < |args.urls| ==>
        rs[|fromFiles.value| + j] == BookmarkRequest(args.urls[j], args.title, args.description, args.folderId)
  {
  }

  /** The files' requests move from the remaining outcome to those gathered. */
  lemma FromFilesStep(inputs: seq<string>, loads: seq<Option<Result<seq<BookmarkRequest>, LoadError>>>, done: seq<BookmarkRequest>)
    requires |loads| == |inputs|
    requires inputs != [] && loads[0].Some? && loads[0].value.Ok?
    ensures Prepend(done, FromFiles(inputs, loads)) ==
      Prepend(done + loads[0].value.value, FromFiles(inputs[1..], loads[1..]))
  {
    var rest := FromFiles(inputs[1..], loads[1..]);
    if rest.Ok? {
      var loaded := loads[0].value.value;
      assert done + (loaded + rest.value) == done + loaded + rest.value;
    }
  }

  /** Reads one input, as `FileLoad` describes it. */
  method ReadInput(path: string, files: map<string, FileData>)
    returns (r: Option<Result<seq<BookmarkRequest>, LoadError>>)
    ensures r == FileLoad(path, files)
  {
    if path !in files {
      return None;
    }
    var loaded := LoadFromPath(FileName(path), files[path]);
    return Some(loaded);
  }

  /** The file half of `_collect_requests`. */
  method RequestsFromFiles(inputs: seq<string>, files: map<string, FileData>)
    returns (r: Result<seq<BookmarkRequest>, LoadError>)
    ensures r == FromFiles(inputs, FileLoads(inputs, files))
  {
    ghost var loads := FileLoads(inputs, files);
    forall j | 0 <= j < |inputs|
      ensures loads[j] == FileLoad(inputs[j], files)
    {
      FileLoadsAt(inputs, files, j);
    }
    r := ReadInputs(inputs, files, loads);
  }

  method ReadInputs(inputs: seq<string>, files: map<string, FileData>,
                    ghost loads: seq<Option<Result<seq<BookmarkRequest>, LoadError>>>)
    returns (r: Result<seq<BookmarkRequest>, LoadError>)
    requires |loads| == |inputs|
    requires forall j :: 0 <= j < |inputs| ==> loads[j] == FileLoad(inputs[j], files)
    ensures r == FromFiles(inputs, loads)
  {
    var requests: seq<BookmarkRequest> := [];
    var i := 0;
    assert inputs[0..] == inputs && loads[0..] == loads;
    PrependEmpty(FromFiles(inputs, loads));
    while i < |inputs|
      invariant 0 <= i <= |inputs|
      invariant FromFiles(inputs, loads) == Prepend(requests, FromFiles(inputs[i..], loads[i..]))
      decreases |inputs| - i
    {
      var path := inputs[i];
      var loaded := ReadInput(path, files);
      assert inputs[i..][0] == path && loads[i..][0] == loaded;
      assert inputs[i..][1..] == inputs[i + 1..] && loads[i..][1..] == loads[i + 1..];
      if loaded.None? {
        return Err(BookmarkLoadError(MissingInputMessage(path)));
      }
      if loaded.value.Err? {
        return Err(loaded.value.error);
      }
      FromFilesStep(inputs[i..], loads[i..], requests);
      requests := requests + loaded.value.value;
      i := i + 1;
    }
    assert requests + [] == requests;
    return Ok(requests);
  }

  /** The --url half of `_collect_requests`. */
  method AddUrlRequests(requests: seq<BookmarkRequest>, args: Args) returns (all: seq<BookmarkRequest>)
    ensures all == requests + UrlRequests(args)
  {
    all := requests;
    var j := 0;
    while j < |args.urls|
      invariant 0 <= j <= |args.urls|
      invariant all == requests + UrlRequests(args)[..j]
      decreases |args.urls| - j
    {
      all := all + [BookmarkRequest(args.urls[j], args.title, args.description, args.folderId)];
      assert UrlRequests(args)[..j + 1] == UrlRequests(args)[..j] + [UrlRequests(args)[j]];
      j := j + 1;
    }
    assert UrlRequests(args)[..j] == UrlRequests(args);
  }

  /** `_collect_requests`, consumed into a list. */
  method CollectRequests(args: Args, files: map<string, FileData>) returns (r: Result<seq<BookmarkRequest>, LoadError>)
    ensures r == Collected(args, files)
  {
    var fromFiles := RequestsFromFiles(args.inputs, files);
    if fromFiles.Err? {
      return Err(fromFiles.error);
    }
    var all := AddUrlRequests(fromFiles.value, args);
    return Ok(all);
  }

  // ---------------------------------------------------------------------
  // Credentials

  /** The four credential fields, in the order of the environment table. */
  const CredentialFields: seq<string> := ["consumer_key", "consumer_secret", "username", "password"]

  function EnvVar(field: string): string {
    if field == "consumer_key" then "INSTAPAPER_API_KEY"
    else if field == "consumer_secret" then "INSTAPAPER_API_SECRET"
    else if field == "username" then "INSTAPAPER_USERNAME"
    else "INSTAPAPER_PASSWORD"
  }

  function PromptLabel(field: string): string {
    if field == "consumer_key" then "Instapaper API key"
    else if field == "consumer_secret" then "Instapaper API secret"
    else if field == "username" then "Instapaper username"
    else "Instapaper password"
  }

  /** The environment scan over `fields`: fields whose variable is set and
      non-empty are taken, the others are listed as missing, in order. */
  function EnvScan(fields: seq<string>, env: map<string, string>): (r: (map<string, string>, seq<string>))
    decreases |fields|
  {
    if fields == [] then (map[], [])
    else
      var (credentials, missing) := EnvScan(fields[..|fields| - 1], env);
      var field := fields[|fields| - 1];
      var value := ValueOf(env, EnvVar(field));
      if value != [] then (credentials[field := value], missing) else (credentials, missing + [field])
  }

  /** The scan takes exactly the fields whose variable is set, each with
      its environment value. */
  lemma {:induction false} EnvScanTakesSet(fields: seq<string>, env: map<string, string>)
    ensures forall f :: f in EnvScan(fields, env).0 <==> f in fields && ValueOf(env, EnvVar(f)) != []
    ensures forall f :: f in EnvScan(fields, env).0 ==> EnvScan(fields, env).0[f] == ValueOf(env, EnvVar(f))
    decreases |fields|
  {
    if fields != [] {
      var init := fields[..|fields| - 1];
      EnvScanTakesSet(init, env);
      assert fields == init + [fields[|fields| - 1]];
    }
  }

  /** The scan lists as missing exactly the fields whose variable is
      unset or empty. */
  lemma {:induction false} EnvScanListsUnset(fields: seq<string>, env: map<string, string>)
    ensures forall f :: f in EnvScan(fields, env).1 <==> f in fields && ValueOf(env, EnvVar(f)) == []
    decreases |fields|
  {
    if fields != [] {
      var init := fields[..|fields| - 1];
      EnvScanListsUnset(init, env);
      assert fields == init + [fields[|fields| - 1]];
    }
  }

  /** The missing fields are those of `fields`, in order, whose variable is
      unset or empty. */
  function Unset(fields: seq<string>, env: map<string, string>): seq<string>
    decreases |fields|
  {
    if fields == [] then []
    else
      var last := fields[|fields| - 1];
      Unset(fields[..|fields| - 1], env) + if ValueOf(env, EnvVar(last)) == [] then [last] else []
  }

  lemma {:induction false} EnvScanMissingInOrder(fields: seq<string>, env: map<string, string>)
    ensures EnvScan(fields, env).1 == Unset(fields, env)
    decreases |fields|
  {
    if fields != [] {
      EnvScanMissingInOrder(fields[..|fields| - 1], env);
    }
  }

  const MissingCredentialsMessage: string :=
    "Missing credentials. Set the environment variables or run without --no-prompt."

  function RequiredMessage(field: string): string {
    PromptLabel(field) + " is required to continue."
  }

  /** `_prompt_for_credentials`: ask for each missing field in turn; an
      empty answer stops with that field's message. */
  function Prompted(credentials: map<string, string>, missing: seq<string>, answers: map<string, string>)
    : Result<map<string, string>, string>
    decreases |missing|
  {
    if missing == [] then Ok(credentials)
    else
      var value := ValueOf(answers, missing[0]);
      if value == [] then Err(RequiredMessage(missing[0]))
      else Prompted(credentials[missing[0] := value], missing[1..], answers)
  }

  /** Prompting fills exactly the missing fields, each with its answer,
      when every answer is non-empty; the other entries are kept. */
  lemma {:induction false} PromptFillsMissing(credentials: map<string, string>, missing: seq<string>, answers: map<string, string>)
    ensures Prompted(credentials, missing, answers).Ok? <==> forall f :: f in missing ==> ValueOf(answers, f) != []
    ensures Prompted(credentials, missing, answers).Ok? ==>
      var filled := Prompted(credentials, missing, answers).value;
      (forall f :: f in filled <==> f in credentials || f in missing) &&
      (forall f :: f in missing ==> filled[f] == ValueOf(answers, f)) &&
      (forall f :: f in credentials && f !in missing ==> filled[f] == credentials[f])
    decreases |missing|
  {
    if missing != [] {
      var value := ValueOf(answers, missing[0]);
      PromptFillsMissing(credentials[missing[0] := value], missing[1..], answers);
      assert forall f :: f in missing <==> f == missing[0] || f in missing[1..];
    }
  }

  /** An empty answer ends prompting with the message of the first field
      left unanswered. */
  lemma {:induction false} PromptStopsAtEmptyAnswer(credentials: map<string, string>, missing: seq<string>,
                                                    answers: map<string, string>, j: nat)
    requires j < |missing| && ValueOf(answers, missing[j]) == []
    requires forall i :: 0 <= i < j ==> ValueOf(answers, missing[i]) != []
    ensures Prompted(credentials, missing, answers) == Err(RequiredMessage(missing[j]))
    decreases |missing|
  {
    if j > 0 {
      PromptStopsAtEmptyAnswer(credentials[missing[0] := ValueOf(answers, missing[0])], missing[1..], answers, j - 1);
    }
  }

  /** `_prompt_for_credentials` on the dictionary it fills. */
  method PromptForCredentials(credentials: map<string, string>, missing: seq<string>, answers: map<string, string>)
    returns (r: Result<map<string, string>, string>)
    ensures r == Prompted(credentials, missing, answers)
  {
    var filled := credentials;
    var i := 0;
    assert missing[0..] == missing;
    while i < |missing|
      invariant 0 <= i <= |missing|
      invariant Prompted(credentials, missing, answers) == Prompted(filled, missing[i..], answers)
      decreases |missing| - i
    {
      var field := missing[i];
      assert missing[i..][0] == field && missing[i..][1..] == missing[i + 1..];
      var value := ValueOf(answers, field);
      if value == [] {
        return Err(RequiredMessage(field));
      }
      filled := filled[field := value];
      i := i + 1;
    }
    return Ok(filled);
  }

  /** The credentials `_create_client` ends with, or its exit message. */
  function Credentials(noPrompt: bool, env: map<string, string>, answers: map<string, string>)
    : Result<map<string, string>, string>
  {
    var (credentials, missing) := EnvScan(CredentialFields, env);
    if missing == [] then Ok(credentials)
    else if noPrompt then Err(MissingCredentialsMessage)
    else Prompted(credentials, missing, answers)
  }

  /** Credentials, once found, name all four fields with non-empty values;
      with --no-prompt any unset variable is fatal; with every variable set
      the environment values are used and nothing is asked. */
  lemma CredentialsComplete(noPrompt: bool, env: map<string, string>, answers: map<string, string>)
    ensures Credentials(noPrompt, env, answers).Ok? ==>
      var c := Credentials(noPrompt, env, answers).value;
      forall f :: f in CredentialFields ==> f in c && c[f] != []
    ensures noPrompt && (exists f :: f in CredentialFields && ValueOf(env, EnvVar(f)) == []) ==>
      Credentials(noPrompt, env, answers) == Err(MissingCredentialsMessage)
    ensures (forall f :: f in CredentialFields ==> ValueOf(env, EnvVar(f)) != []) ==>
      Credentials(noPrompt, env, answers).Ok? &&
      forall f :: f in CredentialFields ==> Credentials(noPrompt, env, answers).value[f] == ValueOf(env, EnvVar(f))
  {
    var (credentials, missing) := EnvScan(CredentialFields, env);
    EnvScanTakesSet(CredentialFields, env);
    EnvScanListsUnset(CredentialFields, env);
    PromptFillsMissing(credentials, missing, answers);
  }

  /** The environment scan of `_create_client`. */
  method ScanEnvironment(env: map<string, string>) returns (credentials: map<string, string>, missing: seq<string>)
    ensures (credentials, missing) == EnvScan(CredentialFields, env)
  {
    credentials := map[];
    missing := [];
    var i := 0;
    while i < |CredentialFields|
      invariant 0 <= i <= |CredentialFields|
      invariant (credentials, missing) == EnvScan(CredentialFields[..i], env)
      decreases |CredentialFields| - i
    {
      var field := CredentialFields[i];
      assert CredentialFields[..i + 1][..i] == CredentialFields[..i];
      var value := ValueOf(env, EnvVar(field));
      if value != [] {
        credentials := credentials[field := value];
      } else {
        missing := missing + [field];
      }
      i := i + 1;
    }
    assert CredentialFields[..i] == CredentialFields;
  }

  /** `_create_client`: a client over the found credentials, or the exit
      message. */
  method CreateClient(noPrompt: bool, env: map<string, string>, answers: map<string, string>)
    returns (r: Result<InstapaperClient, string>)
    ensures r.Err? <==> Credentials(noPrompt, env, answers).Err?
    ensures r.Err? ==> r.error == Credentials(noPrompt, env, answers).error
    ensures r.Ok? ==>
      var c := Credentials(noPrompt, env, answers).value;
      "consumer_key" in c && "consumer_secret" in c && "username" in c && "password" in c &&
      fresh(r.value) && r.value.Valid() && !r.value.SignedIn() && r.value.posted == [] &&
      r.value.consumerKey == c["consumer_key"] && r.value.consumerSecret == c["consumer_secret"] &&
      r.value.username == c["username"] && r.value.password == c["password"]
  {
    CredentialsComplete(noPrompt, env, answers);
    var credentials, missing := ScanEnvironment(env);
    if missing != [] {
      if noPrompt {
        return Err(MissingCredentialsMessage);
      }
      var prompted := PromptForCredentials(credentials, missing, answers);
      if prompted.Err? {
        return Err(prompted.error);
      }
      credentials := prompted.value;
    }
    assert Ok(credentials) == Credentials(noPrompt, env, answers);
    assert "consumer_key" in CredentialFields && "consumer_secret" in CredentialFields;
    assert "username" in CredentialFields && "password" in CredentialFields;
    var client := new InstapaperClient(credentials["consumer_key"], credentials["consumer_secret"],
                                       credentials["username"], credentials["password"]);
    return Ok(client);
  }

  // ---------------------------------------------------------------------
  // Dry run

  /** One dry-run line: the url, then the title and the folder when set;
      the description is never shown. */
  function DryRunLine(r: BookmarkRequest): (line: string)
    ensures StartsWith(line, "- " + r.url)
    ensures !Truthy(r.title) && !Truthy(r.folderId) ==> line == "- " + r.url
    ensures line == "- " + r.url + (if Truthy(r.title) then " (title: " + r.title.value + ")" else "") +
                    (if Truthy(r.folderId) then " [folder: " + r.folderId.value + "]" else "")
  {
    var line := "- " + r.url;
    var withTitle := if Truthy(r.title) then line + " (title: " + r.title.value + ")" else line;
    var withFolder := if Truthy(r.folderId) then withTitle + " [folder: " + r.folderId.value + "]" else withTitle;
    assert withFolder[..|line|] == line;
    withFolder
  }

  /** The listing does not depend on the description. */
  lemma DryRunIgnoresDescription(r: BookmarkRequest, description: Option<string>)
    ensures DryRunLine(r.(description := description)) == DryRunLine(r)
  {
  }

  const DryRunHeader: string := "Dry run: the following URLs would be added to Instapaper:"

  /** `_print_dry_run`: the header, then one line per request, in order. */
  function DryRunOutput(requests: seq<BookmarkRequest>): (lines: seq<string>)
    ensures |lines| == |requests| + 1 && lines[0] == DryRunHeader
    ensures forall j :: 0 <= j < |requests| ==> lines[j + 1] == DryRunLine(requests[j])
  {
    var body := seq(|requests|, j requires 0 <= j < |requests| => DryRunLine(requests[j]));
    assert forall j :: 0 <= j < |requests| ==> ([DryRunHeader] + body)[j + 1] == body[j];
    [DryRunHeader] + body
  }

  // ---------------------------------------------------------------------
  // main

  /** How a run ends: status 0, an argument error (status 2 with a
      message), an argument error carrying an API error, a `SystemExit`
      with a message (status 1), or an exception nothing catches. */
  datatype CliOutcome =
    | Completed
    | UsageError(message: string)
    | ApiUsageError(error: InstapaperError)
    | Exited(message: string)
    | Crashed

  const NoUrlsMessage: string := "No URLs were provided."

  /** The replies to the adds, the i-th from `service(i)`. */
  function Replies(n: nat, service: nat -> Response): (rs: seq<Response>)
    ensures |rs| == n
  {
    seq(n, i requires 0 <= i => service(i))
  }

  /** `main`: collect, refuse an empty list, list on a dry run, otherwise
      create a client and add everything. Returns the outcome, the lines
      written, and the payloads posted. Progress printing under --verbose
      is not modelled. */
  method RunCli(args: Args, files: map<string, FileData>, env: map<string, string>, answers: map<string, string>,
                auth: Response, service: nat -> Response)
    returns (outcome: CliOutcome, output: seq<string>, ghost sent: seq<map<string, string>>)
    ensures Collected(args, files) == Err(WrongType) ==> outcome == Crashed && sent == []
    ensures Collected(args, files).Err? && Collected(args, files).error.BookmarkLoadError? ==>
      outcome == UsageError(Collected(args, files).error.message) && sent == []
    ensures Collected(args, files) == Ok([]) ==> outcome == UsageError(NoUrlsMessage) && sent == []
    ensures Collected(args, files).Ok? && Collected(args, files).value != [] && args.dryRun ==>
      outcome == Completed && output == DryRunOutput(Collected(args, files).value) && sent == []
    ensures Collected(args, files).Ok? && Collected(args, files).value != [] && !args.dryRun &&
            Credentials(args.noPrompt, env, answers).Err? ==>
      outcome == Exited(Credentials(args.noPrompt, env, answers).error) && sent == []
    ensures Collected(args, files).Ok? && Collected(args, files).value != [] && !args.dryRun &&
            Credentials(args.noPrompt, env, answers).Ok? ==>
      var requests := Collected(args, files).value;
      var bulk := BulkOutcome(SessionFailure(false, auth), requests, Replies(|requests|, service));
      (outcome == if bulk.0.Ok? then Completed else ApiUsageError(bulk.0.error)) &&
      sent == Payloads(requests[..bulk.1]) && output == []
  {
    output := [];
    sent := [];
    var collected := CollectRequests(args, files);
    if collected.Err? {
      if collected.error.WrongType? {
        return Crashed, output, sent;
      }
      return UsageError(collected.error.message), output, sent;
    }
    var requests := collected.value;
    if requests == [] {
      return UsageError(NoUrlsMessage), output, sent;
    }
    if args.dryRun {
      return Completed, DryRunOutput(requests), sent;
    }
    var client := CreateClient(args.noPrompt, env, answers);
    if client.Err? {
      return Exited(client.error), output, sent;
    }
    var c := client.value;
    var results := c.BulkAdd(requests, auth, Replies(|requests|, service));
    sent := c.posted;
    if results.Err? {
      return ApiUsageError(results.error), output, sent;
    }
    return Completed, output, sent;
  }
}
