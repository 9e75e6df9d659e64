/** The `instapaper-extract` command line: option defaults, credentials
    from the environment or prompts, the highlights-only filter and the
    decisions of `main`, from authentication to the files written and the
    exit code. The environment, the prompt answers, the remote library and
    the paths that cannot be written are parameters. */
module ExtractCli {
  import opened Common
  import opened Extractor
  import opened ExportIo

  // ---------------------------------------------------------------------
  // Options

  datatype OutputFormat = Csv | Json

  datatype ExtractArgs = ExtractArgs(
    output: string,
    format: OutputFormat,
    noText: bool,
    highlights: bool,
    highlightsOnly: bool,
    noPrompt: bool,
    verbose: bool,
    dryRun: bool)

  /** One option on the command line, as the parser reads it. */
  datatype Flag =
    | OutputFlag(path: string)     // -o / --output
    | FormatFlag(format: OutputFormat)
    | NoTextFlag
    | HighlightsFlag
    | NoHighlightsFlag
    | HighlightsOnlyFlag
    | NoPromptFlag
    | VerboseFlag
    | DryRunFlag

  const DefaultOutput: string := "instapaper_bookmarks.csv"

  /** The parser's defaults: highlights are on unless switched off. */
  const DefaultArgs: ExtractArgs := ExtractArgs(DefaultOutput, Csv, false, true, false, false, false, false)

  /** One option's action: it sets its own destination and no other. */
  function ApplyFlag(a: ExtractArgs, f: Flag): (r: ExtractArgs)
    ensures r.output == if f.OutputFlag? then f.path else a.output
    ensures r.format == if f.FormatFlag? then f.format else a.format
    ensures r.noText <==> a.noText || f.NoTextFlag?
    ensures r.highlights <==> if SetsHighlights(f) then f.HighlightsFlag? else a.highlights
    ensures r.highlightsOnly <==> a.highlightsOnly || f.HighlightsOnlyFlag?
    ensures r.noPrompt <==> a.noPrompt || f.NoPromptFlag?
    ensures r.verbose <==> a.verbose || f.VerboseFlag?
    ensures r.dryRun <==> a.dryRun || f.DryRunFlag?
  {
    match f
    case OutputFlag(p) => a.(output := p)
    case FormatFlag(fmt) => a.(format := fmt)
    case NoTextFlag => a.(noText := true)
    case HighlightsFlag => a.(highlights := true)
    case NoHighlightsFlag => a.(highlights := false)
    case HighlightsOnlyFlag => a.(highlightsOnly := true)
    case NoPromptFlag => a.(noPrompt := true)
    case VerboseFlag => a.(verbose := true)
    case DryRunFlag => a.(dryRun := true)
  }

  /** `build_parser().parse_args(argv)`: the defaults, then each option in
      turn, a later one overriding an earlier one. */
  function ParseFlags(flags: seq<Flag>): ExtractArgs
    decreases |flags|
  {
    if flags == [] then DefaultArgs
    else ApplyFlag(ParseFlags(flags[..|flags| - 1]), flags[|flags| - 1])
  }

  predicate SetsHighlights(f: Flag) {
    f.HighlightsFlag? || f.NoHighlightsFlag?
  }

  /** With no option given for it, a setting keeps its default. */
  lemma {:induction false} ParseFlagsDefaults(flags: seq<Flag>)
    ensures (forall k :: 0 <= k < |flags| ==> !flags[k].OutputFlag?) ==> ParseFlags(flags).output == DefaultOutput
    ensures (forall k :: 0 <= k < |flags| ==> !flags[k].FormatFlag?) ==> ParseFlags(flags).format == Csv
    ensures (forall k :: 0 <= k < |flags| ==> !SetsHighlights(flags[k])) ==> ParseFlags(flags).highlights
    decreases |flags|
  {
    if flags != [] {
      var init := flags[..|flags| - 1];
      ParseFlagsDefaults(init);
      assert forall k :: 0 <= k < |init| ==> init[k] == flags[k];
    }
  }

  /** A switch that can only be turned on is on exactly when it was given. */
  lemma {:induction false} ParseFlagsSwitches(flags: seq<Flag>)
    ensures ParseFlags(flags).noText <==> NoTextFlag in flags
    ensures ParseFlags(flags).highlightsOnly <==> HighlightsOnlyFlag in flags
    ensures ParseFlags(flags).noPrompt <==> NoPromptFlag in flags
    ensures ParseFlags(flags).dryRun <==> DryRunFlag in flags
    decreases |flags|
  {
    if flags != [] {
      var init := flags[..|flags| - 1];
      var last := flags[|flags| - 1];
      ParseFlagsSwitches(init);
      assert forall f :: f in flags <==> f in init || f == last by {
        assert flags == init + [last];
      }
    }
  }

  /** `--highlights` and `--no-highlights` write the same setting: the last
      one given decides. */
  lemma {:induction false} LastHighlightsFlagWins(flags: seq<Flag>, f: Flag, rest: seq<Flag>)
    requires SetsHighlights(f)
    requires forall k :: 0 <= k < |rest| ==> !SetsHighlights(rest[k])
    ensures ParseFlags(flags + [f] + rest).highlights <==> f.HighlightsFlag?
    decreases |rest|
  {
    var all := flags + [f] + rest;
    if rest == [] {
      assert all[..|all| - 1] == flags;
    } else {
      var shorter := rest[..|rest| - 1];
      LastHighlightsFlagWins(flags, f, shorter);
      assert all[..|all| - 1] == flags + [f] + shorter;
      assert all[|all| - 1] == rest[|rest| - 1];
    }
  }

  // ---------------------------------------------------------------------
  // Credentials

  datatype Credentials = Credentials(consumerKey: string, consumerSecret: string, username: string, password: string)

  /** The environment variables, in `ENV_VARS` order. */
  const EnvNames: seq<string> :=
    ["INSTAPAPER_API_KEY", "INSTAPAPER_API_SECRET", "INSTAPAPER_USERNAME", "INSTAPAPER_PASSWORD"]

  /** How a missing credential is named, in the same order. */
  const MissingNames: seq<string> := ["API Key", "API Secret", "Username", "Password"]

  /** The prompts shown for missing credentials, in the same order. */
  const Prompts: seq<string> := [
    "Enter your Instapaper API Key: ",
    "Enter your Instapaper API Secret: ",
    "Enter your Instapaper username (email): ",
    "Enter your Instapaper password: "]

  /** The environment's value for each credential; an unset variable reads
      as "", which is falsy like `None`. */
  function EnvValues(env: map<string, string>): (values: seq<string>)
    ensures |values| == 4
    ensures forall i :: 0 <= i < 4 ==> values[i] == ValueOf(env, EnvNames[i])
  {
    seq(4, i requires 0 <= i < 4 => ValueOf(env, EnvNames[i]))
  }

  /** The names of the credentials whose value is empty, in order. */
  function MissingOf(values: seq<string>, names: seq<string>): (missing: seq<string>)
    requires |values| == |names|
    decreases |values|
  {
    if values == [] then []
    else (if values[0] == [] then [names[0]] else []) + MissingOf(values[1..], names[1..])
  }

  /** A name is listed exactly when its value is empty; with distinct
      names, the listing follows their order. */
  lemma {:induction false} MissingOfLists(values: seq<string>, names: seq<string>)
    requires |values| == |names|
    ensures forall i :: 0 <= i < |names| && values[i] == [] ==> names[i] in MissingOf(values, names)
    ensures forall n :: n in MissingOf(values, names) ==> exists i :: 0 <= i < |names| && values[i] == [] && names[i] == n
    ensures MissingOf(values, names) == [] <==> forall i :: 0 <= i < |values| ==> values[i] != []
    decreases |values|
  {
    if values != [] {
      MissingOfLists(values[1..], names[1..]);
      var rest := MissingOf(values[1..], names[1..]);
      forall n | n in MissingOf(values, names)
        ensures exists i :: 0 <= i < |names| && values[i] == [] && names[i] == n
      {
        if n in rest {
          var i :| 0 <= i < |names| - 1 && values[1..][i] == [] && names[1..][i] == n;
          assert values[i + 1] == [] && names[i + 1] == n;
        } else {
          assert values[0] == [] && names[0] == n;
        }
      }
      forall i | 0 <= i < |names| && values[i] == []
        ensures names[i] in MissingOf(values, names)
      {
        if i > 0 {
          assert values[1..][i - 1] == values[i] && names[1..][i - 1] == names[i];
        }
      }
    }
  }

  /** The four-credential listing written out, as `_get_credentials`
      builds it one check at a time. */
  lemma MissingOfFour(values: seq<string>)
    requires |values| == 4
    ensures MissingOf(values, MissingNames) ==
      (if values[0] == [] then ["API Key"] else []) + (if values[1] == [] then ["API Secret"] else []) +
      (if values[2] == [] then ["Username"] else []) + (if values[3] == [] then ["Password"] else [])
  {
    MissingOfFourNames(values, MissingNames);
  }

  /** `MissingOf` over four values unrolled, for any four names. */
  lemma MissingOfFourNames(values: seq<string>, names: seq<string>)
    requires |values| == 4 && |names| == 4
    ensures MissingOf(values, names) ==
      (if values[0] == [] then [names[0]] else []) + (if values[1] == [] then [names[1]] else []) +
      (if values[2] == [] then [names[2]] else []) + (if values[3] == [] then [names[3]] else [])
  {
    var v3, n3 := values[3..], names[3..];
    assert v3[1..] == [] && n3[1..] == [];
    assert MissingOf(v3, n3) == (if values[3] == [] then [names[3]] else []);
    var v2, n2 := values[2..], names[2..];
    assert v2[0] == values[2] && n2[0] == names[2] && v2[1..] == v3 && n2[1..] == n3;
    assert MissingOf(v2, n2) == (if values[2] == [] then [names[2]] else []) + MissingOf(v3, n3);
    var v1, n1 := values[1..], names[1..];
    assert v1[0] == values[1] && n1[0] == names[1] && v1[1..] == v2 && n1[1..] == n2;
    assert MissingOf(v1, n1) == (if values[1] == [] then [names[1]] else []) + MissingOf(v2, n2);
    assert values[1..] == v1 && names[1..] == n1;
  }

  function Missing(env: map<string, string>): seq<string> {
    MissingOf(EnvValues(env), MissingNames)
  }

  const EnvNamesListed: string :=
    "INSTAPAPER_API_KEY, INSTAPAPER_API_SECRET, INSTAPAPER_USERNAME, INSTAPAPER_PASSWORD"

  /** Python `", ".join(parts)`. */
  function JoinComma(parts: seq<string>): string
    decreases |parts|
  {
    if |parts| == 0 then []
    else if |parts| == 1 then parts[0]
    else parts[0] + ", " + JoinComma(parts[1..])
  }

  /** The `ValueError` raised when credentials are missing and prompting
      is off. */
  function MissingCredentialsMessage(missing: seq<string>): string {
    "Missing required credentials: " + JoinComma(missing) + ". Set environment variables: " + EnvNamesListed
  }

  /** The value used for one credential: the environment's when it is set,
      otherwise the answer to its prompt, stripped except for the
      password. */
  function Filled(value: string, answers: map<string, string>, i: nat): string
    requires i < 4
  {
    if value != [] then value
    else if i == 3 then ValueOf(answers, Prompts[i])
    else Strip(ValueOf(answers, Prompts[i]))
  }

  /** What `_get_credentials` returns or raises. */
  function CredentialsFor(allowPrompt: bool, env: map<string, string>, answers: map<string, string>): Result<Credentials, string> {
    var values := EnvValues(env);
    if Missing(env) != [] && !allowPrompt then Err(MissingCredentialsMessage(Missing(env)))
    else Ok(Credentials(Filled(values[0], answers, 0), Filled(values[1], answers, 1),
                        Filled(values[2], answers, 2), Filled(values[3], answers, 3)))
  }

  /** The check of `_get_credentials` that lists the empty credentials. */
  method ListMissing(consumerKey: string, consumerSecret: string, username: string, password: string)
    returns (missing: seq<string>)
    ensures missing == MissingOf([consumerKey, consumerSecret, username, password], MissingNames)
  {
    missing := [];
    if consumerKey == [] {
      missing := missing + ["API Key"];
    }
    if consumerSecret == [] {
      missing := missing + ["API Secret"];
    }
    if username == [] {
      missing := missing + ["Username"];
    }
    if password == [] {
      missing := missing + ["Password"];
    }
    MissingOfFour([consumerKey, consumerSecret, username, password]);
  }

  /** `_get_credentials`: read the four variables, list the missing ones,
      refuse when prompting is off, otherwise prompt for each missing one. */
  method GetCredentials(allowPrompt: bool, env: map<string, string>, answers: map<string, string>)
    returns (r: Result<Credentials, string>)
    ensures r == CredentialsFor(allowPrompt, env, answers)
  {
    var consumerKey := ValueOf(env, "INSTAPAPER_API_KEY");
    var consumerSecret := ValueOf(env, "INSTAPAPER_API_SECRET");
    var username := ValueOf(env, "INSTAPAPER_USERNAME");
    var password := ValueOf(env, "INSTAPAPER_PASSWORD");
    assert EnvValues(env) == [consumerKey, consumerSecret, username, password];
    var missing := ListMissing(consumerKey, consumerSecret, username, password);
    if missing != [] && !allowPrompt {
      return Err(MissingCredentialsMessage(missing));
    }
    if consumerKey == [] {
      consumerKey := Strip(ValueOf(answers, "Enter your Instapaper API Key: "));
    }
    if consumerSecret == [] {
      consumerSecret := Strip(ValueOf(answers, "Enter your Instapaper API Secret: "));
    }
    if username == [] {
      username := Strip(ValueOf(answers, "Enter your Instapaper username (email): "));
    }
    if password == [] {
      password := ValueOf(answers, "Enter your Instapaper password: ");
    }
    return Ok(Credentials(consumerKey, consumerSecret, username, password));
  }

  /** With all four variables set, they are returned unchanged whatever
      the prompt setting, and no answer is used. */
  lemma CredentialsFromEnvironment(allowPrompt: bool, env: map<string, string>, answers: map<string, string>)
    requires forall i :: 0 <= i < 4 ==> ValueOf(env, EnvNames[i]) != []
    ensures CredentialsFor(allowPrompt, env, answers) ==
      Ok(Credentials(ValueOf(env, EnvNames[0]), ValueOf(env, EnvNames[1]),
                     ValueOf(env, EnvNames[2]), ValueOf(env, EnvNames[3])))
  {
    MissingOfLists(EnvValues(env), MissingNames);
  }

  /** With prompting off, a missing credential is an error naming every
      missing one, in `ENV_VARS` order. */
  lemma MissingRefusedWithoutPrompt(env: map<string, string>, answers: map<string, string>, i: nat)
    requires i < 4 && ValueOf(env, EnvNames[i]) == []
    ensures MissingNames[i] in Missing(env)
    ensures CredentialsFor(false, env, answers) == Err(MissingCredentialsMessage(Missing(env)))
  {
    MissingOfLists(EnvValues(env), MissingNames);
  }

  /** With prompting on there is no error, and a credential set in the
      environment does not depend on the answers. */
  lemma PromptAnswersOnlyFillGaps(env: map<string, string>, answers1: map<string, string>, answers2: map<string, string>)
    ensures CredentialsFor(true, env, answers1).Ok?
    ensures var c1 := CredentialsFor(true, env, answers1).value;
      var c2 := CredentialsFor(true, env, answers2).value;
      (ValueOf(env, EnvNames[0]) != [] ==> c1.consumerKey == c2.consumerKey == ValueOf(env, EnvNames[0])) &&
      (ValueOf(env, EnvNames[1]) != [] ==> c1.consumerSecret == c2.consumerSecret == ValueOf(env, EnvNames[1])) &&
      (ValueOf(env, EnvNames[2]) != [] ==> c1.username == c2.username == ValueOf(env, EnvNames[2])) &&
      (ValueOf(env, EnvNames[3]) != [] ==> c1.password == c2.password == ValueOf(env, EnvNames[3]))
  {
  }

  // ---------------------------------------------------------------------
  // Highlights-only filter and the full-text step

  /** The ids of the bookmarks that have highlights. */
  function HighlightedIds(highlights: seq<HighlightData>): set<int> {
    set h | h in highlights :: h.bookmarkId
  }

  /** `[b for b in bookmarks if b.bookmark_id in ids]`. */
  function KeepHighlighted(bookmarks: seq<BookmarkData>, ids: set<int>): seq<BookmarkData>
    decreases |bookmarks|
  {
    if bookmarks == [] then []
    else (if bookmarks[0].bookmarkId in ids then [bookmarks[0]] else []) + KeepHighlighted(bookmarks[1..], ids)
  }

  /** The filter keeps exactly the bookmarks whose id is among `ids`. */
  lemma {:induction false} KeepHighlightedMembers(bookmarks: seq<BookmarkData>, ids: set<int>)
    ensures forall b :: b in KeepHighlighted(bookmarks, ids) <==> b in bookmarks && b.bookmarkId in ids
    decreases |bookmarks|
  {
    if bookmarks != [] {
      KeepHighlightedMembers(bookmarks[1..], ids);
      assert bookmarks == [bookmarks[0]] + bookmarks[1..];
    }
  }

  /** The filter keeps order: filtering a concatenation concatenates the
      filtered parts. */
  lemma {:induction false} KeepHighlightedConcat(a: seq<BookmarkData>, b: seq<BookmarkData>, ids: set<int>)
    ensures KeepHighlighted(a + b, ids) == KeepHighlighted(a, ids) + KeepHighlighted(b, ids)
    decreases |a|
  {
    if a == [] {
      assert a + b == b;
    } else {
      KeepHighlightedConcat(a[1..], b, ids);
      assert (a + b)[0] == a[0];
      assert (a + b)[1..] == a[1..] + b;
    }
  }

  /** `_fetch_bookmarks_with_text`: every bookmark's full text is set to
      `None`; nothing else changes. */
  method FetchBookmarksWithText(bookmarks: seq<BookmarkData>) returns (result: seq<BookmarkData>)
    ensures |result| == |bookmarks|
    ensures forall k :: 0 <= k < |bookmarks| ==> result[k] == bookmarks[k].(fullText := None)
  {
    result := [];
    var i := 0;
    while i < |bookmarks|
      invariant 0 <= i <= |bookmarks|
      invariant |result| == i
      invariant forall k :: 0 <= k < i ==> result[k] == bookmarks[k].(fullText := None)
      decreases |bookmarks| - i
    {
      result := result + [bookmarks[i].(fullText := None)];
      i := i + 1;
    }
  }

  /** A bookmark without full text has an empty full_text cell. */
  lemma NoTextGivesEmptyColumn(b: BookmarkData)
    requires b.fullText.None?
    ensures BookmarkRow(b, true)[7] == TextCell("")
  {
  }

  // ---------------------------------------------------------------------
  // main

  /** A file the run writes. */
  datatype Written =
    | BookmarksCsv(path: string, table: CsvTable)
    | HighlightsCsv(path: string, table: CsvTable)
    | JsonFile(path: string, doc: JsonExport)

  /** Why a run returns 1: `_get_credentials` raised (caught as an
      unexpected error), login failed, or an export could not write. */
  datatype Failure = CredentialsError(message: string) | AuthError | ExportFailure(path: string)

  datatype ExtractOutcome =
    | NoBookmarks
    | DryRun(lines: seq<string>)
    | Exported(lines: seq<string>)
    | Failed(failure: Failure)

  /** The exit status of `main`: 1 exactly for a failed run. */
  function ExitCode(o: ExtractOutcome): (code: nat)
    ensures code == 1 <==> o.Failed?
    ensures code == 0 <==> !o.Failed?
  {
    if o.Failed? then 1 else 0
  }

  function FormatName(f: OutputFormat): string {
    if f == Csv then "CSV" else "JSON"
  }

  function BoolName(b: bool): string {
    if b then "True" else "False"
  }

  /** What a dry run prints: the bookmark count, where highlights would go
      (when there are any), the format and whether full text is included. */
  function DryRunLines(args: ExtractArgs, bookmarkCount: nat, highlightCount: nat): (lines: seq<string>)
    ensures |lines| == if highlightCount > 0 then 5 else 4
    ensures lines[0] == "\n=== DRY RUN - No files will be created ==="
    ensures lines[|lines| - 1] == "Include full text: " + BoolName(!args.noText)
  {
    ["\n=== DRY RUN - No files will be created ===",
     "\nWould export " + NatToString(bookmarkCount) + " bookmarks to: " + args.output]
    + (if highlightCount == 0 then []
       else if args.format == Csv then
         ["Would export " + NatToString(highlightCount) + " highlights to: " + HighlightsOutputPath(args.output)]
       else ["Would include " + NatToString(highlightCount) + " highlights in JSON output"])
    + ["\nFormat: " + FormatName(args.format), "Include full text: " + BoolName(!args.noText)]
  }

  /** The confirmation printed after a quiet (not verbose) export. */
  function SuccessLines(args: ExtractArgs, bookmarkCount: nat, highlightCount: nat): seq<string> {
    if args.verbose then []
    else
      ["\n✓ Successfully exported " + NatToString(bookmarkCount) + " bookmarks to " + args.output]
      + (if highlightCount > 0 && args.format == Csv then
           ["✓ Successfully exported " + NatToString(highlightCount) + " highlights to " + HighlightsOutputPath(args.output)]
         else [])
  }

  /** The highlights `main` fetches: all of them when highlights or
      highlights-only are asked for, none otherwise. */
  function FetchedHighlights(args: ExtractArgs, library: Library): seq<HighlightData> {
    if args.highlights || args.highlightsOnly then AllHighlights(true, library) else []
  }

  /** The bookmarks `main` exports: with highlights-only, those with at
      least one highlight, in order; otherwise all of them. */
  function SelectedBookmarks(args: ExtractArgs, library: Library): seq<BookmarkData> {
    var bookmarks := AllBookmarks(true, library);
    if args.highlightsOnly then KeepHighlighted(bookmarks, HighlightedIds(FetchedHighlights(args, library)))
    else bookmarks
  }

  /** The export step: JSON is one document at the output path; CSV is
      `CsvFiles` with the highlights path derived from the output path. */
  function ExportFiles(args: ExtractArgs, bookmarks: seq<BookmarkData>, highlights: seq<HighlightData>,
                       unwritable: set<string>): (Option<Failure>, seq<Written>)
  {
    if args.format == Json then
      if args.output in unwritable then (Some(ExportFailure(args.output)), [])
      else (None, [JsonFile(args.output, JsonDocument(bookmarks, highlights, !args.noText))])
    else CsvFiles(args.output, HighlightsOutputPath(args.output), bookmarks, highlights, !args.noText, unwritable)
  }

  /** The CSV export: the bookmarks file (unless there are no bookmarks)
      and then the highlights file at `hpath` (unless there are no
      highlights). A path that cannot be written stops the step with what
      was written before it. */
  function CsvFiles(output: string, hpath: string, bookmarks: seq<BookmarkData>, highlights: seq<HighlightData>,
                    includeText: bool, unwritable: set<string>): (Option<Failure>, seq<Written>)
  {
    var first := if bookmarks == [] then [] else [BookmarksCsv(output, BookmarksTable(bookmarks, includeText))];
    if bookmarks != [] && output in unwritable then (Some(ExportFailure(output)), [])
    else if highlights == [] then (None, first)
    else if hpath in unwritable then (Some(ExportFailure(hpath)), first)
    else (None, first + [HighlightsCsv(hpath, HighlightsTable(highlights))])
  }

  /** The outcome of an export step: the failure, or the confirmation. */
  function ExportOutcome(args: ExtractArgs, bookmarks: seq<BookmarkData>, highlights: seq<HighlightData>,
                         failure: Option<Failure>): ExtractOutcome {
    if failure.Some? then Failed(failure.value) else Exported(SuccessLines(args, |bookmarks|, |highlights|))
  }

  /** `main` once the client is logged in: stop when there are no
      bookmarks, otherwise report a dry run or export the selection. */
  function AfterLogin(args: ExtractArgs, library: Library, unwritable: set<string>): (ExtractOutcome, seq<Written>) {
    var selected := SelectedBookmarks(args, library);
    var highlights := FetchedHighlights(args, library);
    if AllBookmarks(true, library) == [] then (NoBookmarks, [])
    else if args.dryRun then (DryRun(DryRunLines(args, |selected|, |highlights|)), [])
    else
      var (failure, written) := ExportFiles(args, selected, highlights, unwritable);
      (ExportOutcome(args, selected, highlights, failure), written)
  }

  /** `main` after parsing: the outcome, whose exit code `ExitCode` gives,
      and the files written. */
  method RunExtract(args: ExtractArgs, env: map<string, string>, answers: map<string, string>,
                    library: Library, unwritable: set<string>)
    returns (outcome: ExtractOutcome, written: seq<Written>)
    ensures CredentialsFor(!args.noPrompt, env, answers).Err? ==>
      outcome == Failed(CredentialsError(CredentialsFor(!args.noPrompt, env, answers).error)) && written == []
    ensures CredentialsFor(!args.noPrompt, env, answers).Ok? && !library.loginOk ==>
      outcome == Failed(AuthError) && written == []
    ensures CredentialsFor(!args.noPrompt, env, answers).Ok? && library.loginOk ==>
      (outcome, written) == AfterLogin(args, library, unwritable)
  {
    var credentials := GetCredentials(!args.noPrompt, env, answers);
    if credentials.Err? {
      return Failed(CredentialsError(credentials.error)), [];
    }
    var c := credentials.value;
    var client := new InstapaperExtractor(c.consumerKey, c.consumerSecret, c.username, c.password);
    var auth := client.Authenticate(library);
    if auth.Err? {
      return Failed(AuthError), [];
    }
    var bookmarks := client.GetAllBookmarks(library);
    if bookmarks == [] {
      return NoBookmarks, [];
    }
    var highlights: seq<HighlightData> := [];
    if args.highlights || args.highlightsOnly {
      highlights := client.GetAllHighlights(library);
    }
    assert highlights == FetchedHighlights(args, library);
    if args.highlightsOnly {
      var ids := HighlightedIds(highlights);
      bookmarks := KeepHighlighted(bookmarks, ids);
    }
    assert bookmarks == SelectedBookmarks(args, library);
    if args.dryRun {
      return DryRun(DryRunLines(args, |bookmarks|, |highlights|)), [];
    }
    var failure;
    failure, written := Export(args, bookmarks, highlights, unwritable);
    outcome := ExportOutcome(args, bookmarks, highlights, failure);
  }

  /** The export step of `main`, through the exporters. */
  method Export(args: ExtractArgs, bookmarks: seq<BookmarkData>, highlights: seq<HighlightData>, unwritable: set<string>)
    returns (failure: Option<Failure>, written: seq<Written>)
    ensures (failure, written) == ExportFiles(args, bookmarks, highlights, unwritable)
  {
    if args.format == Json {
      if args.output in unwritable {
        return Some(ExportFailure(args.output)), [];
      }
      var doc := ExportToJson(bookmarks, highlights, !args.noText);
      return None, [JsonFile(args.output, doc)];
    }
    written := [];
    var table := ExportBookmarksToCsv(bookmarks, !args.noText);
    if table.Some? {
      if args.output in unwritable {
        return Some(ExportFailure(args.output)), [];
      }
      written := [BookmarksCsv(args.output, table.value)];
    }
    var hpath := HighlightsOutputPath(args.output);
    var highlightsTable := ExportHighlightsToCsv(highlights);
    if highlightsTable.Some? {
      if hpath in unwritable {
        return Some(ExportFailure(hpath)), written;
      }
      written := written + [HighlightsCsv(hpath, highlightsTable.value)];
    }
    return None, written;
  }

  // ---------------------------------------------------------------------
  // Properties of a run

  /** A successful CSV export writes the bookmarks file exactly when there
      are bookmarks and the highlights file exactly when there are
      highlights; a JSON export writes one document. */
  lemma ExportFilesPresence(args: ExtractArgs, bookmarks: seq<BookmarkData>, highlights: seq<HighlightData>,
                            unwritable: set<string>)
    requires ExportFiles(args, bookmarks, highlights, unwritable).0.None?
    ensures var written := ExportFiles(args, bookmarks, highlights, unwritable).1;
      args.format == Csv ==>
        ((exists w :: w in written && w.BookmarksCsv?) <==> bookmarks != []) &&
        ((exists w :: w in written && w.HighlightsCsv?) <==> highlights != [])
    ensures var written := ExportFiles(args, bookmarks, highlights, unwritable).1;
      args.format == Json ==> |written| == 1 && written[0].JsonFile?
  {
    if args.format == Csv {
      CsvFilesPresence(args.output, HighlightsOutputPath(args.output), bookmarks, highlights, !args.noText, unwritable);
    }
  }

  lemma CsvFilesPresence(output: string, hpath: string, bookmarks: seq<BookmarkData>, highlights: seq<HighlightData>,
                         includeText: bool, unwritable: set<string>)
    requires CsvFiles(output, hpath, bookmarks, highlights, includeText, unwritable).0.None?
    ensures var written := CsvFiles(output, hpath, bookmarks, highlights, includeText, unwritable).1;
      ((exists w :: w in written && w.BookmarksCsv?) <==> bookmarks != []) &&
      ((exists w :: w in written && w.HighlightsCsv?) <==> highlights != [])
  {
    var written := CsvFiles(output, hpath, bookmarks, highlights, includeText, unwritable).1;
    var first := if bookmarks == [] then [] else [BookmarksCsv(output, BookmarksTable(bookmarks, includeText))];
    if highlights == [] {
      assert written == first;
      CsvFilesKinds(first, []);
    } else {
      var last := HighlightsCsv(hpath, HighlightsTable(highlights));
      assert written == first + [last];
      CsvFilesKinds(first, [last]);
    }
  }

  /** A bookmarks file list followed by a highlights file list holds a
      file of each kind exactly when that list is not empty. */
  lemma CsvFilesKinds(first: seq<Written>, second: seq<Written>)
    requires |first| <= 1 && |second| <= 1
    requires forall w :: w in first ==> w.BookmarksCsv?
    requires forall w :: w in second ==> w.HighlightsCsv?
    ensures (exists w :: w in first + second && w.BookmarksCsv?) <==> first != []
    ensures (exists w :: w in first + second && w.HighlightsCsv?) <==> second != []
  {
    if first != [] {
      assert first[0] in first + second;
    }
    if second != [] {
      assert second[0] in first + second;
    }
  }

  /** A failed export names the path it could not write. */
  lemma ExportFilesFailure(args: ExtractArgs, bookmarks: seq<BookmarkData>, highlights: seq<HighlightData>,
                           unwritable: set<string>)
    requires ExportFiles(args, bookmarks, highlights, unwritable).0.Some?
    ensures var failure := ExportFiles(args, bookmarks, highlights, unwritable).0.value;
      failure.ExportFailure? && failure.path in unwritable
    ensures var failure := ExportFiles(args, bookmarks, highlights, unwritable).0.value;
      failure.path == args.output || failure.path == HighlightsOutputPath(args.output)
  {
    if args.format == Csv {
      CsvFilesFailure(args.output, HighlightsOutputPath(args.output), bookmarks, highlights, !args.noText, unwritable);
    }
  }

  lemma CsvFilesFailure(output: string, hpath: string, bookmarks: seq<BookmarkData>, highlights: seq<HighlightData>,
                        includeText: bool, unwritable: set<string>)
    requires CsvFiles(output, hpath, bookmarks, highlights, includeText, unwritable).0.Some?
    ensures var failure := CsvFiles(output, hpath, bookmarks, highlights, includeText, unwritable).0.value;
      failure.ExportFailure? && failure.path in unwritable && (failure.path == output || failure.path == hpath)
  {
  }

  /** Without `--highlights` or `--highlights-only` no highlights are
      fetched, so neither a highlights file nor a highlight in the JSON
      document is produced. */
  lemma NoHighlightsUnlessAsked(args: ExtractArgs, library: Library)
    requires !args.highlights && !args.highlightsOnly
    ensures FetchedHighlights(args, library) == []
    ensures SelectedBookmarks(args, library) == AllBookmarks(true, library)
  {
  }

  /** With `--highlights-only`, the exported bookmarks are exactly those
      of the library that have at least one highlight, in library order. */
  lemma HighlightsOnlySelects(args: ExtractArgs, library: Library)
    requires args.highlightsOnly
    ensures forall b :: b in SelectedBookmarks(args, library) <==>
      b in AllBookmarks(true, library) && exists h :: h in AllHighlights(true, library) && h.bookmarkId == b.bookmarkId
  {
    KeepHighlightedMembers(AllBookmarks(true, library), HighlightedIds(AllHighlights(true, library)));
  }

  /** The fetched bookmarks never carry full text, so every full_text cell
      of the exported bookmarks table is empty. */
  lemma FullTextColumnEmpty(args: ExtractArgs, library: Library)
    ensures var t := BookmarksTable(SelectedBookmarks(args, library), true);
      forall k :: 0 <= k < |t.rows| ==> t.rows[k][7] == TextCell("")
  {
    var bookmarks := AllBookmarks(true, library);
    var selected := SelectedBookmarks(args, library);
    if args.highlightsOnly {
      KeepHighlightedMembers(bookmarks, HighlightedIds(FetchedHighlights(args, library)));
    }
    forall k | 0 <= k < |selected|
      ensures BookmarkRow(selected[k], true)[7] == TextCell("")
    {
      assert selected[k] in bookmarks;
      NoTextGivesEmptyColumn(selected[k]);
    }
  }
}
