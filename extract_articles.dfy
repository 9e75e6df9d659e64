/** The stand-alone `extract_articles.py` script: credentials from the
    environment or prompts, the merge of the three library categories,
    and one CSV row per article, with the cleaned full text when asked
    for. It works on the same library records as the package, so the
    library's answers are a parameter here too. */
module ExtractArticles {
  import opened Common
  import opened Extractor
  import opened ExportIo
  import opened ExtractCli

  /** The script's options: `-o/--output` and `--no-text`. */
  datatype ArticlesArgs = ArticlesArgs(output: string, noText: bool)

  const DefaultArticlesOutput: string := "instapaper_articles.csv"

  // ---------------------------------------------------------------------
  // Credentials

  /** `get_credentials`: each credential missing from the environment is
      prompted for; the answers are stripped except for the password.
      There is no refusal: the script always prompts. */
  method GetScriptCredentials(env: map<string, string>, answers: map<string, string>) returns (c: Credentials)
    ensures Ok(c) == CredentialsFor(true, env, answers)
  {
    var apiKey := ValueOf(env, "INSTAPAPER_API_KEY");
    var apiSecret := ValueOf(env, "INSTAPAPER_API_SECRET");
    var username := ValueOf(env, "INSTAPAPER_USERNAME");
    var password := ValueOf(env, "INSTAPAPER_PASSWORD");
    assert EnvValues(env) == [apiKey, apiSecret, username, password];
    if apiKey == [] {
      apiKey := Strip(ValueOf(answers, "Enter your Instapaper API Key: "));
    }
    if apiSecret == [] {
      apiSecret := Strip(ValueOf(answers, "Enter your Instapaper API Secret: "));
    }
    if username == [] {
      username := Strip(ValueOf(answers, "Enter your Instapaper username (email): "));
    }
    if password == [] {
      password := ValueOf(answers, "Enter your Instapaper password: ");
    }
    c := Credentials(apiKey, apiSecret, username, password);
  }

  // ---------------------------------------------------------------------
  // Fetching

  /** `fetch_all_bookmarks`: unread, then archive, then the starred
      bookmarks whose id is not already present; a category whose request
      fails is skipped and the others still contribute. */
  method FetchAllBookmarks(library: Library) returns (bookmarks: seq<RawBookmark>)
    ensures bookmarks == Merged(Available(library.unread, true), Available(library.archive, true),
                                Available(library.starred, true))
  {
    bookmarks := [];
    if library.unread.Some? {
      bookmarks := bookmarks + library.unread.value;
    }
    if library.archive.Some? {
      bookmarks := bookmarks + library.archive.value;
    }
    assert bookmarks == Available(library.unread, true) + Available(library.archive, true);
    if library.starred.Some? {
      var starredIds := set b | b in bookmarks :: b.bookmarkId;
      var newStarred := NewStarred(library.starred.value, starredIds);
      bookmarks := bookmarks + newStarred;
    } else {
      assert NewStarred([], Ids(bookmarks)) == [];
      assert bookmarks + [] == bookmarks;
    }
  }

  /** The merged list holds no starred bookmark twice: each starred
      bookmark appears once, at its unread or archive place or after them,
      and a failed category changes nothing else. */
  lemma FetchedCategories(library: Library)
    ensures var unread := Available(library.unread, true);
      var archive := Available(library.archive, true);
      var m := Merged(unread, archive, Available(library.starred, true));
      m[..|unread| + |archive|] == unread + archive &&
      (forall b :: b in m[|unread| + |archive|..] ==> b.bookmarkId !in Ids(unread + archive)) &&
      Ids(m) == Ids(unread) + Ids(archive) + Ids(Available(library.starred, true))
  {
    MergedKeepsCategories(Available(library.unread, true), Available(library.archive, true),
                          Available(library.starred, true));
  }

  // ---------------------------------------------------------------------
  // Rows

  /** The full_text cell: the cleaned text, or "" when the text cannot be
      fetched. */
  function ArticleText(b: RawBookmark): (text: string)
    ensures b.text.None? ==> text == []
    ensures b.text.Some? ==> text == CleanHtml(b.text.value)
  {
    if b.text.Some? then CleanHtml(b.text.value) else []
  }

  /** The row written for one article: missing strings are "", a missing
      time or progress is an empty cell, starred is "1" or "0", and the
      full text comes last when asked for. */
  function ArticleRow(b: RawBookmark, includeText: bool): (row: seq<Cell>)
    ensures |row| == |BookmarkFieldnames(includeText)|
  {
    [IntCell(b.bookmarkId), TextCell(OrEmpty(b.title)), TextCell(OrEmpty(b.url)), TextCell(OrEmpty(b.description)),
     if b.time.Some? then IntCell(b.time.value) else TextCell(""),
     if b.progress.Some? then RealCell(b.progress.value) else TextCell(""),
     TextCell(if b.starred == Some(true) then "1" else "0")]
    + (if includeText then [TextCell(ArticleText(b))] else [])
  }

  /** The script's row against the package's row for the same record: the
      same identity, text fields and starred flag; the same time and
      progress when present, where the package writes 0 and 0.0 for a
      missing one and the script an empty cell. */
  lemma ArticleRowAgainstPackage(b: RawBookmark, includeText: bool)
    ensures var row := ArticleRow(b, includeText);
      var pkg := BookmarkRow(ToBookmarkData(b), includeText);
      row[0] == pkg[0] && row[1] == pkg[1] && row[2] == pkg[2] && row[3] == pkg[3] && row[6] == pkg[6] &&
      (b.time.Some? ==> row[4] == pkg[4]) && (b.time.None? ==> row[4] == TextCell("") && pkg[4] == IntCell(0)) &&
      (b.progress.Some? ==> row[5] == pkg[5]) && (b.progress.None? ==> row[5] == TextCell("") && pkg[5] == RealCell(0.0))
  {
  }

  /** The full_text column is there exactly when asked for; the text of an
      article whose markup is escaped plain text comes back as that text. */
  lemma ArticleTextColumn(b: RawBookmark, includeText: bool, t: string)
    requires Trimmed(t) && SingleSpaced(t)
    ensures |ArticleRow(b, includeText)| == 8 <==> includeText
    ensures includeText && b.text == Some(Escape(t)) ==> ArticleRow(b, includeText)[7] == TextCell(t)
  {
    if includeText && b.text == Some(Escape(t)) {
      EscapedTextSurvives(t);
    }
  }

  /** The file: the header and one row per article, in order. */
  function ArticlesTable(bookmarks: seq<RawBookmark>, includeText: bool): (t: CsvTable)
    ensures t.fieldnames == BookmarkFieldnames(includeText) && |t.rows| == |bookmarks|
    ensures forall k :: 0 <= k < |bookmarks| ==> t.rows[k] == ArticleRow(bookmarks[k], includeText)
  {
    CsvTable(BookmarkFieldnames(includeText),
             seq(|bookmarks|, k requires 0 <= k < |bookmarks| => ArticleRow(bookmarks[k], includeText)))
  }

  // ---------------------------------------------------------------------
  // The run

  /** How `extract_articles_to_csv` ends: the login fails (`sys.exit(1)`),
      there is nothing to write, the file cannot be opened for writing,
      the loop stops at an article without a title (its progress line
      slices `None`) leaving the rows written so far, or the file is
      written. */
  datatype ArticlesOutcome =
    | LoginFailed
    | NoArticles
    | OutputUnwritable(path: string)
    | Crashed(path: string, table: CsvTable)
    | ArticlesWritten(path: string, table: CsvTable)

  /** The exit status: 1 for the login's `sys.exit(1)` and for an
      uncaught exception, 0 otherwise. */
  function ArticlesExitCode(o: ArticlesOutcome): (code: nat)
    ensures code == 1 <==> o.LoginFailed? || o.OutputUnwritable? || o.Crashed?
    ensures code == 0 <==> o.NoArticles? || o.ArticlesWritten?
  {
    if o.LoginFailed? || o.OutputUnwritable? || o.Crashed? then 1 else 0
  }

  /** How many articles come before the first one without a title. */
  function TitledPrefix(bookmarks: seq<RawBookmark>): (n: nat)
    ensures n <= |bookmarks|
    ensures forall k :: 0 <= k < n ==> bookmarks[k].title.Some?
    ensures n < |bookmarks| ==> bookmarks[n].title.None?
  {
    if bookmarks == [] || bookmarks[0].title.None? then 0
    else 1 + TitledPrefix(bookmarks[1..])
  }

  /** The rows of `extract_articles_to_csv`, written one per article; the
      loop stops at the first article without a title, and `finished`
      tells whether it reached the end. */
  method WriteArticles(bookmarks: seq<RawBookmark>, includeText: bool) returns (t: CsvTable, finished: bool)
    ensures finished <==> forall k :: 0 <= k < |bookmarks| ==> bookmarks[k].title.Some?
    ensures t == ArticlesTable(bookmarks[..TitledPrefix(bookmarks)], includeText)
  {
    var fieldnames := BookmarkColumns;
    if includeText {
      fieldnames := fieldnames + ["full_text"];
    }
    var rows: seq<seq<Cell>> := [];
    var i := 0;
    while i < |bookmarks|
      invariant 0 <= i <= TitledPrefix(bookmarks)
      invariant |rows| == i
      invariant forall k :: 0 <= k < i ==> rows[k] == ArticleRow(bookmarks[k], includeText)
      decreases |bookmarks| - i
    {
      var b := bookmarks[i];
      if b.title.None? {
        t, finished := CsvTable(fieldnames, rows), false;
        return;
      }
      var row := [IntCell(b.bookmarkId), TextCell(OrEmpty(b.title)), TextCell(OrEmpty(b.url)),
                  TextCell(OrEmpty(b.description)),
                  if b.time.Some? then IntCell(b.time.value) else TextCell(""),
                  if b.progress.Some? then RealCell(b.progress.value) else TextCell(""),
                  TextCell(if b.starred == Some(true) then "1" else "0")];
      if includeText {
        if b.text.Some? {
          row := row + [TextCell(CleanHtml(b.text.value))];
        } else {
          row := row + [TextCell("")];
        }
      }
      rows := rows + [row];
      i := i + 1;
    }
    t, finished := CsvTable(fieldnames, rows), true;
  }

  /** What `extract_articles_to_csv` does for a library, given whether the
      output file can be opened for writing. */
  function ArticlesRun(output: string, library: Library, includeText: bool, writable: bool): ArticlesOutcome {
    var bookmarks := Merged(Available(library.unread, true), Available(library.archive, true),
                            Available(library.starred, true));
    var n := TitledPrefix(bookmarks);
    if !library.loginOk then LoginFailed
    else if bookmarks == [] then NoArticles
    else if !writable then OutputUnwritable(output)
    else if n < |bookmarks| then Crashed(output, ArticlesTable(bookmarks[..n], includeText))
    else ArticlesWritten(output, ArticlesTable(bookmarks, includeText))
  }

  /** `extract_articles_to_csv`: log in, fetch, stop when there is nothing,
      otherwise open the file and write it. */
  method ExtractArticlesToCsv(output: string, library: Library, includeText: bool, writable: bool)
    returns (outcome: ArticlesOutcome)
    ensures outcome == ArticlesRun(output, library, includeText, writable)
  {
    if !library.loginOk {
      return LoginFailed;
    }
    var bookmarks := FetchAllBookmarks(library);
    if bookmarks == [] {
      return NoArticles;
    }
    if !writable {
      return OutputUnwritable(output);
    }
    var table, finished := WriteArticles(bookmarks, includeText);
    if !finished {
      return Crashed(output, table);
    }
    assert bookmarks[..TitledPrefix(bookmarks)] == bookmarks;
    return ArticlesWritten(output, table);
  }

  /** After a login, nothing is written when the library has no article;
      an unwritable file stops the run before any row; the run crashes
      exactly when some fetched article has no title, keeping the rows of
      the articles before it; otherwise the file has one row per fetched
      article. */
  lemma ArticlesRunWrites(output: string, library: Library, includeText: bool, writable: bool)
    ensures var m := Merged(Available(library.unread, true), Available(library.archive, true),
                            Available(library.starred, true));
      ArticlesRun(output, library, includeText, writable).NoArticles? <==> library.loginOk && m == []
    ensures var m := Merged(Available(library.unread, true), Available(library.archive, true),
                            Available(library.starred, true));
      ArticlesRun(output, library, includeText, writable).OutputUnwritable? <==> library.loginOk && m != [] && !writable
    ensures var m := Merged(Available(library.unread, true), Available(library.archive, true),
                            Available(library.starred, true));
      ArticlesRun(output, library, includeText, writable).Crashed? <==>
        library.loginOk && writable && exists k :: 0 <= k < |m| && m[k].title.None?
    ensures var m := Merged(Available(library.unread, true), Available(library.archive, true),
                            Available(library.starred, true));
      var o := ArticlesRun(output, library, includeText, writable);
      o.Crashed? ==> exists k :: (0 <= k < |m| && m[k].title.None? && |o.table.rows| == k &&
        (forall j :: 0 <= j < k ==> m[j].title.Some? && o.table.rows[j] == ArticleRow(m[j], includeText)))
    ensures var m := Merged(Available(library.unread, true), Available(library.archive, true),
                            Available(library.starred, true));
      var o := ArticlesRun(output, library, includeText, writable);
      o.ArticlesWritten? ==> |o.table.rows| == |m| > 0 && forall k :: 0 <= k < |m| ==> m[k].title.Some?
  {
    var m := Merged(Available(library.unread, true), Available(library.archive, true),
                    Available(library.starred, true));
    var n := TitledPrefix(m);
    if n < |m| {
      assert m[n].title.None?;
    }
  }

  /** `main`: credentials, then the export with full text unless
      `--no-text`. */
  method RunArticles(args: ArticlesArgs, env: map<string, string>, answers: map<string, string>, library: Library,
                     writable: bool)
    returns (credentials: Credentials, outcome: ArticlesOutcome)
    ensures Ok(credentials) == CredentialsFor(true, env, answers)
    ensures outcome == ArticlesRun(args.output, library, !args.noText, writable)
  {
    credentials := GetScriptCredentials(env, answers);
    outcome := ExtractArticlesToCsv(args.output, library, !args.noText, writable);
  }
}
