/** Export of extracted bookmarks and highlights: the HTML cleaning of text
    fields, the rows of the two CSV files, the grouped JSON document, and
    the path of the highlights file. Files are not written: each exporter
    returns what it would write (`None` for "nothing"). */
module ExportIo {
  import opened Common
  import opened Extractor

  // ---------------------------------------------------------------------
  // Tags

  /** The first '>' at or after `k`. */
  function CloseFrom(s: string, k: nat): (r: Option<nat>)
    requires k <= |s|
    ensures r.Some? ==> k <= r.value < |s| && s[r.value] == '>' && '>' !in s[k..r.value]
    ensures r.None? ==> '>' !in s[k..]
    decreases |s| - k
  {
    if k >= |s| then None
    else if s[k] == '>' then Some(k)
    else
      var r := CloseFrom(s, k + 1);
      assert r.Some? ==> s[k..r.value] == [s[k]] + s[k + 1..r.value];
      assert r.None? ==> s[k..] == [s[k]] + s[k + 1..];
      r
  }

  /** No complete tag is left: every '<' is followed directly by '>', or
      by no '>' at all. */
  predicate NoTag(r: string) {
    forall i :: 0 <= i < |r| && r[i] == '<' ==> (i + 1 < |r| && r[i + 1] == '>') || '>' !in r[i + 1..]
  }

  lemma ConsNoTag(c: char, rest: string)
    requires NoTag(rest)
    requires c == '<' ==> (rest != [] && rest[0] == '>') || '>' !in rest
    ensures NoTag([c] + rest)
  {
    var r := [c] + rest;
    forall i | 1 <= i < |r|
      ensures r[i] == rest[i - 1] && r[i + 1..] == rest[i..]
    {
    }
  }

  /** `re.sub(r'<[^>]+>', '', s)`: scanning from the left, a '<' followed
      by at least one character other than '>' and then a '>' is removed
      with everything up to that '>'. */
  function StripTags(s: string): (r: string)
    ensures |r| <= |s|
    decreases |s|
  {
    if s == [] then []
    else if s[0] == '<' && CloseFrom(s, 1).Some? && CloseFrom(s, 1).value >= 2 then
      StripTags(s[CloseFrom(s, 1).value + 1..])
    else
      [s[0]] + StripTags(s[1..])
  }

  /** Tag removal only deletes characters; text without '<' is untouched,
      and a first character other than '<' stays first. */
  lemma {:induction false} StripTagsKeepsText(s: string)
    ensures forall c :: c in StripTags(s) ==> c in s
    ensures s != [] && s[0] != '<' ==> StripTags(s) != [] && StripTags(s)[0] == s[0]
    ensures '<' !in s ==> StripTags(s) == s
    decreases |s|
  {
    if s != [] {
      if s[0] == '<' && CloseFrom(s, 1).Some? && CloseFrom(s, 1).value >= 2 {
        StripTagsKeepsText(s[CloseFrom(s, 1).value + 1..]);
      } else {
        StripTagsKeepsText(s[1..]);
        assert s == [s[0]] + s[1..];
      }
    }
  }

  /** No complete tag survives removal. */
  lemma {:induction false} StripTagsLeavesNoTag(s: string)
    ensures NoTag(StripTags(s))
    decreases |s|
  {
    if s != [] {
      if s[0] == '<' && CloseFrom(s, 1).Some? && CloseFrom(s, 1).value >= 2 {
        StripTagsLeavesNoTag(s[CloseFrom(s, 1).value + 1..]);
      } else {
        var rest := StripTags(s[1..]);
        StripTagsLeavesNoTag(s[1..]);
        StripTagsKeepsText(s[1..]);
        if s[0] == '<' {
          if CloseFrom(s, 1).Some? {
            assert s[1..][0] == '>';
          } else {
            assert '>' !in rest;
          }
        }
        ConsNoTag(s[0], rest);
      }
    }
  }

  // ---------------------------------------------------------------------
  // Character references

  /** The character references recognised, each with the character it
      stands for, in the order they are tried. */
  const References: seq<(string, char)> :=
    [("&amp;", '&'), ("&lt;", '<'), ("&gt;", '>'), ("&quot;", '"'), ("&#39;", '\''), ("&#x27;", '\'')]

  predicate WellFormedReferences(table: seq<(string, char)>) {
    forall k :: 0 <= k < |table| ==> 2 <= |table[k].0| && table[k].0[0] == '&'
  }

  /** The first reference of `table` that `s` starts with: the character
      it stands for and its length. */
  function MatchReference(s: string, table: seq<(string, char)>): (r: Option<(char, nat)>)
    requires WellFormedReferences(table)
    ensures r.Some? ==> 2 <= r.value.1 <= |s| && s[0] == '&'
    decreases |table|
  {
    if table == [] then None
    else if StartsWith(s, table[0].0) then Some((table[0].1, |table[0].0|))
    else MatchReference(s, table[1..])
  }

  lemma {:induction false} MatchReferenceFinds(s: string, table: seq<(string, char)>, k: nat)
    requires WellFormedReferences(table)
    requires k < |table| && StartsWith(s, table[k].0)
    requires forall j :: 0 <= j < k ==> !StartsWith(s, table[j].0)
    ensures MatchReference(s, table) == Some((table[k].1, |table[k].0|))
    decreases k
  {
    if k > 0 {
      MatchReferenceFinds(s, table[1..], k - 1);
    }
  }

  lemma {:induction false} MatchReferenceMisses(s: string, table: seq<(string, char)>)
    requires WellFormedReferences(table)
    requires forall j :: 0 <= j < |table| ==> !StartsWith(s, table[j].0)
    ensures MatchReference(s, table) == None
    decreases |table|
  {
    if table != [] {
      MatchReferenceMisses(s, table[1..]);
    }
  }

  function ReferenceAt(s: string): (r: Option<(char, nat)>)
    ensures r.Some? ==> 2 <= r.value.1 <= |s| && s[0] == '&'
  {
    assert WellFormedReferences(References);
    MatchReference(s, References)
  }

  /** `html.unescape` over the references above, left to right; text
      produced by a replacement is not scanned again. */
  function Unescape(s: string): (r: string)
    decreases |s|
  {
    if s == [] then []
    else
      match ReferenceAt(s)
      case Some((c, n)) => [c] + Unescape(s[n..])
      case None => [s[0]] + Unescape(s[1..])
  }

  /** Text without '&' is left alone. */
  lemma {:induction false} UnescapePlain(s: string)
    requires '&' !in s
    ensures Unescape(s) == s
    decreases |s|
  {
    if s != [] {
      UnescapePlain(s[1..]);
      assert s == [s[0]] + s[1..];
    }
  }

  /** `html.escape`: the reference partner of `Unescape`. */
  function EscapeChar(c: char): string {
    if c == '&' then "&amp;"
    else if c == '<' then "&lt;"
    else if c == '>' then "&gt;"
    else if c == '"' then "&quot;"
    else if c == '\'' then "&#x27;"
    else [c]
  }

  function Escape(s: string): string
    decreases |s|
  {
    if s == [] then [] else EscapeChar(s[0]) + Escape(s[1..])
  }

  lemma NotStartsAt(s: string, p: string, i: nat)
    requires i < |s| && i < |p| && s[i] != p[i]
    ensures !StartsWith(s, p)
  {
    if |p| <= |s| {
      assert s[..|p|][i] == s[i];
    }
  }

  lemma StartsWithConcat(p: string, rest: string)
    ensures StartsWith(p + rest, p)
  {
    assert (p + rest)[..|p|] == p;
  }

  lemma UnescapeChar(c: char, rest: string)
    ensures Unescape(EscapeChar(c) + rest) == [c] + Unescape(rest)
  {
    var e := EscapeChar(c);
    var s := e + rest;
    assert s[|e|..] == rest;
    StartsWithConcat(e, rest);
    assert forall i :: 0 <= i < |e| ==> s[i] == e[i];
    assert WellFormedReferences(References);
    if c == '&' {
      MatchReferenceFinds(s, References, 0);
    } else if c == '<' {
      NotStartsAt(s, "&amp;", 1);
      MatchReferenceFinds(s, References, 1);
    } else if c == '>' {
      NotStartsAt(s, "&amp;", 1);
      NotStartsAt(s, "&lt;", 1);
      MatchReferenceFinds(s, References, 2);
    } else if c == '"' {
      NotStartsAt(s, "&amp;", 1);
      NotStartsAt(s, "&lt;", 1);
      NotStartsAt(s, "&gt;", 1);
      MatchReferenceFinds(s, References, 3);
    } else if c == '\'' {
      NotStartsAt(s, "&amp;", 1);
      NotStartsAt(s, "&lt;", 1);
      NotStartsAt(s, "&gt;", 1);
      NotStartsAt(s, "&quot;", 1);
      NotStartsAt(s, "&#39;", 2);
      MatchReferenceFinds(s, References, 5);
    } else {
      assert s[0] == c;
      assert s[1..] == rest;
      forall j | 0 <= j < |References|
        ensures !StartsWith(s, References[j].0)
      {
        NotStartsAt(s, References[j].0, 0);
      }
      MatchReferenceMisses(s, References);
    }
  }

  /** Unescaping undoes escaping. */
  lemma {:induction false} UnescapeEscape(s: string)
    ensures Unescape(Escape(s)) == s
    decreases |s|
  {
    if s != [] {
      UnescapeEscape(s[1..]);
      UnescapeChar(s[0], Escape(s[1..]));
    }
  }

  // ---------------------------------------------------------------------
  // Whitespace

  /** Every whitespace character is a plain space and no two are adjacent. */
  predicate SingleSpaced(r: string) {
    forall i :: 0 <= i < |r| && IsSpace(r[i]) ==> r[i] == ' ' && (i + 1 < |r| ==> !IsSpace(r[i + 1]))
  }

  /** `re.sub(r'\s+', ' ', s)`: every maximal run of whitespace becomes
      one space. */
  function Collapse(s: string): string
    decreases |s|
  {
    if s == [] then []
    else if IsSpace(s[0]) then [' '] + Collapse(s[LeadingSpace(s)..])
    else [s[0]] + Collapse(s[1..])
  }

  lemma SingleSpacedCons(c: char, rest: string)
    requires SingleSpaced(rest)
    requires IsSpace(c) ==> c == ' ' && (rest != [] ==> !IsSpace(rest[0]))
    ensures SingleSpaced([c] + rest)
  {
    var r := [c] + rest;
    forall i | 1 <= i < |r|
      ensures r[i] == rest[i - 1]
    {
    }
  }

  /** Collapsing leaves single spaces only, and empties only the empty
      text; a text starting with whitespace starts with the space. */
  lemma {:induction false} CollapseSpacing(s: string)
    ensures SingleSpaced(Collapse(s))
    ensures Collapse(s) == [] <==> s == []
    ensures Collapse(s) != [] ==> (IsSpace(Collapse(s)[0]) <==> IsSpace(s[0]))
    decreases |s|
  {
    if s != [] {
      if IsSpace(s[0]) {
        var n := LeadingSpace(s);
        LeadingSpaceSpan(s);
        CollapseSpacing(s[n..]);
        if n < |s| {
          assert s[n..][0] == s[n];
        }
        SingleSpacedCons(' ', Collapse(s[n..]));
      } else {
        CollapseSpacing(s[1..]);
        if |s| > 1 {
          assert s[1..][0] == s[1];
        }
        SingleSpacedCons(s[0], Collapse(s[1..]));
      }
    }
  }

  /** The characters that are not whitespace, in order. */
  function Visible(s: string): string
    decreases |s|
  {
    if s == [] then [] else (if IsSpace(s[0]) then [] else [s[0]]) + Visible(s[1..])
  }

  lemma {:induction false} VisibleConcat(a: string, b: string)
    ensures Visible(a + b) == Visible(a) + Visible(b)
    decreases |a|
  {
    if a == [] {
      assert a + b == b;
    } else {
      VisibleConcat(a[1..], b);
      var head := if IsSpace(a[0]) then [] else [a[0]];
      assert (a + b)[0] == a[0];
      assert (a + b)[1..] == a[1..] + b;
      assert Visible(a + b) == head + Visible(a[1..] + b);
      assert Visible(a) == head + Visible(a[1..]);
    }
  }

  lemma {:induction false} VisibleOfSpaces(s: string)
    requires forall i :: 0 <= i < |s| ==> IsSpace(s[i])
    ensures Visible(s) == []
    decreases |s|
  {
    if s != [] {
      VisibleOfSpaces(s[1..]);
    }
  }

  /** Collapsing changes only whitespace. */
  lemma {:induction false} CollapseKeepsText(s: string)
    ensures Visible(Collapse(s)) == Visible(s)
    decreases |s|
  {
    if s != [] {
      if IsSpace(s[0]) {
        var n := LeadingSpace(s);
        LeadingSpaceSpan(s);
        CollapseKeepsText(s[n..]);
        assert s == s[..n] + s[n..];
        VisibleConcat(s[..n], s[n..]);
        VisibleOfSpaces(s[..n]);
        assert Collapse(s)[1..] == Collapse(s[n..]);
      } else {
        CollapseKeepsText(s[1..]);
        assert Collapse(s)[1..] == Collapse(s[1..]);
      }
    }
  }

  /** `Strip` takes the slice between the leading and the trailing
      whitespace. */
  lemma StripSlice(s: string)
    ensures LeadingSpace(s) == |s| ==> Strip(s) == []
    ensures LeadingSpace(s) < |s| ==>
      LeadingSpace(s) <= |s| - TrailingSpace(s) &&
      Strip(s) == s[LeadingSpace(s)..|s| - TrailingSpace(s)]
  {
    LeadingSpaceSpan(s);
    TrailingSpaceSpan(s);
  }

  lemma SingleSpacedSlice(s: string, a: nat, b: nat)
    requires a <= b <= |s| && SingleSpaced(s)
    ensures SingleSpaced(s[a..b])
  {
    var m := s[a..b];
    forall i | 0 <= i < |m| && IsSpace(m[i])
      ensures m[i] == ' ' && (i + 1 < |m| ==> !IsSpace(m[i + 1]))
    {
      assert m[i] == s[a + i];
      if i + 1 < |m| {
        assert m[i + 1] == s[a + i + 1];
      }
    }
  }

  /** Stripping changes only whitespace. */
  lemma StripKeepsText(s: string)
    ensures Visible(Strip(s)) == Visible(s)
  {
    StripSlice(s);
    LeadingSpaceSpan(s);
    TrailingSpaceSpan(s);
    var a := LeadingSpace(s);
    if a == |s| {
      VisibleOfSpaces(s);
    } else {
      var t := TrailingSpace(s);
      var mid := s[a..|s| - t];
      var head := s[..a];
      var tail := s[|s| - t..];
      assert s == head + mid + tail;
      VisibleConcat(head + mid, tail);
      VisibleConcat(head, mid);
      VisibleOfSpaces(head);
      VisibleOfSpaces(tail);
    }
  }

  /** Stripping keeps single spacing. */
  lemma StripKeepsSpacing(s: string)
    requires SingleSpaced(s)
    ensures SingleSpaced(Strip(s))
  {
    StripSlice(s);
    if LeadingSpace(s) < |s| {
      SingleSpacedSlice(s, LeadingSpace(s), |s| - TrailingSpace(s));
    }
  }

  /** `clean_html`: empty stays empty; otherwise tags are removed, then
      references replaced, then whitespace runs collapsed and the ends
      stripped. */
  function CleanHtml(s: string): (r: string)
    ensures s == [] ==> r == []
  {
    if s == [] then [] else Strip(Collapse(Unescape(StripTags(s))))
  }

  /** The cleaned text has no whitespace at either end, only single
      spaces inside, and the same visible characters as the text with tags
      removed and references replaced; plain text keeps its visible
      characters. */
  lemma CleanHtmlShape(s: string)
    ensures Trimmed(CleanHtml(s)) && SingleSpaced(CleanHtml(s))
    ensures Visible(CleanHtml(s)) == Visible(Unescape(StripTags(s)))
    ensures '<' !in s && '&' !in s ==> Visible(CleanHtml(s)) == Visible(s)
  {
    if s != [] {
      var u := Unescape(StripTags(s));
      CollapseSpacing(u);
      StripKeepsText(Collapse(u));
      StripKeepsSpacing(Collapse(u));
      CollapseKeepsText(u);
      StripTagsKeepsText(s);
      if '<' !in s && '&' !in s {
        UnescapePlain(s);
      }
    }
  }

  /** Escaped text has no '<' left for tag removal to act on. */
  lemma {:induction false} EscapeHasNoTagOpen(t: string)
    ensures '<' !in Escape(t)
    decreases |t|
  {
    if t != [] {
      EscapeHasNoTagOpen(t[1..]);
    }
  }

  /** References are replaced after tags are removed, so escaped markup
      such as "&lt;world&gt;" comes out as the text it stands for: cleaning
      the escape of trimmed, single-spaced text gives that text back. */
  lemma EscapedTextSurvives(t: string)
    requires Trimmed(t) && SingleSpaced(t)
    ensures CleanHtml(Escape(t)) == t
  {
    if t != [] {
      var e := Escape(t);
      assert e != [] by {
        assert |EscapeChar(t[0])| >= 1;
      }
      EscapeHasNoTagOpen(t);
      StripTagsKeepsText(e);
      assert StripTags(e) == e;
      UnescapeEscape(t);
      CollapseSingleSpaced(t);
      assert Strip(t) == t;
      assert CleanHtml(e) == Strip(Collapse(Unescape(StripTags(e))));
    }
  }

  /** Single-spaced text is left alone by collapsing. */
  lemma {:induction false} CollapseSingleSpaced(s: string)
    requires SingleSpaced(s)
    ensures Collapse(s) == s
    decreases |s|
  {
    if s != [] {
      SingleSpacedSlice(s, 1, |s|);
      CollapseSingleSpaced(s[1..]);
      if IsSpace(s[0]) {
        assert LeadingSpace(s) == 1 by {
          if |s| > 1 {
            assert !IsSpace(s[1]);
            assert s[1..][0] == s[1];
          }
        }
      }
    }
  }

  // ---------------------------------------------------------------------
  // CSV rows

  /** One CSV cell, before `str()`. */
  datatype Cell = TextCell(text: string) | IntCell(n: int) | RealCell(x: real)

  /** The header and the rows a `csv.DictWriter` writes; each row holds
      its cells in header order. */
  datatype CsvTable = CsvTable(fieldnames: seq<string>, rows: seq<seq<Cell>>)

  const BookmarkColumns: seq<string> :=
    ["bookmark_id", "title", "url", "description", "time_added", "progress", "starred"]

  function BookmarkFieldnames(includeText: bool): (f: seq<string>)
    ensures |f| == if includeText then 8 else 7
    ensures f[..7] == BookmarkColumns
    ensures includeText ==> f[7] == "full_text"
  {
    BookmarkColumns + if includeText then ["full_text"] else []
  }

  function FullTextColumn(b: BookmarkData, includeText: bool): (col: seq<Cell>)
    ensures |col| == if includeText then 1 else 0
    ensures includeText ==> col[0] == TextCell(CleanHtml(OrEmpty(b.fullText)))
  {
    if includeText then [TextCell(CleanHtml(OrEmpty(b.fullText)))] else []
  }

  /** A bookmark row: starred as '1' or '0', and the cleaned full text
      (none given reads as '') exactly when `includeText`. */
  function BookmarkRow(b: BookmarkData, includeText: bool): (row: seq<Cell>)
    ensures |row| == |BookmarkFieldnames(includeText)|
    ensures row[0] == IntCell(b.bookmarkId) && row[1] == TextCell(b.title) && row[2] == TextCell(b.url)
    ensures row[3] == TextCell(b.description) && row[4] == IntCell(b.timeAdded) && row[5] == RealCell(b.progress)
    ensures row[6] == TextCell(if b.starred then "1" else "0")
    ensures includeText ==> row[7] == TextCell(CleanHtml(OrEmpty(b.fullText)))
  {
    [IntCell(b.bookmarkId), TextCell(b.title), TextCell(b.url), TextCell(b.description),
     IntCell(b.timeAdded), RealCell(b.progress), TextCell(if b.starred then "1" else "0")]
    + FullTextColumn(b, includeText)
  }

  /** The bookmarks file: the header and one row per bookmark, in order. */
  function BookmarksTable(bookmarks: seq<BookmarkData>, includeText: bool): (t: CsvTable)
    ensures t.fieldnames == BookmarkFieldnames(includeText) && |t.rows| == |bookmarks|
    ensures forall k :: 0 <= k < |bookmarks| ==> t.rows[k] == BookmarkRow(bookmarks[k], includeText)
  {
    CsvTable(BookmarkFieldnames(includeText),
             seq(|bookmarks|, k requires 0 <= k < |bookmarks| => BookmarkRow(bookmarks[k], includeText)))
  }

  /** `export_bookmarks_to_csv`: nothing for an empty list, otherwise the
      header and one row per bookmark, in order. */
  method ExportBookmarksToCsv(bookmarks: seq<BookmarkData>, includeText: bool) returns (written: Option<CsvTable>)
    ensures written.None? <==> bookmarks == []
    ensures written.Some? ==> written.value == BookmarksTable(bookmarks, includeText)
  {
    if bookmarks == [] {
      return None;
    }
    var fieldnames := BookmarkColumns;
    if includeText {
      fieldnames := fieldnames + ["full_text"];
    }
    var rows: seq<seq<Cell>> := [];
    var i := 0;
    while i < |bookmarks|
      invariant 0 <= i <= |bookmarks|
      invariant |rows| == i
      invariant forall k :: 0 <= k < i ==> rows[k] == BookmarkRow(bookmarks[k], includeText)
      decreases |bookmarks| - i
    {
      rows := rows + [BookmarkRow(bookmarks[i], includeText)];
      i := i + 1;
    }
    assert rows == BookmarksTable(bookmarks, includeText).rows;
    return Some(CsvTable(fieldnames, rows));
  }

  const HighlightColumns: seq<string> := ["bookmark_id", "highlight_id", "text", "note", "time", "position"]

  /** A highlight row: cleaned text, and the cleaned note or '' when the
      note is absent or empty (cleaning the empty text gives '', so both
      cases read as cleaning `OrEmpty(note)`). */
  function HighlightRow(h: HighlightData): (row: seq<Cell>)
    ensures |row| == |HighlightColumns|
    ensures row[0] == IntCell(h.bookmarkId) && row[1] == IntCell(h.highlightId)
    ensures row[2] == TextCell(CleanHtml(h.text))
    ensures row[3] == TextCell(CleanHtml(OrEmpty(h.note)))
    ensures row[4] == IntCell(h.time) && row[5] == IntCell(h.position)
  {
    [IntCell(h.bookmarkId), IntCell(h.highlightId), TextCell(CleanHtml(h.text)),
     TextCell(CleanHtml(OrEmpty(h.note))),
     IntCell(h.time), IntCell(h.position)]
  }

  /** The highlights file: the header and one row per highlight, in order. */
  function HighlightsTable(highlights: seq<HighlightData>): (t: CsvTable)
    ensures t.fieldnames == HighlightColumns && |t.rows| == |highlights|
    ensures forall k :: 0 <= k < |highlights| ==> t.rows[k] == HighlightRow(highlights[k])
  {
    CsvTable(HighlightColumns, seq(|highlights|, k requires 0 <= k < |highlights| => HighlightRow(highlights[k])))
  }

  /** `export_highlights_to_csv`: nothing for an empty list. */
  method ExportHighlightsToCsv(highlights: seq<HighlightData>) returns (written: Option<CsvTable>)
    ensures written.None? <==> highlights == []
    ensures written.Some? ==> written.value == HighlightsTable(highlights)
  {
    if highlights == [] {
      return None;
    }
    var rows: seq<seq<Cell>> := [];
    var i := 0;
    while i < |highlights|
      invariant 0 <= i <= |highlights|
      invariant |rows| == i
      invariant forall k :: 0 <= k < i ==> rows[k] == HighlightRow(highlights[k])
      decreases |highlights| - i
    {
      rows := rows + [HighlightRow(highlights[i])];
      i := i + 1;
    }
    assert rows == HighlightsTable(highlights).rows;
    return Some(CsvTable(HighlightColumns, rows));
  }

  // ---------------------------------------------------------------------
  // JSON document

  datatype HighlightEntry = HighlightEntry(highlightId: int, text: string, note: Option<string>, time: int, position: int)

  datatype BookmarkEntry = BookmarkEntry(
    bookmarkId: int,
    title: string,
    url: string,
    description: string,
    timeAdded: int,
    progress: real,
    starred: bool,
    fullText: Option<string>,     // present only with include_text
    highlights: seq<HighlightEntry>)

  datatype JsonExport = JsonExport(totalBookmarks: nat, totalHighlights: nat, bookmarks: seq<BookmarkEntry>)

  /** A highlight in the document: cleaned text, the cleaned note or
      null when the note is absent or empty. */
  function EntryOfHighlight(h: HighlightData): (e: HighlightEntry)
    ensures e.highlightId == h.highlightId && e.time == h.time && e.position == h.position
    ensures e.text == CleanHtml(h.text)
    ensures e.note.Some? <==> Truthy(h.note)
  {
    HighlightEntry(h.highlightId, CleanHtml(h.text),
                   if Truthy(h.note) then Some(CleanHtml(h.note.value)) else None,
                   h.time, h.position)
  }

  /** The entries of the highlights of one bookmark, in their order. */
  function GroupOf(highlights: seq<HighlightData>, id: int): seq<HighlightEntry>
    decreases |highlights|
  {
    if highlights == [] then []
    else
      var last := highlights[|highlights| - 1];
      GroupOf(highlights[..|highlights| - 1], id) + if last.bookmarkId == id then [EntryOfHighlight(last)] else []
  }

  /** A bookmark's group holds the entry of every highlight of that
      bookmark and of no other, one per highlight. */
  lemma {:induction false} GroupOfSelects(highlights: seq<HighlightData>, id: int)
    ensures forall e :: e in GroupOf(highlights, id) <==>
      exists h :: h in highlights && h.bookmarkId == id && e == EntryOfHighlight(h)
    ensures |GroupOf(highlights, id)| == |set k | 0 <= k < |highlights| && highlights[k].bookmarkId == id|
    decreases |highlights|
  {
    if highlights != [] {
      var init := highlights[..|highlights| - 1];
      var last := highlights[|highlights| - 1];
      GroupOfSelects(init, id);
      assert highlights == init + [last];
      var before := set k | 0 <= k < |init| && init[k].bookmarkId == id;
      var after := set k | 0 <= k < |highlights| && highlights[k].bookmarkId == id;
      if last.bookmarkId == id {
        assert after == before + {|init|};
      } else {
        assert after == before;
      }
    }
  }

  function EntryOfBookmark(b: BookmarkData, includeText: bool, group: seq<HighlightEntry>): BookmarkEntry {
    BookmarkEntry(b.bookmarkId, b.title, b.url, b.description, b.timeAdded, b.progress, b.starred,
                  if includeText then Some(CleanHtml(OrEmpty(b.fullText))) else None, group)
  }

  /** The JSON document: one entry per bookmark, in order, each with its
      own highlights (none when it has none); the totals are the lengths of
      the two input lists, whether or not every highlight's bookmark is
      among the bookmarks. */
  function JsonDocument(bookmarks: seq<BookmarkData>, highlights: seq<HighlightData>, includeText: bool): (doc: JsonExport)
    ensures doc.totalBookmarks == |bookmarks| && doc.totalHighlights == |highlights|
    ensures |doc.bookmarks| == |bookmarks|
    ensures forall k :: 0 <= k < |bookmarks| ==>
      doc.bookmarks[k] == EntryOfBookmark(bookmarks[k], includeText, GroupOf(highlights, bookmarks[k].bookmarkId))
  {
    JsonExport(|bookmarks|, |highlights|,
               seq(|bookmarks|, k requires 0 <= k < |bookmarks| =>
                 EntryOfBookmark(bookmarks[k], includeText, GroupOf(highlights, bookmarks[k].bookmarkId))))
  }

  /** `export_to_json`: highlights are grouped by bookmark id in one pass,
      then each bookmark's entry takes its group. */
  method ExportToJson(bookmarks: seq<BookmarkData>, highlights: seq<HighlightData>, includeText: bool)
    returns (doc: JsonExport)
    ensures doc == JsonDocument(bookmarks, highlights, includeText)
  {
    var groups := GroupHighlights(highlights);
    var entries: seq<BookmarkEntry> := [];
    var j := 0;
    while j < |bookmarks|
      invariant 0 <= j <= |bookmarks|
      invariant |entries| == j
      invariant forall k :: 0 <= k < j ==>
        entries[k] == EntryOfBookmark(bookmarks[k], includeText, GroupOf(highlights, bookmarks[k].bookmarkId))
      decreases |bookmarks| - j
    {
      var b := bookmarks[j];
      var group := if b.bookmarkId in groups then groups[b.bookmarkId] else [];
      entries := entries + [EntryOfBookmark(b, includeText, group)];
      j := j + 1;
    }
    assert entries == JsonDocument(bookmarks, highlights, includeText).bookmarks;
    return JsonExport(|bookmarks|, |highlights|, entries);
  }

  /** The grouping pass of `export_to_json`: a list per bookmark id that
      occurs, each holding that bookmark's entries in order. */
  method GroupHighlights(highlights: seq<HighlightData>) returns (groups: map<int, seq<HighlightEntry>>)
    ensures forall id :: id in groups ==> groups[id] == GroupOf(highlights, id)
    ensures forall id :: id !in groups ==> GroupOf(highlights, id) == []
  {
    groups := map[];
    var i := 0;
    while i < |highlights|
      invariant 0 <= i <= |highlights|
      invariant forall id :: id in groups ==> groups[id] == GroupOf(highlights[..i], id)
      invariant forall id :: id !in groups ==> GroupOf(highlights[..i], id) == []
      decreases |highlights| - i
    {
      var h := highlights[i];
      assert highlights[..i + 1][..i] == highlights[..i] && highlights[..i + 1][i] == h;
      if h.bookmarkId !in groups {
        groups := groups[h.bookmarkId := []];
      }
      groups := groups[h.bookmarkId := groups[h.bookmarkId] + [EntryOfHighlight(h)]];
      i := i + 1;
    }
    assert highlights[..i] == highlights;
  }

  // ---------------------------------------------------------------------
  // Highlights path

  /** `get_highlights_output_path`: "_highlights" between the stem and the
      suffix, in the same directory. */
  function HighlightsOutputPath(path: string): string {
    var name := FileName(path);
    var suffix := Suffix(name);
    path[..|path| - |name|] + name[..|name| - |suffix|] + "_highlights" + suffix
  }

  lemma LastSlashOfJoin(dir: string, name: string)
    requires dir == [] || dir[|dir| - 1] == '/'
    requires '/' !in name
    ensures FileName(dir + name) == name
  {
    var s := dir + name;
    var r := LastIndexOf(s, '/');
    LastIndexOfIsLast(s, '/');
    if dir == [] {
      assert s == name;
    } else {
      assert s[|dir| - 1] == '/';
      assert forall j :: |dir| <= j < |s| ==> s[j] == name[j - |dir|];
      assert r.value == |dir| - 1;
      assert s[|dir|..] == name;
    }
  }

  /** The directory part before the file name is empty or ends in '/'. */
  lemma DirectoryOf(path: string)
    ensures var dir := path[..|path| - |FileName(path)|];
      dir == [] || dir[|dir| - 1] == '/'
  {
  }

  /** A name ending in a suffix (a dot and at least one character that is
      not a dot) after a non-empty stem has that suffix. */
  lemma LastDotOf(stem: string, suffix: string)
    requires stem != [] && |suffix| >= 2 && suffix[0] == '.' && '.' !in suffix[1..]
    ensures Suffix(stem + suffix) == suffix
  {
    var s := stem + suffix;
    var at := |stem|;
    assert s[at..] == suffix;
    assert s[at] == '.';
    assert forall j :: at < j < |s| ==> s[j] == suffix[1..][j - at - 1];
    LastIndexOfIsLast(s, '.');
    assert LastIndexOf(s, '.') == Some(at);
  }

  /** The highlights file stays in the bookmarks file's directory; its
      name is the stem, "_highlights", and the suffix, which it keeps. */
  lemma HighlightsPathShape(path: string)
    ensures var name := FileName(path);
      var suffix := Suffix(name);
      var result := HighlightsOutputPath(path);
      StartsWith(result, path[..|path| - |name|]) &&
      FileName(result) == name[..|name| - |suffix|] + "_highlights" + suffix &&
      (suffix != [] ==> Suffix(FileName(result)) == suffix)
  {
    var name := FileName(path);
    var suffix := Suffix(name);
    var dir := path[..|path| - |name|];
    var stem := name[..|name| - |suffix|];
    var newName := stem + "_highlights" + suffix;
    HighlightsOutputPathParts(path);
    assert HighlightsOutputPath(path) == dir + newName;
    DirectoryOf(path);
    SliceLacks(name, '/', 0, |name| - |suffix|);
    SliceLacks(name, '/', |name| - |suffix|, |name|);
    RenamedInDirectory(dir, stem, suffix);
    assert FileName(dir + newName) == newName;
  }

  /** The highlights path is the directory followed by the new name. */
  lemma HighlightsOutputPathParts(path: string)
    ensures var name := FileName(path);
      var suffix := Suffix(name);
      HighlightsOutputPath(path) == path[..|path| - |name|] + (name[..|name| - |suffix|] + "_highlights" + suffix)
  {
  }

  /** A slice holds no character its sequence lacks. */
  lemma SliceLacks(s: string, c: char, a: nat, b: nat)
    requires a <= b <= |s| && c !in s
    ensures c !in s[a..b]
  {
  }

  /** Renaming inside a directory: the new file name is the last
      component, it starts with the directory, and a suffix survives. */
  lemma RenamedInDirectory(dir: string, stem: string, suffix: string)
    requires dir == [] || dir[|dir| - 1] == '/'
    requires '/' !in stem && '/' !in suffix
    requires suffix == [] || (|suffix| >= 2 && suffix[0] == '.' && '.' !in suffix[1..])
    ensures var newName := stem + "_highlights" + suffix;
      StartsWith(dir + newName, dir) && FileName(dir + newName) == newName &&
      (suffix != [] ==> Suffix(newName) == suffix)
  {
    var newName := stem + "_highlights" + suffix;
    assert '/' !in newName by {
      assert forall c :: c in newName ==> c in stem || c in "_highlights" || c in suffix;
    }
    LastSlashOfJoin(dir, newName);
    assert (dir + newName)[..|dir|] == dir;
    if suffix != [] {
      LastDotOf(stem + "_highlights", suffix);
    }
  }

  /** A path built from a directory, a stem and a suffix gets
      "_highlights" between the stem and the suffix. */
  lemma HighlightsPathOf(dir: string, stem: string, suffix: string)
    requires dir == [] || dir[|dir| - 1] == '/'
    requires stem != [] && '/' !in stem
    requires |suffix| >= 2 && suffix[0] == '.' && '.' !in suffix[1..] && '/' !in suffix
    ensures HighlightsOutputPath(dir + stem + suffix) == dir + stem + "_highlights" + suffix
  {
    var name := stem + suffix;
    var path := dir + name;
    assert dir + stem + suffix == path;
    LastSlashOfJoin(dir, name);
    LastDotOf(stem, suffix);
    assert path[..|dir|] == dir;
    assert name[..|stem|] == stem;
    assert HighlightsOutputPath(path) == path[..|dir|] + name[..|stem|] + "_highlights" + suffix;
  }
}
