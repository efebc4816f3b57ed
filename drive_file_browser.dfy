/**
 * components/DriveFileBrowser.tsx: the rules of the Drive file picker, lifted out of the
 * component: the search guard, toggling a file in and out of the selection, the size
 * label, the icon chosen from the MIME type and the selection summary. Rendering, the
 * fetches to the server routes and the component's loading flags are not modelled.
 */
module DriveFileBrowser {
  import opened Wrappers
  import opened JsText

  // ---------------------------------------------------------------------------
  // Search

  /** The page size the picker asks the search route for. */
  const SEARCH_PAGE_SIZE := 50

  /** What `searchFiles` does with the query box's text. */
  datatype SearchAction = ReloadListing | SearchDrive(query: string, maxResults: int)

  /** A blank query reloads the plain listing; anything else is searched for, untrimmed. */
  function SearchActionFor(query: string): (r: SearchAction)
    ensures r.ReloadListing? <==> IsBlank(query)
    ensures r.SearchDrive? ==> r.query == query && r.maxResults == SEARCH_PAGE_SIZE
  {
    TrimEmptyIffBlank(query);
    if Trim(query) == "" then ReloadListing else SearchDrive(query, SEARCH_PAGE_SIZE)
  }

  // ---------------------------------------------------------------------------
  // Selection

  /** `s.filter(id => id !== x)`: every element other than `x`, in order. */
  function Without(s: seq<string>, x: string): (r: seq<string>)
    ensures forall y :: y in r <==> y in s && y != x
    ensures |r| <= |s|
  {
    if s == [] then []
    else Without(s[..|s| - 1], x) + (if s[|s| - 1] == x then [] else [s[|s| - 1]])
  }

  /** `handleFileToggle(fileId)`: remove the file if selected, otherwise append it. */
  function Toggle(selected: seq<string>, fileId: string): seq<string> {
    if fileId in selected then Without(selected, fileId) else selected + [fileId]
  }

  /** No file is selected twice. */
  predicate Distinct(s: seq<string>) {
    forall i, j :: 0 <= i < j < |s| ==> s[i] != s[j]
  }

  lemma WithoutAppendOther(s: seq<string>, y: string, x: string)
    ensures Without(s + [y], x) == Without(s, x) + (if y == x then [] else [y])
  {
    assert (s + [y])[..|s|] == s;
  }

  lemma {:induction false} WithoutAbsent(s: seq<string>, x: string)
    requires x !in s
    ensures Without(s, x) == s
  {
    if s != [] {
      WithoutAbsent(s[..|s| - 1], x);
      assert s[..|s| - 1] + [s[|s| - 1]] == s;
    }
  }

  /** After the toggle the file is selected exactly when it was not before; others keep their state. */
  lemma ToggleMembership(selected: seq<string>, fileId: string)
    ensures fileId in Toggle(selected, fileId) <==> fileId !in selected
    ensures forall y :: y != fileId ==> (y in Toggle(selected, fileId) <==> y in selected)
  {
  }

  /** Toggling changes nothing about the other files: their order and number are kept. */
  lemma ToggleKeepsOthers(selected: seq<string>, fileId: string)
    ensures Without(Toggle(selected, fileId), fileId) == Without(selected, fileId)
  {
    if fileId in selected {
      WithoutAbsent(Without(selected, fileId), fileId);
    } else {
      WithoutAppendOther(selected, fileId, fileId);
    }
  }

  /** Selecting a file and deselecting it again restores the selection exactly. */
  lemma ToggleTwiceRestores(selected: seq<string>, fileId: string)
    requires fileId !in selected
    ensures Toggle(Toggle(selected, fileId), fileId) == selected
  {
    WithoutAppendOther(selected, fileId, fileId);
    WithoutAbsent(selected, fileId);
  }

  /** Deselecting and reselecting a file moves it to the end of the selection. */
  lemma ToggleTwiceMovesToEnd(selected: seq<string>, fileId: string)
    requires fileId in selected
    ensures Toggle(Toggle(selected, fileId), fileId) == Without(selected, fileId) + [fileId]
  {
  }

  lemma {:induction false} WithoutDistinct(s: seq<string>, x: string)
    requires Distinct(s)
    ensures Distinct(Without(s, x))
  {
    if s != [] {
      var init := s[..|s| - 1];
      var last := s[|s| - 1];
      assert Distinct(init);
      WithoutDistinct(init, x);
      assert last !in init by {
        forall i | 0 <= i < |init| ensures init[i] != last {
          assert init[i] == s[i];
        }
      }
    }
  }

  /** Toggling keeps a selection free of duplicates. */
  lemma ToggleKeepsDistinct(selected: seq<string>, fileId: string)
    requires Distinct(selected)
    ensures Distinct(Toggle(selected, fileId))
  {
    if fileId in selected {
      WithoutDistinct(selected, fileId);
    }
  }

  // ---------------------------------------------------------------------------
  // Size label

  const UNKNOWN_SIZE := "Unknown size"
  const KIBI := 1024
  const MEBI := 1024 * 1024

  /**
   * `(bytes / unit).toFixed(1)` for a non-negative byte count and a power-of-two unit: the
   * quotient is exact in floating point, and `toFixed` picks the nearest tenth, the larger
   * one on a tie.
   */
  function Tenths(bytes: nat, unit: nat): (n: nat)
    requires unit > 0 && unit % 2 == 0
    ensures n * unit <= 10 * bytes + unit / 2 < (n + 1) * unit
  {
    (10 * bytes + unit / 2) / unit
  }

  /** A count of tenths as `toFixed(1)` writes it: the integer part, a point, one digit. */
  function FixedOne(tenths: nat): (s: string)
    ensures |s| >= 3 && s[|s| - 2] == '.' && IsDigit(s[|s| - 1])
  {
    NatToString(tenths / 10) + "." + [DigitChar(tenths % 10)]
  }

  /**
   * `formatFileSize(size)`. No size (or an empty one) is unknown; otherwise the string is
   * read with `parseInt`. A string with no leading digits gives `NaN`, which fails both
   * comparisons and prints as "NaN MB".
   */
  function FormatFileSize(size: Option<string>): (text: string)
    ensures size.None? || size == Some("") ==> text == UNKNOWN_SIZE
    ensures size.Some? && size.value != "" && ParseInt(size.value).None? ==> text == "NaN MB"
  {
    match size
    case None => UNKNOWN_SIZE
    case Some(digits) =>
      if digits == "" then UNKNOWN_SIZE
      else
        match ParseInt(digits)
        case None => "NaN MB"
        case Some(bytes) =>
          if bytes < KIBI then IntToString(bytes) + " B"
          else if bytes < MEBI then FixedOne(Tenths(bytes, KIBI)) + " KB"
          else FixedOne(Tenths(bytes, MEBI)) + " MB"
  }

  /**
   * For the decimal size strings Drive sends, the label shows the exact byte count below
   * 1 KiB, and otherwise the size in KiB (below 1 MiB) or MiB rounded to the nearest tenth.
   */
  lemma FormatFileSizeOfCount(n: nat)
    ensures FormatFileSize(Some(NatToString(n))) ==
              if n < KIBI then NatToString(n) + " B"
              else if n < MEBI then FixedOne(Tenths(n, KIBI)) + " KB"
              else FixedOne(Tenths(n, MEBI)) + " MB"
  {
    var digits := NatToString(n);
    assert ParseInt(digits) == Some(n) by {
      ParseIntOfNumberPrefix(n, "");
      assert digits + "" == digits;
    }
    FormatFileSizeOfParsed(digits, n);
  }

  /** The label of a size text that `parseInt` reads as the byte count `n`. */
  lemma FormatFileSizeOfParsed(digits: string, n: nat)
    requires digits != "" && ParseInt(digits) == Some(n)
    ensures FormatFileSize(Some(digits)) ==
              if n < KIBI then NatToString(n) + " B"
              else if n < MEBI then FixedOne(Tenths(n, KIBI)) + " KB"
              else FixedOne(Tenths(n, MEBI)) + " MB"
  {
  }

  /**
   * The kibibyte branch shows from "1.0 KB" up to "1024.0 KB": every size from 1048525
   * bytes to one byte short of a mebibyte rounds up to 1024.0 instead of moving to MB.
   */
  lemma KilobyteRange(n: nat)
    requires KIBI <= n < MEBI
    ensures FormatFileSize(Some(NatToString(n))) == FixedOne(Tenths(n, KIBI)) + " KB"
    ensures 10 <= Tenths(n, KIBI) <= 10240
    ensures Tenths(n, KIBI) == 10240 <==> n >= 1048525
  {
    FormatFileSizeOfCount(n);
  }

  /** Text that `parseInt` cannot read is labelled as a size in mebibytes. */
  lemma UnreadableSizeLabel()
    ensures FormatFileSize(Some("large")) == "NaN MB"
  {
    assert TrimStart("large") == "large";
    assert LeadingDigits("large") == [];
  }

  // ---------------------------------------------------------------------------
  // Icon

  const DOCUMENT_ICON := "📄"
  const PRESENTATION_ICON := "📊"
  const SPREADSHEET_ICON := "📈"
  const PDF_ICON := "📕"
  const TEXT_ICON := "📝"

  /** `getFileIcon(mimeType)`: the first keyword the MIME type contains decides. */
  function FileIcon(mimeType: string): string {
    if Includes(mimeType, "document") then DOCUMENT_ICON
    else if Includes(mimeType, "presentation") then PRESENTATION_ICON
    else if Includes(mimeType, "spreadsheet") then SPREADSHEET_ICON
    else if Includes(mimeType, "pdf") then PDF_ICON
    else if Includes(mimeType, "text") then TEXT_ICON
    else DOCUMENT_ICON
  }

  /** The icon rules as a table of (keyword, icon), in the order they are tried. */
  const ICON_RULES: seq<(string, string)> := [
    ("document", DOCUMENT_ICON), ("presentation", PRESENTATION_ICON),
    ("spreadsheet", SPREADSHEET_ICON), ("pdf", PDF_ICON), ("text", TEXT_ICON)]

  /** The icon of the first rule whose keyword `mimeType` contains, else the fallback. */
  function FirstMatchingIcon(rules: seq<(string, string)>, mimeType: string, fallback: string): (icon: string)
    ensures icon == fallback || exists i :: 0 <= i < |rules| && icon == rules[i].1
  {
    if rules == [] then fallback
    else if Includes(mimeType, rules[0].0) then rules[0].1
    else FirstMatchingIcon(rules[1..], mimeType, fallback)
  }

  /** `getFileIcon` is the first-match reading of the rule table, with the document icon as fallback. */
  lemma FileIconFollowsRules(mimeType: string)
    ensures FileIcon(mimeType) == FirstMatchingIcon(ICON_RULES, mimeType, DOCUMENT_ICON)
  {
    var r1 := [("presentation", PRESENTATION_ICON), ("spreadsheet", SPREADSHEET_ICON), ("pdf", PDF_ICON), ("text", TEXT_ICON)];
    var r2 := [("spreadsheet", SPREADSHEET_ICON), ("pdf", PDF_ICON), ("text", TEXT_ICON)];
    var r3 := [("pdf", PDF_ICON), ("text", TEXT_ICON)];
    var r4 := [("text", TEXT_ICON)];
    assert ICON_RULES[1..] == r1 && r1[1..] == r2 && r2[1..] == r3 && r3[1..] == r4 && r4[1..] == [];
    var m := mimeType;
    assert FirstMatchingIcon(r4, m, DOCUMENT_ICON) == if Includes(m, "text") then TEXT_ICON else DOCUMENT_ICON;
    assert FirstMatchingIcon(r3, m, DOCUMENT_ICON) ==
             if Includes(m, "pdf") then PDF_ICON else FirstMatchingIcon(r4, m, DOCUMENT_ICON);
    assert FirstMatchingIcon(r2, m, DOCUMENT_ICON) ==
             if Includes(m, "spreadsheet") then SPREADSHEET_ICON else FirstMatchingIcon(r3, m, DOCUMENT_ICON);
    assert FirstMatchingIcon(r1, m, DOCUMENT_ICON) ==
             if Includes(m, "presentation") then PRESENTATION_ICON else FirstMatchingIcon(r2, m, DOCUMENT_ICON);
    assert ICON_RULES[0] == ("document", DOCUMENT_ICON);
    assert FirstMatchingIcon(ICON_RULES, m, DOCUMENT_ICON) ==
             if Includes(m, "document") then DOCUMENT_ICON else FirstMatchingIcon(r1, m, DOCUMENT_ICON);
  }
  /** The first rule whose keyword the MIME type contains decides the icon. */
  lemma {:induction false} FirstMatchWins(rules: seq<(string, string)>, mimeType: string, fallback: string, i: nat)
    requires i < |rules| && Includes(mimeType, rules[i].0)
    requires forall j :: 0 <= j < i ==> !Includes(mimeType, rules[j].0)
    ensures FirstMatchingIcon(rules, mimeType, fallback) == rules[i].1
  {
    if i > 0 {
      forall j | 0 <= j < i - 1
        ensures !Includes(mimeType, rules[1..][j].0)
      {
        assert rules[1..][j] == rules[j + 1];
      }
      FirstMatchWins(rules[1..], mimeType, fallback, i - 1);
    }
  }

  /** When no keyword matches, the fallback is used. */
  lemma {:induction false} NoMatchFallsBack(rules: seq<(string, string)>, mimeType: string, fallback: string)
    requires forall j :: 0 <= j < |rules| ==> !Includes(mimeType, rules[j].0)
    ensures FirstMatchingIcon(rules, mimeType, fallback) == fallback
    decreases |rules|
  {
    if rules != [] {
      assert !Includes(mimeType, rules[0].0);
      forall j | 0 <= j < |rules| - 1
        ensures !Includes(mimeType, rules[1..][j].0)
      {
        assert rules[1..][j] == rules[j + 1];
      }
      NoMatchFallsBack(rules[1..], mimeType, fallback);
    }
  }

  /**
   * `getFileIcon` in table form: the icon of the first keyword, in the order document,
   * presentation, spreadsheet, pdf, text, that the MIME type contains; 📄 when none does.
   */
  lemma FileIconFirstMatch(mimeType: string, i: nat)
    requires i < |ICON_RULES| && Includes(mimeType, ICON_RULES[i].0)
    requires forall j :: 0 <= j < i ==> !Includes(mimeType, ICON_RULES[j].0)
    ensures FileIcon(mimeType) == ICON_RULES[i].1
  {
    FileIconFollowsRules(mimeType);
    FirstMatchWins(ICON_RULES, mimeType, DOCUMENT_ICON, i);
  }

  lemma FileIconNoMatch(mimeType: string)
    requires forall j :: 0 <= j < |ICON_RULES| ==> !Includes(mimeType, ICON_RULES[j].0)
    ensures FileIcon(mimeType) == DOCUMENT_ICON
  {
    FileIconFollowsRules(mimeType);
    NoMatchFallsBack(ICON_RULES, mimeType, DOCUMENT_ICON);
  }


  /** The MIME type of an Excel workbook, around its "document" keyword. */
  const WORKBOOK_HEAD := "application/vnd.openxmlformats-office"
  const WORKBOOK_TAIL := ".spreadsheetml.sheet"
  const WORKBOOK := WORKBOOK_HEAD + "document" + WORKBOOK_TAIL

  /**
   * Rule order matters: an Excel workbook's MIME type contains "spreadsheet", but it
   * contains "document" (in "officedocument") too, so it gets the document icon.
   */
  lemma WorkbookGetsDocumentIcon()
    ensures Includes(WORKBOOK, "spreadsheet")
    ensures FileIcon(WORKBOOK) == DOCUMENT_ICON
  {
    var at := |WORKBOOK_HEAD|;
    assert WORKBOOK[at..at + 8] == "document";
    IncludesAt(WORKBOOK, "document", at);
    assert WORKBOOK_TAIL[1..12] == "spreadsheet";
    assert WORKBOOK[at + 9..at + 20] == WORKBOOK_TAIL[1..12];
    IncludesAt(WORKBOOK, "spreadsheet", at + 9);
  }

  /** A Google Docs file gets the document icon. */
  lemma GoogleDocIcon()
    ensures FileIcon("application/vnd.google-apps.document") == DOCUMENT_ICON
  {
    var head := "application/vnd.google-apps.";
    var doc := head + "document";
    assert doc == "application/vnd.google-apps.document";
    assert doc[|head|..] == "document";
    IncludesAt(doc, "document", |head|);
  }

  // ---------------------------------------------------------------------------
  // Selection summary

  const SELECTED_FOR_PROCESSING := " selected for processing"

  /** The line under the list: shown only when something is selected, plural unless exactly one. */
  function SelectionSummary(count: int): (r: Option<string>)
    ensures r.Some? <==> count > 0
  {
    if count > 0 then
      Some(IntToString(count) + " file" + (if count != 1 then "s" else "") + SELECTED_FOR_PROCESSING)
    else None
  }

  /** The summary starts with the number of selected files, which `parseInt` reads back. */
  lemma SelectionSummaryCount(count: nat)
    requires count > 0
    ensures ParseInt(SelectionSummary(count).value) == Some(count)
  {
    var rest := " file" + (if count != 1 then "s" else "") + SELECTED_FOR_PROCESSING;
    assert SelectionSummary(count).value == NatToString(count) + rest;
    ParseIntOfNumberPrefix(count, rest);
  }

  /** Exactly one selected file reads "1 file", any other count "files". */
  lemma SelectionSummaryPlural(count: nat)
    requires count > 0
    ensures count == 1 ==> SelectionSummary(count) == Some("1 file" + SELECTED_FOR_PROCESSING)
    ensures count != 1 ==> SelectionSummary(count) == Some(NatToString(count) + " files" + SELECTED_FOR_PROCESSING)
  {
    if count == 1 {
      assert IntToString(1) == "1" by { assert NatToString(1) == [DigitChar(1)]; }
      assert "1" + " file" == "1 file";
      assert "1 file" + "" == "1 file";
    } else {
      var n := NatToString(count);
      assert IntToString(count) == n;
      assert " file" + "s" == " files";
      assert n + " file" + "s" == n + " files";
    }
  }
}
