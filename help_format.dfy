/**
 * Help screens and short message formats: per-command help, "ERR:"/"OK:"/"INFO:"
 * lines, status lines, plain tables, prompts, list headers and bulleted lists.
 */
module HelpFormat {
  import opened Wrappers
  import opened Text
  import Parser

  /** The help text of each command, keyed by its short name. */
  const HelpTable: map<string, seq<string>> := map[
    "L" := ["LIST DEVICES", "Usage: L [page]", "Examples:", "  L       First page", "  L 2     Page 2", "Shows devices with IDs"],
    "S" := ["SHOW DEVICE", "Usage: S <id>", "Examples:", "  S 1     Show device #1", "Shows detailed info"],
    "ON" := ["TURN ON", "Usage: ON <id>", "Examples:", "  ON 1    Turn on device #1", "Works with lights, switches"],
    "OFF" := ["TURN OFF", "Usage: OFF <id>", "Examples:", "  OFF 1   Turn off device #1", "Works with lights, switches"],
    "SET" := ["SET VALUE", "Usage: SET <id> <value>", "Examples:", "  SET 1 50    Set to 50%", "  SET 2 75    Set to 75",
              "For: brightness, position, temp"],
    "A" := ["LIST AUTOMATIONS", "Usage: A [page]", "Examples:", "  A       First page", "  A 2     Page 2",
            "Shows available automations"],
    "T" := ["TRIGGER AUTOMATION", "Usage: T <id>", "Examples:", "  T 1     Trigger automation #1", "Runs the automation"],
    "Q" := ["QUIT", "Usage: Q", "Disconnects from server"]]

  /**
   * Every command with a help page is a command the parser accepts, and its page's
   * second line is "Usage: " followed by that very command name.
   */
  lemma HelpTopicsAreCommands()
    ensures forall k :: k in HelpTable ==> Parser.CommandMap(k).Some?
    ensures forall k :: k in HelpTable ==> |HelpTable[k]| >= 3 && "Usage: " + k <= HelpTable[k][1]
  {
  }

  /** `format_command_help`: the page of the upper-cased name, or "No help for: <name>". */
  function FormatCommandHelp(command: string): (r: seq<string>)
    ensures Upper(command) in HelpTable ==> r == HelpTable[Upper(command)]
    ensures Upper(command) !in HelpTable ==> r == ["No help for: " + command]
    ensures |r| >= 1
  {
    var key := Upper(command);
    if key in HelpTable then HelpTable[key] else ["No help for: " + command]
  }

  /** Help lookup ignores letter case: a name and its upper-cased form get the same page. */
  lemma CommandHelpCaseInsensitive(command: string)
    requires Upper(command) in HelpTable
    ensures FormatCommandHelp(Upper(command)) == FormatCommandHelp(command)
  {
    UpperIdempotent(command);
  }

  /** `format_error_message`: "ERR: <error>", then the context on its own line when it is non-empty. */
  function FormatErrorMessage(error: string, context: Option<string>): (r: seq<string>)
    ensures 1 <= |r| <= 2 && r[0] == "ERR: " + error
    ensures |r| == 2 <==> context.Some? && context.value != ""
    ensures |r| == 2 ==> r[1] == context.value
  {
    ["ERR: " + error] + (if context.Some? && context.value != "" then [context.value] else [])
  }

  /** `format_success_message`: the message after "OK: ". */
  function FormatSuccessMessage(message: string): (r: string)
    ensures "OK: " <= r && r[4..] == message
  {
    "OK: " + message
  }

  /** `format_info_message`: the message after "INFO: ". */
  function FormatInfoMessage(message: string): (r: string)
    ensures "INFO: " <= r && r[6..] == message
  {
    "INFO: " + message
  }

  /** `format_prompt`: the prompt text followed by one blank. */
  function FormatPrompt(promptChar: string): (r: string)
    ensures |r| == |promptChar| + 1 && r[..|promptChar|] == promptChar && r[|promptChar|] == ' '
  {
    promptChar + " "
  }

  /** `format_list_header`: "<title> (<count> <item type>)". */
  function FormatListHeader(title: string, count: int, itemType: string): (r: string)
    ensures |r| == |title| + |IntToString(count)| + |itemType| + 4
    ensures title + " (" + IntToString(count) + " " <= r
    ensures r[|r| - |itemType| - 1..] == itemType + ")"
  {
    var head := title + " (" + IntToString(count) + " ";
    var r := head + itemType + ")";
    assert r[..|head|] == head;
    r
  }

  /** `format_status_line`: "key: value" pairs joined by the separator; no pairs give "". */
  function FormatStatusLine(items: seq<(string, string)>, separator: string): (r: string)
    ensures items == [] ==> r == ""
    ensures |items| > 0 ==> items[0].0 + ": " + items[0].1 <= r
    ensures |items| == 1 ==> r == items[0].0 + ": " + items[0].1
    ensures |r| == TotalLength(Pairs(items)) + (if |items| > 0 then (|items| - 1) * |separator| else 0)
  {
    JoinLength(separator, Pairs(items));
    Join(separator, Pairs(items))
  }

  /** Each further pair comes out at the end as "key: value", after one more separator. */
  lemma FormatStatusLineAppend(items: seq<(string, string)>, p: (string, string), separator: string)
    requires |items| > 0
    ensures FormatStatusLine(items + [p], separator) == FormatStatusLine(items, separator) + separator + p.0 + ": " + p.1
  {
    assert Pairs(items + [p]) == Pairs(items) + [p.0 + ": " + p.1];
    JoinSnoc(separator, Pairs(items), p.0 + ": " + p.1);
  }

  /** Each pair as "key: value". */
  function Pairs(items: seq<(string, string)>): (r: seq<string>)
    ensures |r| == |items|
    ensures forall k :: 0 <= k < |items| ==> r[k] == items[k].0 + ": " + items[k].1
  {
    seq(|items|, k requires 0 <= k < |items| => items[k].0 + ": " + items[k].1)
  }

  /**
   * `format_compact_list`: every shown item after the prefix; a truthy limit shows
   * only the first `maxItems` and then "... and <k> more" for the rest.
   */
  function FormatCompactList(items: seq<string>, prefix: string, maxItems: Option<int>): (r: seq<string>)
    ensures maxItems == None || maxItems == Some(0) ==>
      |r| == |items| && forall k :: 0 <= k < |items| ==> r[k] == prefix + items[k]
    ensures maxItems.Some? && maxItems.value > 0 && |items| <= maxItems.value ==>
      |r| == |items| && forall k :: 0 <= k < |items| ==> r[k] == prefix + items[k]
    ensures maxItems.Some? && maxItems.value > 0 && |items| > maxItems.value ==>
      |r| == maxItems.value + 1 && (forall k :: 0 <= k < maxItems.value ==> r[k] == prefix + items[k])
      && r[maxItems.value] == "... and " + IntToString(|items| - maxItems.value) + " more"
    // a negative limit drops that many items from the end (or all of them), and the count still follows
    ensures maxItems.Some? && maxItems.value < 0 ==>
      var n := if |items| + maxItems.value > 0 then |items| + maxItems.value else 0;
      && |r| == n + 1 && (forall k :: 0 <= k < n ==> r[k] == prefix + items[k])
      && r[n] == "... and " + IntToString(|items| - maxItems.value) + " more"
  {
    var limited := maxItems.Some? && maxItems.value != 0;
    var shown := if limited then PySlice(items, 0, maxItems.value) else items;
    var lines := seq(|shown|, k requires 0 <= k < |shown| => prefix + shown[k]);
    if limited && |items| > maxItems.value then lines + ["... and " + IntToString(|items| - maxItems.value) + " more"]
    else lines
  }

  /** The widest entry of column `col` among the rows that have that column (0 when none does). */
  function ColumnWidth(rows: seq<seq<string>>, col: nat): (w: nat)
    ensures forall k :: 0 <= k < |rows| && col < |rows[k]| ==> |rows[k][col]| <= w
    ensures w > 0 ==> exists k :: 0 <= k < |rows| && col < |rows[k]| && |rows[k][col]| == w
  {
    if rows == [] then 0
    else
      var rest := ColumnWidth(rows[1..], col);
      assert forall k :: 1 <= k < |rows| ==> rows[k] == rows[1..][k - 1];
      if col < |rows[0]| && |rows[0][col]| > rest then |rows[0][col]|
      else
        assert rest > 0 ==> exists k :: 1 <= k < |rows| && col < |rows[k]| && |rows[k][col]| == rest by {
          if rest > 0 {
            var j :| 0 <= j < |rows[1..]| && col < |rows[1..][j]| && |rows[1..][j][col]| == rest;
            assert rows[j + 1] == rows[1..][j];
          }
        }
        rest
  }

  /** The column widths: one per column of the first row (headers included when shown). */
  function ColWidths(allRows: seq<seq<string>>): (widths: seq<nat>)
    requires allRows != []
    ensures |widths| == |allRows[0]|
    ensures forall c, k :: 0 <= c < |widths| && 0 <= k < |allRows| && c < |allRows[k]| ==> |allRows[k][c]| <= widths[c]
  {
    seq(|allRows[0]|, c requires 0 <= c < |allRows[0]| => ColumnWidth(allRows, c))
  }

  /** The cells of a row that fall within the columns, padded to the column widths unless compact. */
  function RowParts(row: seq<string>, widths: seq<nat>, compact: bool): (parts: seq<string>)
    ensures |parts| == if |row| < |widths| then |row| else |widths|
    ensures forall i :: 0 <= i < |parts| ==> parts[i] == if compact then row[i] else LJust(row[i], widths[i])
  {
    var n := if |row| < |widths| then |row| else |widths|;
    seq(n, i requires 0 <= i < n => if compact then row[i] else LJust(row[i], widths[i]))
  }

  predicate ShowsHeaders(headers: Option<seq<string>>) {
    headers.Some? && headers.value != []
  }

  /**
   * `format_table`: nothing for no rows; otherwise, in the verbose form with headers,
   * the header line and a dash line as long as it, then one line per row, its cells
   * (within the first row's columns) blank-separated and, when verbose, padded.
   */
  function FormatTable(rows: seq<seq<string>>, headers: Option<seq<string>>, compact: bool): (r: seq<string>)
    ensures rows == [] ==> r == []
    ensures rows != [] ==> |r| == |rows| + (if ShowsHeaders(headers) && !compact then 2 else 0)
    ensures rows != [] && ShowsHeaders(headers) && !compact ==> r[1] == Repeat('-', |r[0]|)
    ensures rows != [] && compact ==> forall k :: 0 <= k < |rows| ==>
      r[k] == Join(" ", RowParts(rows[k], ColWidths(if ShowsHeaders(headers) then [headers.value] + rows else rows), true))
  {
    if rows == [] then []
    else
      var allRows := if ShowsHeaders(headers) then [headers.value] + rows else rows;
      var widths := ColWidths(allRows);
      var head := if ShowsHeaders(headers) && !compact then
        var h := Join(" ", RowParts(headers.value, widths, false));
        [h, Repeat('-', |h|)]
      else [];
      head + seq(|rows|, k requires 0 <= k < |rows| => Join(" ", RowParts(rows[k], widths, compact)))
  }

  function Sum(ws: seq<nat>): nat {
    if ws == [] then 0 else ws[0] + Sum(ws[1..])
  }

  /** The length of a padded row that fills every column: the widths plus the blanks between. */
  lemma {:induction false} PaddedLength(parts: seq<string>, widths: seq<nat>)
    requires |parts| == |widths|
    requires forall i :: 0 <= i < |parts| ==> |parts[i]| == widths[i]
    ensures TotalLength(parts) == Sum(widths)
  {
    if parts != [] {
      PaddedLength(parts[1..], widths[1..]);
    }
  }

  /**
   * In the verbose form, every row that fills all the columns prints as a line of the
   * same length, and that is the length of the header line and its dashes.
   */
  lemma TableAligned(rows: seq<seq<string>>, headers: Option<seq<string>>, k: int)
    requires 0 <= k < |rows|
    requires var allRows := if ShowsHeaders(headers) then [headers.value] + rows else rows;
      |rows[k]| >= |allRows[0]| > 0
    ensures var allRows := if ShowsHeaders(headers) then [headers.value] + rows else rows;
      var widths := ColWidths(allRows);
      var r := FormatTable(rows, headers, false);
      var off := if ShowsHeaders(headers) then 2 else 0;
      |r[off + k]| == Sum(widths) + |widths| - 1 &&
      (ShowsHeaders(headers) ==> |r[0]| == Sum(widths) + |widths| - 1)
  {
    var allRows := if ShowsHeaders(headers) then [headers.value] + rows else rows;
    var widths := ColWidths(allRows);
    var kk := if ShowsHeaders(headers) then k + 1 else k;
    assert allRows[kk] == rows[k];
    TableLines(rows, headers, k);
    RowLength(allRows, widths, kk);
    if ShowsHeaders(headers) {
      RowLength(allRows, widths, 0);
    }
  }

  /** Where the verbose table puts each row, and its header line. */
  lemma TableLines(rows: seq<seq<string>>, headers: Option<seq<string>>, k: int)
    requires 0 <= k < |rows|
    ensures var allRows := if ShowsHeaders(headers) then [headers.value] + rows else rows;
      var widths := ColWidths(allRows);
      var r := FormatTable(rows, headers, false);
      var off := if ShowsHeaders(headers) then 2 else 0;
      r[off + k] == Join(" ", RowParts(rows[k], widths, false)) &&
      (ShowsHeaders(headers) ==> r[0] == Join(" ", RowParts(headers.value, widths, false)))
  {
    var allRows := if ShowsHeaders(headers) then [headers.value] + rows else rows;
    var widths := ColWidths(allRows);
    var body := seq(|rows|, j requires 0 <= j < |rows| => Join(" ", RowParts(rows[j], widths, false)));
    if ShowsHeaders(headers) {
      var h := Join(" ", RowParts(headers.value, widths, false));
      assert FormatTable(rows, headers, false) == [h, Repeat('-', |h|)] + body;
    } else {
      assert FormatTable(rows, headers, false) == body;
    }
  }

  /** A row of the table that has every column prints padded to the full width. */
  lemma RowLength(allRows: seq<seq<string>>, widths: seq<nat>, k: int)
    requires allRows != [] && widths == ColWidths(allRows) && |widths| > 0
    requires 0 <= k < |allRows| && |allRows[k]| >= |widths|
    ensures |Join(" ", RowParts(allRows[k], widths, false))| == Sum(widths) + |widths| - 1
  {
    var row := allRows[k];
    assert forall i :: 0 <= i < |widths| ==> |row[i]| <= widths[i];
    var parts := RowParts(row, widths, false);
    PaddedParts(row, widths);
    PaddedLength(parts, widths);
    JoinLength(" ", parts);
  }

  /** Padding cells no wider than their columns gives cells exactly as wide as the columns. */
  lemma PaddedParts(row: seq<string>, widths: seq<nat>)
    requires |row| >= |widths| && forall i :: 0 <= i < |widths| ==> |row[i]| <= widths[i]
    ensures var parts := RowParts(row, widths, false);
      |parts| == |widths| && forall i :: 0 <= i < |parts| ==> |parts[i]| == widths[i]
  {
  }
}
