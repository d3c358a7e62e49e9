/** The table editor of the table modal: a header row and a grid of string cells that the
    user edits cell by cell, grows and shrinks by whole rows and columns, or replaces by
    uploading CSV text; plus the list of conditional-formatting rules and the draft rule
    the form is filling in. */
module TableEditor {
  import opened Common
  import opened Text
  import opened Csv
  import opened Formatting

  // ---------------------------------------------------------------------------
  // The grid

  /** Every row has exactly one cell per header. */
  predicate Rectangular(headers: seq<string>, rows: seq<seq<string>>) {
    forall i :: 0 <= i < |rows| ==> |rows[i]| == |headers|
  }

  /** `new Array(n).fill('')`. */
  function Blank(n: nat): (r: seq<string>)
    ensures |r| == n
    ensures forall k :: 0 <= k < n ==> r[k] == ""
  {
    seq(n, k => "")
  }

  const DefaultHeaders: seq<string> := ["Column 1", "Column 2", "Column 3"]
  const DefaultRows: seq<seq<string>> := [["Data 1", "Data 2", "Data 3"], ["Data 4", "Data 5", "Data 6"]]

  lemma DefaultGridIsRectangular()
    ensures Rectangular(DefaultHeaders, DefaultRows)
  {
  }

  /** `newRows[rowIndex][colIndex] = value`: exactly that one cell changes. */
  function SetCell(rows: seq<seq<string>>, r: nat, c: nat, value: string): (g: seq<seq<string>>)
    requires r < |rows| && c < |rows[r]|
    ensures |g| == |rows|
    ensures forall i :: 0 <= i < |g| ==> |g[i]| == |rows[i]|
    ensures g[r][c] == value
    ensures forall i, j :: 0 <= i < |g| && 0 <= j < |g[i]| && (i, j) != (r, c) ==> g[i][j] == rows[i][j]
  {
    rows[r := rows[r][c := value]]
  }

  /** The name `addColumn` gives the new header: `Column {n+1}` for `n` existing headers. */
  function NextColumnName(headers: seq<string>): string {
    "Column " + NatToString(|headers| + 1)
  }

  /** `rows.map(row => [...row, ''])`: each row gains one empty trailing cell and keeps the
      cells it had. */
  function WithEmptyColumn(rows: seq<seq<string>>): (g: seq<seq<string>>)
    ensures |g| == |rows|
    ensures forall i :: 0 <= i < |g| ==> |g[i]| == |rows[i]| + 1 && g[i][..|rows[i]|] == rows[i] && g[i][|rows[i]|] == ""
  {
    seq(|rows|, i requires 0 <= i < |rows| => rows[i] + [""])
  }

  /** `rows.map(row => row.filter((_, i) => i !== index))`: the cell at `index` leaves every
      row that has one; shorter rows are kept as they are. */
  function WithoutColumn(rows: seq<seq<string>>, index: int): (g: seq<seq<string>>)
    ensures |g| == |rows|
    ensures forall i :: 0 <= i < |g| && 0 <= index < |rows[i]| ==> |g[i]| == |rows[i]| - 1
    ensures forall i :: 0 <= i < |g| && !(0 <= index < |rows[i]|) ==> g[i] == rows[i]
    ensures forall i, j :: 0 <= i < |g| && 0 <= index < |rows[i]| && 0 <= j < |g[i]| ==>
              g[i][j] == if j < index then rows[i][j] else rows[i][j + 1]
  {
    seq(|rows|, i requires 0 <= i < |rows| => RemoveAt(rows[i], index))
  }

  /** The headers and rows after `removeColumn(index)`: with a single header left the grid is
      unchanged, otherwise the column leaves the headers and every row. */
  function RemovedColumn(headers: seq<string>, rows: seq<seq<string>>, index: int): (t: (seq<string>, seq<seq<string>>))
    ensures |headers| <= 1 ==> t == (headers, rows)
    ensures |headers| > 1 ==> t == (RemoveAt(headers, index), WithoutColumn(rows, index))
  {
    if |headers| <= 1 then (headers, rows) else (RemoveAt(headers, index), WithoutColumn(rows, index))
  }

  /** `removeRow(index)`: a single remaining row is kept, otherwise exactly that row leaves
      and the rows after it move up by one; an index outside the rows removes nothing. */
  function RemovedRow(rows: seq<seq<string>>, index: int): (g: seq<seq<string>>)
    ensures |rows| <= 1 ==> g == rows
    ensures |rows| > 1 && 0 <= index < |rows| ==> |g| == |rows| - 1
    ensures |rows| > 1 && 0 <= index < |rows| ==>
              forall k :: 0 <= k < |g| ==> g[k] == if k < index then rows[k] else rows[k + 1]
    ensures !(0 <= index < |rows|) ==> g == rows
    ensures forall i :: 0 <= i < |g| ==> g[i] in rows
  {
    if |rows| <= 1 then rows else RemoveAt(rows, index)
  }

  /** Editing one header or one cell keeps the grid rectangular. */
  lemma EditsKeepRectangular(headers: seq<string>, rows: seq<seq<string>>, r: nat, c: nat, value: string)
    requires Rectangular(headers, rows)
    ensures c < |headers| ==> Rectangular(headers[c := value], rows)
    ensures r < |rows| && c < |rows[r]| ==> Rectangular(headers, SetCell(rows, r, c, value))
  {
  }

  /** `addColumn` keeps the grid rectangular: the new header and the new cells arrive together. */
  lemma AddColumnKeepsRectangular(headers: seq<string>, rows: seq<seq<string>>)
    requires Rectangular(headers, rows)
    ensures Rectangular(headers + [NextColumnName(headers)], WithEmptyColumn(rows))
  {
  }

  /** `removeColumn` keeps the grid rectangular, whatever the index. */
  lemma RemoveColumnKeepsRectangular(headers: seq<string>, rows: seq<seq<string>>, index: int)
    requires Rectangular(headers, rows)
    ensures Rectangular(RemovedColumn(headers, rows, index).0, RemovedColumn(headers, rows, index).1)
  {
  }

  /** `addRow` appends a row as wide as the headers, so the grid stays rectangular. */
  lemma AddRowKeepsRectangular(headers: seq<string>, rows: seq<seq<string>>)
    requires Rectangular(headers, rows)
    ensures Rectangular(headers, rows + [Blank(|headers|)])
  {
  }

  /** `removeRow` keeps the grid rectangular. */
  lemma RemoveRowKeepsRectangular(headers: seq<string>, rows: seq<seq<string>>, index: int)
    requires Rectangular(headers, rows)
    ensures Rectangular(headers, RemovedRow(rows, index))
  {
  }

  /** On a rectangular grid with at least one header, removing the column that `addColumn` just
      appended gives back the grid it started from. (On a ragged grid the last header's index can fall inside a longer
      row, and a different cell goes.) */
  lemma AddColumnThenRemoveIt(headers: seq<string>, rows: seq<seq<string>>)
    requires |headers| >= 1 && Rectangular(headers, rows)
    ensures RemovedColumn(headers + [NextColumnName(headers)], WithEmptyColumn(rows), |headers|) == (headers, rows)
  {
    var wider := headers + [NextColumnName(headers)];
    var added := WithEmptyColumn(rows);
    var back := WithoutColumn(added, |headers|);
    assert wider[..|headers|] == headers;
    assert RemoveAt(wider, |headers|) == headers;
    forall i | 0 <= i < |rows| ensures back[i] == rows[i] {
      assert |added[i]| == |rows[i]| + 1;
      assert back[i] == RemoveAt(added[i], |headers|);
      assert added[i][..|rows[i]|] == rows[i];
      assert added[i][|rows[i]| + 1..] == [];
    }
    assert back == rows;
  }

  /** Removing the row that `addRow` just appended gives back the rows it started from, as long
      as there was at least one row before (a lone row is never removed). */
  lemma AddRowThenRemoveIt(headers: seq<string>, rows: seq<seq<string>>)
    requires |rows| >= 1
    ensures RemovedRow(rows + [Blank(|headers|)], |rows|) == rows
  {
    assert (rows + [Blank(|headers|)])[..|rows|] == rows;
  }

  // ---------------------------------------------------------------------------
  // CSV upload

  /** `setRows(csvRows.length > 0 ? csvRows : [new Array(csvHeaders.length).fill('')])`: a file
      with no data lines leaves one empty row as wide as its header line. */
  function UploadedRows(p: Parsed): (g: seq<seq<string>>)
    ensures |g| >= 1
    ensures p.rows != [] ==> g == p.rows
    ensures p.rows == [] ==> Rectangular(p.headers, g) && forall j :: 0 <= j < |g[0]| ==> g[0][j] == ""
  {
    if |p.rows| > 0 then p.rows else [Blank(|p.headers|)]
  }

  /** A CSV text whose lines all have as many unquoted commas as its header line uploads as a
      rectangular grid. */
  lemma UniformUploadIsRectangular(text: string)
    requires forall k :: 0 <= k < |Lines(text)| ==> UnquotedCommas(Lines(text)[k]) == UnquotedCommas(Lines(text)[0])
    ensures Rectangular(ParseText(text).headers, UploadedRows(ParseText(text)))
  {
    var lines, p := Lines(text), ParseText(text);
    FieldCount(lines[0]);
    forall k | 0 <= k < |p.rows| ensures |p.rows[k]| == |p.headers| {
      FieldCount(lines[k + 1]);
    }
  }

  /** A text of a single line (after trimming) uploads as its header fields over one empty row. */
  lemma HeaderOnlyUpload(text: string)
    requires '\n' !in Trim(text)
    ensures ParseText(text).headers == SplitLine(Trim(text))
    ensures UploadedRows(ParseText(text)) == [Blank(|SplitLine(Trim(text))|)]
  {
    SingleLineHasNoRows(text);
  }

  /** Index of the first occurrence of `needle` in `hay` at or after `from`. */
  function FirstOccurrence(hay: string, needle: string, from: nat): (r: Option<nat>)
    requires from <= |hay|
    ensures r.Some? ==> from <= r.value && OccursAt(hay, needle, r.value)
    ensures forall k :: from <= k && (r.None? || k < r.value) ==> !OccursAt(hay, needle, k)
    decreases |hay| - from
  {
    if OccursAt(hay, needle, from) then Some(from)
    else if from == |hay| then None
    else FirstOccurrence(hay, needle, from + 1)
  }

  /** `fileName.replace('.csv', '')`: only the first `.csv` goes, and case matters. */
  function StripCsv(fileName: string): (r: string)
    ensures FirstOccurrence(fileName, ".csv", 0).None? ==> r == fileName
    ensures FirstOccurrence(fileName, ".csv", 0).Some? ==>
      var i := FirstOccurrence(fileName, ".csv", 0).value;
      i <= |r| && fileName == r[..i] + ".csv" + r[i..]
  {
    match FirstOccurrence(fileName, ".csv", 0)
    case None => fileName
    case Some(i) =>
      var r := fileName[..i] + fileName[i + 4..];
      assert r[..i] == fileName[..i] && r[i..] == fileName[i + 4..];
      assert fileName == fileName[..i] + fileName[i..i + 4] + fileName[i + 4..];
      r
  }

  /** A file called `name.csv`, where `name` holds no dot, gives the title `name`. */
  lemma StripCsvOfPlainName(name: string)
    requires '.' !in name
    ensures StripCsv(name + ".csv") == name
  {
    var f := name + ".csv";
    assert OccursAt(f, ".csv", |name|) by { assert f[|name|..|name| + 4] == ".csv"; }
    forall k | 0 <= k < |name| ensures !OccursAt(f, ".csv", k) {
      assert f[k] == name[k] && name[k] != '.';
      assert k + 4 <= |f| ==> f[k..k + 4][0] == f[k];
    }
    var i := FirstOccurrence(f, ".csv", 0).value;
    assert i == |name|;
    assert f[..i] == name && f[i + 4..] == [];
  }

  /** `file.name.toLowerCase().endsWith('.csv')`: the type check ignores case. */
  predicate IsCsvName(fileName: string) {
    var lower := ToLower(fileName);
    |lower| >= 4 && lower[|lower| - 4..] == ".csv"
  }

  /** The type check ignores case but the title's extension removal does not: a file called
      `name.CSV` is accepted and keeps its extension in the title. */
  lemma UpperCaseExtensionKept(name: string)
    requires '.' !in name
    ensures IsCsvName(name + ".CSV")
    ensures StripCsv(name + ".CSV") == name + ".CSV"
  {
    var f := name + ".CSV";
    var lower := ToLower(f);
    assert lower[|lower| - 4..] == ".csv" by {
      assert f[|f| - 4..] == ".CSV";
      forall k | 0 <= k < 4 ensures lower[|lower| - 4..][k] == ".csv"[k] {
        assert lower[|f| - 4 + k] == LowerChar(f[|f| - 4 + k]);
      }
    }
    forall k | 0 <= k <= |f| ensures !OccursAt(f, ".csv", k) {
      if k + 4 <= |f| {
        assert f[k..k + 4][0] == f[k] && f[k..k + 4][1] == f[k + 1];
        if k < |name| {
          assert f[k] == name[k] && name[k] != '.';
        } else {
          assert f[k + 1] == 'C';
        }
      }
    }
    assert FirstOccurrence(f, ".csv", 0).None?;
  }

  /** The toast of a successful upload; the row count is that of the data lines, so a header-only
      file reports zero rows although the fallback row is shown. */
  function UploadToast(p: Parsed): Toast {
    Toast("File uploaded successfully",
          "Loaded " + NatToString(|p.headers|) + " columns and " + NatToString(|p.rows|) + " rows.", false)
  }

  // ---------------------------------------------------------------------------
  // Conditional rules

  /** The rule form's partial rule: every field may be unset. */
  datatype Draft = Draft(
    condition: Option<Condition>,
    columnIndex: Option<int>,
    value: Option<string>,
    value2: Option<string>,
    backgroundColor: Option<string>,
    textColor: Option<string>,
    fontWeight: Option<FontWeight>)

  /** The draft the form starts from and returns to after each added rule. */
  const DefaultDraft := Draft(Some(Greater), Some(0), None, None, Some("#fef3c7"), Some("#92400e"), Some(Normal))

  /** `newRule.condition || 'greater'`: an unset (or empty-named) condition is `greater`. */
  function ConditionOrGreater(c: Option<Condition>): (r: Condition)
    ensures c.Some? && c.value != Other("") ==> r == c.value
    ensures c.None? || c.value == Other("") ==> r == Greater
  {
    if c.None? || c.value == Other("") then Greater else c.value
  }

  /** The rule `addConditionalRule` builds from the draft under the id `id`, or `None` when the
      draft has no value or no column. */
  function DraftRule(d: Draft, id: string): (r: Option<Rule>)
    ensures r.Some? <==> Truthy(d.value) && d.columnIndex.Some?
    ensures r.Some? ==> r.value.id == id && r.value.columnIndex == d.columnIndex.value
                        && r.value.value == d.value.value && r.value.value2 == d.value2
                        && r.value.condition == ConditionOrGreater(d.condition)
                        && r.value.backgroundColor == d.backgroundColor && r.value.textColor == d.textColor
                        && r.value.fontWeight == Some(d.fontWeight.GetOr(Normal))
  {
    if !Truthy(d.value) || d.columnIndex.None? then None
    else Some(Rule(id, d.columnIndex.value, ConditionOrGreater(d.condition), d.value.value, d.value2,
                   d.backgroundColor, d.textColor, Some(d.fontWeight.GetOr(Normal))))
  }

  /** Column 0 is a column like any other: only an unset column blocks a rule. */
  lemma FirstColumnAccepted(d: Draft, id: string)
    requires d.columnIndex == Some(0) && Truthy(d.value)
    ensures DraftRule(d, id).Some? && DraftRule(d, id).value.columnIndex == 0
  {
  }

  /** Rules added at different times get different ids. */
  lemma RuleIdsDistinct(d1: Draft, d2: Draft, t1: nat, t2: nat)
    requires t1 != t2 && DraftRule(d1, NatToString(t1)).Some? && DraftRule(d2, NatToString(t2)).Some?
    ensures DraftRule(d1, NatToString(t1)).value.id != DraftRule(d2, NatToString(t2)).value.id
  {
    if NatToString(t1) == NatToString(t2) {
      NatToStringInjective(t1, t2);
    }
  }

  function RuleOtherThan(id: string): Rule -> bool {
    (rule: Rule) => rule.id != id
  }

  /** `rules.filter(rule => rule.id !== ruleId)`: exactly the rules with that id go, the others
      stay in order. */
  function WithoutRule(rules: seq<Rule>, id: string): (r: seq<Rule>)
    ensures forall k :: 0 <= k < |r| ==> r[k].id != id && r[k] in rules
    ensures forall k :: 0 <= k < |rules| && rules[k].id != id ==> rules[k] in r
  {
    Filter(rules, RuleOtherThan(id))
  }

  /** Removal keeps the surviving rules in their original order, which decides the first
      matching rule of a cell. */
  lemma WithoutRuleAppend(a: seq<Rule>, b: seq<Rule>, id: string)
    ensures WithoutRule(a + b, id) == WithoutRule(a, id) + WithoutRule(b, id)
  {
    FilterAppend(a, b, RuleOtherThan(id));
  }

  /** Removing a freshly added rule by its id gives back the rules before it, provided no
      older rule shares that id. */
  lemma AddRuleThenRemoveIt(rules: seq<Rule>, rule: Rule)
    requires forall k :: 0 <= k < |rules| ==> rules[k].id != rule.id
    ensures WithoutRule(rules + [rule], rule.id) == rules
  {
    FilterAppend(rules, [rule], RuleOtherThan(rule.id));
    assert Filter([rule], RuleOtherThan(rule.id)) == [];
  }

  // ---------------------------------------------------------------------------
  // The editor's state

  class TableEditor {
    var title: string
    var headers: seq<string>
    var rows: seq<seq<string>>
    var rules: seq<Rule>
    var draft: Draft

    /** A new, empty modal: the three default columns over two rows of sample data. */
    constructor()
      ensures title == "" && headers == DefaultHeaders && rows == DefaultRows
      ensures rules == [] && draft == DefaultDraft
    {
      title := "";
      headers := DefaultHeaders;
      rows := DefaultRows;
      rules := [];
      draft := DefaultDraft;
    }

    /** `updateHeader(index, value)`. */
    method UpdateHeader(index: nat, value: string)
      requires index < |headers|
      modifies this
      ensures headers == old(headers)[index := value]
      ensures title == old(title) && rows == old(rows) && rules == old(rules) && draft == old(draft)
    {
      headers := headers[index := value];
    }

    /** `updateCell(rowIndex, colIndex, value)`. */
    method UpdateCell(rowIndex: nat, colIndex: nat, value: string)
      requires rowIndex < |rows| && colIndex < |rows[rowIndex]|
      modifies this
      ensures rows == SetCell(old(rows), rowIndex, colIndex, value)
      ensures title == old(title) && headers == old(headers) && rules == old(rules) && draft == old(draft)
    {
      rows := SetCell(rows, rowIndex, colIndex, value);
    }

    /** `addColumn()`. */
    method AddColumn()
      modifies this
      ensures headers == old(headers) + [NextColumnName(old(headers))]
      ensures rows == WithEmptyColumn(old(rows))
      ensures title == old(title) && rules == old(rules) && draft == old(draft)
    {
      rows := WithEmptyColumn(rows);
      headers := headers + [NextColumnName(headers)];
    }

    /** `removeColumn(index)`. */
    method RemoveColumn(index: int)
      modifies this
      ensures (headers, rows) == RemovedColumn(old(headers), old(rows), index)
      ensures title == old(title) && rules == old(rules) && draft == old(draft)
    {
      if |headers| <= 1 {
        return;
      }
      headers := RemoveAt(headers, index);
      rows := WithoutColumn(rows, index);
    }

    /** `addRow()`. */
    method AddRow()
      modifies this
      ensures rows == old(rows) + [Blank(|old(headers)|)]
      ensures title == old(title) && headers == old(headers) && rules == old(rules) && draft == old(draft)
    {
      rows := rows + [Blank(|headers|)];
    }

    /** `removeRow(index)`. */
    method RemoveRow(index: int)
      modifies this
      ensures rows == RemovedRow(old(rows), index)
      ensures title == old(title) && headers == old(headers) && rules == old(rules) && draft == old(draft)
    {
      if |rows| <= 1 {
        return;
      }
      rows := RemoveAt(rows, index);
    }

    /** The `reader.onload` step of `handleFileUpload` for the text `text` of a file called
        `fileName`: the parsed headers and rows replace the grid, an empty title is taken from the
        file name, and the success toast reports the parsed sizes. */
    method LoadCsv(text: string, fileName: string) returns (toast: Toast)
      modifies this
      ensures headers == ParseText(text).headers
      ensures rows == UploadedRows(ParseText(text))
      ensures title == if Trim(old(title)) == "" then StripCsv(fileName) else old(title)
      ensures rules == old(rules) && draft == old(draft)
      ensures toast == UploadToast(ParseText(text))
    {
      var parsed := ParseText(text);
      var newTitle := if Trim(title) == "" then StripCsv(fileName) else title;
      headers, rows, title, toast := parsed.headers, UploadedRows(parsed), newTitle, UploadToast(parsed);
    }

    /** `handleFileUpload` for a chosen file: a name without the `.csv` ending (in any case) is
        refused with a toast and changes nothing; any other file is read and loaded. */
    method Upload(fileName: string, text: string) returns (toast: Toast)
      modifies this
      ensures !IsCsvName(fileName) ==>
        toast == Toast("Invalid file type", "Please select a CSV file.", true)
        && title == old(title) && headers == old(headers) && rows == old(rows)
      ensures IsCsvName(fileName) ==>
        headers == ParseText(text).headers && rows == UploadedRows(ParseText(text))
        && title == (if Trim(old(title)) == "" then StripCsv(fileName) else old(title))
        && toast == UploadToast(ParseText(text))
      ensures rules == old(rules) && draft == old(draft)
    {
      if !IsCsvName(fileName) {
        return Toast("Invalid file type", "Please select a CSV file.", true);
      }
      toast := LoadCsv(text, fileName);
    }

    /** `setNewRule(...)`: the form replaces the draft. */
    method EditDraft(d: Draft)
      modifies this
      ensures draft == d
      ensures title == old(title) && headers == old(headers) && rows == old(rows) && rules == old(rules)
    {
      draft := d;
    }

    /** `addConditionalRule()`, with `Date.now()` passed in as `stamp`: a draft with a value and a
        column becomes a rule at the end of the list and the draft is reset; otherwise nothing
        changes. */
    method AddConditionalRule(stamp: nat)
      modifies this
      ensures DraftRule(old(draft), NatToString(stamp)).Some? ==>
        rules == old(rules) + [DraftRule(old(draft), NatToString(stamp)).value] && draft == DefaultDraft
      ensures DraftRule(old(draft), NatToString(stamp)).None? ==> rules == old(rules) && draft == old(draft)
      ensures title == old(title) && headers == old(headers) && rows == old(rows)
    {
      var rule := DraftRule(draft, NatToString(stamp));
      if rule.None? {
        return;
      }
      rules := rules + [rule.value];
      draft := DefaultDraft;
    }

    /** `removeConditionalRule(ruleId)`. */
    method RemoveConditionalRule(ruleId: string)
      modifies this
      ensures rules == WithoutRule(old(rules), ruleId)
      ensures title == old(title) && headers == old(headers) && rows == old(rows) && draft == old(draft)
    {
      rules := WithoutRule(rules, ruleId);
    }
  }
}
