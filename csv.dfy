/** The table editor's CSV reader: a character loop that toggles an in-quotes flag
    on every `"`, cuts a field at each comma met outside quotes and trims every
    field; and the split of a whole text into a header line and data lines.
    Doubled quotes are not an escape here: every quote character is dropped. */
module Csv {
  import opened Common
  import opened Text

  /** The loop's variables, with the finished fields kept as read (the loop pushes each one
      trimmed): the finished fields, the field being read, and the in-quotes flag. */
  datatype LineState = LineState(raw: seq<string>, current: string, inQuotes: bool)

  const Start := LineState([], "", false)

  /** One iteration of the loop over the characters of a line. */
  function Step(st: LineState, c: char): LineState {
    if c == '"' then st.(inQuotes := !st.inQuotes)
    else if c == ',' && !st.inQuotes then LineState(st.raw + [st.current], "", st.inQuotes)
    else st.(current := st.current + [c])
  }

  /** The loop's state after reading the first `n` characters of `s`. */
  function Scan(s: string, n: nat): LineState
    requires n <= |s|
  {
    if n == 0 then Start else Step(Scan(s, n - 1), s[n - 1])
  }

  /** The loop's state after reading all of `s`. */
  function Run(s: string): LineState {
    Scan(s, |s|)
  }

  /** The state after `n` characters depends on those characters only. */
  lemma {:induction false} ScanPrefix(s: string, t: string, n: nat)
    requires n <= |s| && n <= |t| && s[..n] == t[..n]
    ensures Scan(s, n) == Scan(t, n)
  {
    if n > 0 {
      assert s[n - 1] == s[..n][n - 1] && t[n - 1] == t[..n][n - 1];
      assert s[..n - 1] == s[..n][..n - 1] && t[..n - 1] == t[..n][..n - 1];
      ScanPrefix(s, t, n - 1);
    }
  }

  /** Reading one more character is one more loop step. */
  lemma RunSnoc(s: string, c: char)
    ensures Run(s + [c]) == Step(Run(s), c)
  {
    var t := s + [c];
    assert t[..|s|] == s[..|s|];
    ScanPrefix(t, s, |s|);
  }

  /** The state after a non-empty string is one step past the state after its prefix. */
  lemma RunLast(s: string)
    requires s != []
    ensures Run(s) == Step(Run(s[..|s| - 1]), s[|s| - 1])
  {
    RunSnoc(s[..|s| - 1], s[|s| - 1]);
    assert s[..|s| - 1] + [s[|s| - 1]] == s;
  }

  /** Every piece, trimmed. */
  function TrimAll(pieces: seq<string>): (r: seq<string>)
    ensures |r| == |pieces|
    ensures forall k :: 0 <= k < |pieces| ==> r[k] == Trim(pieces[k])
  {
    seq(|pieces|, k requires 0 <= k < |pieces| => Trim(pieces[k]))
  }

  /** What `parseCSVLine` returns: every field it cut, and the last one, trimmed. */
  function SplitLine(line: string): (r: seq<string>)
    ensures |r| >= 1
  {
    var st := Run(line);
    TrimAll(st.raw + [st.current])
  }

  /** `parseCSVLine(line)`. */
  method ParseLine(line: string) returns (fields: seq<string>)
    ensures fields == SplitLine(line)
    ensures |fields| == 1 + UnquotedCommas(line)
    ensures forall k :: 0 <= k < |fields| ==> Trimmed(fields[k]) && '"' !in fields[k]
  {
    var result: seq<string> := [];
    var current := "";
    var inQuotes := false;
    for i := 0 to |line|
      invariant result == TrimAll(Scan(line, i).raw)
      invariant current == Scan(line, i).current && inQuotes == Scan(line, i).inQuotes
    {
      var c := line[i];
      if c == '"' {
        inQuotes := !inQuotes;
      } else if c == ',' && !inQuotes {
        assert TrimAll(Scan(line, i).raw + [current]) == result + [Trim(current)];
        result := result + [Trim(current)];
        current := "";
      } else {
        current := current + [c];
      }
    }
    assert TrimAll(Run(line).raw + [current]) == result + [Trim(current)];
    fields := result + [Trim(current)];
    FieldCount(line);
    FieldsClean(line);
  }

  /** Whether `s` holds an odd number of quote characters. */
  predicate OddQuotes(s: string) {
    if s == [] then false else OddQuotes(s[..|s| - 1]) != (s[|s| - 1] == '"')
  }

  /** Commas of `s` preceded by an even number of quotes: the ones that cut a field. */
  function UnquotedCommas(s: string): nat {
    if s == [] then 0
    else var p := s[..|s| - 1];
      UnquotedCommas(p) + (if s[|s| - 1] == ',' && !OddQuotes(p) then 1 else 0)
  }

  /** The flag is the parity of the quotes read so far, and every unquoted comma has closed
      one field. */
  lemma {:induction false} RunCounts(s: string)
    ensures Run(s).inQuotes == OddQuotes(s)
    ensures |Run(s).raw| == UnquotedCommas(s)
  {
    if s != [] {
      RunLast(s);
      RunCounts(s[..|s| - 1]);
    }
  }

  /** A line yields one field more than it has commas outside quotes, so never zero fields. */
  lemma FieldCount(line: string)
    ensures |SplitLine(line)| == 1 + UnquotedCommas(line)
  {
    RunCounts(line);
  }

  /** A piece of a quote-free string is quote-free. */
  lemma InfixQuoteFree(s: string, i: nat, n: nat)
    requires i + n <= |s| && '"' !in s
    ensures '"' !in s[i..i + n]
  {
    var piece := s[i..i + n];
    forall k | 0 <= k < |piece| ensures piece[k] != '"' {
      assert piece[k] == s[i + k];
    }
  }

  /** A trimmed quote-free string is still quote-free. */
  lemma TrimQuoteFree(s: string)
    requires '"' !in s
    ensures '"' !in Trim(s)
  {
    var t := TrimStart(s);
    var r := TrimEnd(t);
    assert Trim(s) == r;
    assert t == s[|s| - |t|..|s|];
    InfixQuoteFree(s, |s| - |t|, |t|);
    assert r == t[0..|r|];
    InfixQuoteFree(t, 0, |r|);
  }

  /** No field read so far holds a quote character. */
  predicate QuoteFree(st: LineState) {
    (forall k :: 0 <= k < |st.raw| ==> '"' !in st.raw[k]) && '"' !in st.current
  }

  lemma StepQuoteFree(st: LineState, c: char)
    requires QuoteFree(st)
    ensures QuoteFree(Step(st, c))
  {
    if c == '"' {
    } else if c == ',' && !st.inQuotes {
      var r := st.raw + [st.current];
      assert forall k :: 0 <= k < |r| ==> r[k] == if k < |st.raw| then st.raw[k] else st.current;
    } else {
      assert st.current + [c] == (st.current + [c])[..|st.current|] + [c];
    }
  }

  lemma {:induction false} RunQuoteFree(s: string)
    ensures QuoteFree(Run(s))
  {
    if s != [] {
      RunLast(s);
      RunQuoteFree(s[..|s| - 1]);
      StepQuoteFree(Run(s[..|s| - 1]), s[|s| - 1]);
    }
  }

  /** Every field is trimmed and contains no quote character. */
  lemma FieldsClean(line: string)
    ensures forall k :: 0 <= k < |SplitLine(line)| ==> Trimmed(SplitLine(line)[k]) && '"' !in SplitLine(line)[k]
  {
    RunQuoteFree(line);
    var st := Run(line);
    var pieces := st.raw + [st.current];
    forall k | 0 <= k < |pieces| ensures '"' !in Trim(pieces[k]) {
      assert pieces[k] == if k < |st.raw| then st.raw[k] else st.current;
      TrimQuoteFree(pieces[k]);
    }
  }

  /** Reading text with no quote only extends the current field, provided its commas (if any)
      are read inside quotes. */
  lemma {:induction false} RunText(s: string, t: string)
    requires '"' !in t && (Run(s).inQuotes || ',' !in t)
    ensures Run(s + t) == Run(s).(current := Run(s).current + t)
  {
    if t == [] {
      assert s + t == s;
    } else {
      var t', c := t[..|t| - 1], t[|t| - 1];
      assert t == t' + [c];
      assert '"' !in t' && (Run(s).inQuotes || ',' !in t') by {
        forall k | 0 <= k < |t'| ensures t'[k] != '"' && (Run(s).inQuotes || t'[k] != ',') {
          assert t'[k] == t[k];
        }
      }
      RunText(s, t');
      assert s + t == (s + t') + [c];
      RunSnoc(s + t', c);
      assert Run(s).current + t == (Run(s).current + t') + [c];
    }
  }

  /** The first `n` fields joined with commas. */
  function JoinFirst(fields: seq<string>, n: nat): string
    requires 1 <= n <= |fields|
  {
    if n == 1 then fields[0] else JoinFirst(fields, n - 1) + "," + fields[n - 1]
  }

  /** `fields.join(",")`. */
  function Join(fields: seq<string>): string
    requires |fields| >= 1
  {
    JoinFirst(fields, |fields|)
  }

  /** A field the reader gives back unchanged. */
  predicate PlainField(f: string) {
    '"' !in f && ',' !in f && Trimmed(f)
  }

  /** A comma read outside quotes closes the current field. */
  lemma RunComma(s: string)
    requires !Run(s).inQuotes
    ensures Run(s + ",") == LineState(Run(s).raw + [Run(s).current], "", false)
  {
    RunSnoc(s, ',');
  }

  /** Reading the first `n` joined fields leaves the first `n - 1` finished and the `n`-th
      being read, outside quotes. */
  lemma {:induction false} RunJoin(fields: seq<string>, n: nat)
    requires 1 <= n <= |fields|
    requires forall k :: 0 <= k < |fields| ==> '"' !in fields[k] && ',' !in fields[k]
    ensures Run(JoinFirst(fields, n)) == LineState(fields[..n - 1], fields[n - 1], false)
  {
    if n == 1 {
      RunText("", fields[0]);
      assert "" + fields[0] == fields[0];
    } else {
      RunJoin(fields, n - 1);
      var prev := JoinFirst(fields, n - 1);
      RunComma(prev);
      assert fields[..n - 2] + [fields[n - 2]] == fields[..n - 1];
      var head := prev + ",";
      assert Run(head) == LineState(fields[..n - 1], "", false);
      RunText(head, fields[n - 1]);
      assert JoinFirst(fields, n) == head + fields[n - 1];
      assert "" + fields[n - 1] == fields[n - 1];
    }
  }

  /** Fields with no quote, no comma and no surrounding white space survive a join and
      re-parse unchanged. */
  lemma JoinRoundTrip(fields: seq<string>)
    requires |fields| >= 1
    requires forall k :: 0 <= k < |fields| ==> PlainField(fields[k])
    ensures SplitLine(Join(fields)) == fields
  {
    var n := |fields|;
    assert fields[..n - 1] + [fields[n - 1]] == fields;
    RunJoin(fields, n);
    TrimAllOfTrimmed(fields);
  }

  /** Trimming pieces that have nothing to trim changes nothing. */
  lemma TrimAllOfTrimmed(pieces: seq<string>)
    requires forall k :: 0 <= k < |pieces| ==> Trimmed(pieces[k])
    ensures TrimAll(pieces) == pieces
  {
    forall k | 0 <= k < |pieces| ensures Trim(pieces[k]) == pieces[k] {
      TrimIdentity(pieces[k]);
    }
  }

  /** A quoted piece without quote characters, read outside quotes, extends the current
      field by the piece, commas included, and leaves the reader outside quotes again. */
  lemma RunQuoted(s: string, q: string)
    requires !Run(s).inQuotes && '"' !in q
    ensures Run(s + ['"'] + q + ['"']) == Run(s).(current := Run(s).current + q)
  {
    RunSnoc(s, '"');
    RunText(s + ['"'], q);
    RunSnoc(s + ['"'] + q, '"');
  }

  /** Quotes only toggle the flag, so in `"a""b"` the doubled quote vanishes and the two
      pieces run together. */
  lemma DoubledQuoteDropped(a: string, b: string)
    requires '"' !in a && '"' !in b
    ensures SplitLine(['"'] + a + ['"', '"'] + b + ['"']) == [Trim(a + b)]
  {
    var first := ['"'] + a + ['"'];
    RunQuoted([], a);
    assert [] + ['"'] + a + ['"'] == first && "" + a == a;
    RunQuoted(first, b);
    assert first + ['"'] + b + ['"'] == ['"'] + a + ['"', '"'] + b + ['"'];
    assert [] + [a + b] == [a + b];
  }

  /** A comma between quotes stays inside its field; the comma after the closing quote cuts. */
  lemma QuotedCommaKept(q: string, c: string)
    requires '"' !in q && '"' !in c && ',' !in c
    ensures var r := SplitLine(['"'] + q + ['"', ','] + c); |r| == 2 && r[0] == Trim(q) && r[1] == Trim(c)
  {
    var first := ['"'] + q + ['"'];
    var head := first + ",";
    var line := head + c;
    assert Run([]) == Start;
    RunQuoted([], q);
    assert [] + ['"'] + q + ['"'] == first;
    assert Run(first) == LineState([], q, false);
    RunComma(first);
    assert Run(head) == LineState([q], "", false);
    RunText(head, c);
    assert Run(line) == LineState([q], c, false);
    assert line == ['"'] + q + ['"', ','] + c;
    assert [q] + [c] == [q, c];
  }

  // ---------------------------------------------------------------------------
  // Whole texts

  /** `s.split(sep)` for a one-character separator: at least one piece, none holding the
      separator, and joining them back gives `s`. */
  function SplitOn(s: string, sep: char): (r: seq<string>)
    ensures |r| >= 1
    ensures forall k :: 0 <= k < |r| ==> sep !in r[k]
    ensures JoinWith(r, sep) == s
  {
    if s == [] then [""]
    else
      var t := SplitOn(s[1..], sep);
      if s[0] == sep then
        assert JoinWith([""] + t, sep) == "" + [sep] + JoinWith(t, sep);
        [""] + t
      else
        var r := [[s[0]] + t[0]] + t[1..];
        assert sep !in [s[0]] + t[0] by {
          assert forall k :: 0 <= k < |t[0]| ==> ([s[0]] + t[0])[k + 1] == t[0][k];
        }
        assert r[0] == [s[0]] + t[0] && r[1..] == t[1..];
        assert JoinWith(r, sep) == [s[0]] + JoinWith(t, sep);
        assert s == [s[0]] + s[1..];
        r
  }

  /** `pieces.join(sep)`. */
  function JoinWith(pieces: seq<string>, sep: char): string
    requires |pieces| >= 1
  {
    if |pieces| == 1 then pieces[0] else pieces[0] + [sep] + JoinWith(pieces[1..], sep)
  }

  datatype Parsed = Parsed(headers: seq<string>, rows: seq<seq<string>>)

  /** The lines `parseCSV` works on: the trimmed text, split at each newline. */
  function Lines(text: string): seq<string> {
    SplitOn(Trim(text), '\n')
  }

  /** `parseCSV(text)`: the first line gives the headers, every later line a row in order.
      The split never returns an empty list, so the headers are never empty. */
  function ParseText(text: string): (p: Parsed)
    ensures |p.headers| >= 1
    ensures p.headers == SplitLine(Lines(text)[0])
    ensures |p.rows| == |Lines(text)| - 1
    ensures forall k :: 0 <= k < |p.rows| ==> p.rows[k] == SplitLine(Lines(text)[k + 1])
  {
    var lines := Lines(text);
    FieldCount(lines[0]);
    Parsed(SplitLine(lines[0]), seq(|lines| - 1, k requires 0 <= k < |lines| - 1 => SplitLine(lines[k + 1])))
  }

  /** Splitting at a character the string does not hold gives the string itself. */
  lemma {:induction false} SplitOnAbsent(s: string, sep: char)
    requires sep !in s
    ensures SplitOn(s, sep) == [s]
  {
    if s != [] {
      assert sep !in s[1..] by {
        forall k | 0 <= k < |s| - 1 ensures s[1..][k] != sep { assert s[1..][k] == s[k + 1]; }
      }
      SplitOnAbsent(s[1..], sep);
      assert [s[0]] + s[1..] == s;
    }
  }

  /** A text with no newline after trimming is a header line and no data rows. */
  lemma SingleLineHasNoRows(text: string)
    requires '\n' !in Trim(text)
    ensures ParseText(text).rows == []
    ensures ParseText(text).headers == SplitLine(Trim(text))
  {
    SplitOnAbsent(Trim(text), '\n');
  }
}
