/** The text of an append-only log (evals/education_memory_counterfactual/reader.py: _append,
    _read_jsonl).  Rows are written one per line, but read back with a line splitter that also
    breaks at separators the JSON encoder leaves raw inside strings. */
module JsonLines {

  /** Every character at which `str.splitlines` ends a line. */
  predicate IsBreak(c: char) {
    c == '\n' || c == '\r' || c == '\U{0B}' || c == '\U{0C}' || c == '\U{1C}' || c == '\U{1D}' || c == '\U{1E}'
    || c == '\U{85}' || c == '\U{2028}' || c == '\U{2029}'
  }

  predicate IsSpace(c: char) {
    IsBreak(c) || c == '\t' || c == ' ' || c == '\U{1F}' || c == '\U{A0}' || c == '\U{1680}'
    || '\U{2000}' <= c <= '\U{200A}' || c == '\U{202F}' || c == '\U{205F}' || c == '\U{3000}'
  }

  predicate Blank(line: string) {
    forall i :: 0 <= i < |line| ==> IsSpace(line[i])
  }

  predicate OneLine(row: string) {
    forall i :: 0 <= i < |row| ==> !IsBreak(row[i])
  }

  /** The position of the first break, or the length of the text. */
  function LineEnd(text: string): (n: nat)
    ensures n <= |text| && OneLine(text[..n])
    ensures n < |text| ==> IsBreak(text[n])
  {
    if text == [] || IsBreak(text[0]) then 0
    else
      var n := 1 + LineEnd(text[1..]);
      assert text[..n] == [text[0]] + text[1..][..n - 1];
      n
  }

  /** str.splitlines: a carriage return and the line feed after it break once. */
  function SplitLines(text: string): (lines: seq<string>)
    ensures forall i :: 0 <= i < |lines| ==> OneLine(lines[i])
    decreases |text|
  {
    if text == [] then []
    else
      var n := LineEnd(text);
      if n == |text| then [text]
      else
        var skip := if text[n] == '\r' && n + 1 < |text| && text[n + 1] == '\n' then 2 else 1;
        [text[..n]] + SplitLines(text[n + skip..])
  }

  function NonBlank(lines: seq<string>): (kept: seq<string>)
    ensures forall i :: 0 <= i < |kept| ==> kept[i] in lines && !Blank(kept[i])
  {
    if lines == [] then []
    else if Blank(lines[0]) then NonBlank(lines[1..])
    else [lines[0]] + NonBlank(lines[1..])
  }

  /** The texts handed to the JSON decoder. */
  function ReadRows(text: string): seq<string> {
    NonBlank(SplitLines(text))
  }

  /** The text left by appending these rows in turn. */
  function WriteRows(rows: seq<string>): string {
    if rows == [] then "" else rows[0] + "\n" + WriteRows(rows[1..])
  }

  /** The encoding of an object starts with a brace. */
  predicate Encoded(row: string) {
    row != [] && row[0] == '{'
  }

  lemma {:induction false} LineEndOf(line: string, rest: string)
    requires OneLine(line)
    ensures LineEnd(line + "\n" + rest) == |line| && LineEnd(line) == |line|
  {
    if line == [] {
      assert (line + "\n" + rest)[0] == '\n';
    } else {
      LineEndOf(line[1..], rest);
      assert (line + "\n" + rest)[1..] == line[1..] + "\n" + rest;
      assert (line + "\n" + rest)[0] == line[0];
    }
  }

  lemma Associates<T>(a: seq<T>, b: seq<T>, c: seq<T>)
    ensures a + b + c == a + (b + c)
  {
  }

  lemma FirstRowReads(row: string, rest: string)
    requires Encoded(row) && OneLine(row)
    ensures ReadRows(row + "\n" + rest) == [row] + ReadRows(rest)
    ensures ReadRows(row) == [row]
  {
    var text := row + "\n" + rest;
    LineEndOf(row, rest);
    assert text[|row|] == '\n' && text[..|row|] == row && text[|row| + 1..] == rest;
    assert SplitLines(text) == [row] + SplitLines(rest);
    assert !Blank(row);
    assert NonBlank([row]) == [row] + NonBlank([row][1..]);
  }

  /** Rows of one line each come back, whatever follows them. */
  lemma {:induction false} CleanRowsReadBack(rows: seq<string>, tail: string)
    requires forall i :: 0 <= i < |rows| ==> Encoded(rows[i]) && OneLine(rows[i])
    ensures ReadRows(WriteRows(rows) + tail) == rows + ReadRows(tail)
  {
    if rows == [] {
      assert WriteRows(rows) + tail == tail;
    } else {
      var row, others := rows[0], rows[1..];
      calc {
        ReadRows(WriteRows(rows) + tail);
        { Associates(row + "\n", WriteRows(others), tail); }
        ReadRows(row + "\n" + (WriteRows(others) + tail));
        { FirstRowReads(row, WriteRows(others) + tail); }
        [row] + ReadRows(WriteRows(others) + tail);
        { CleanRowsReadBack(others, tail); }
        [row] + (others + ReadRows(tail));
        { Associates([row], others, ReadRows(tail)); }
        rows + ReadRows(tail);
      }
    }
  }

  lemma ReadRowsAreOneLine(text: string)
    ensures forall i :: 0 <= i < |ReadRows(text)| ==> OneLine(ReadRows(text)[i])
  {
    forall i | 0 <= i < |ReadRows(text)|
      ensures OneLine(ReadRows(text)[i])
    {
      assert ReadRows(text)[i] in SplitLines(text);
    }
  }

  /** A log reads back as written exactly when no row holds a raw separator. */
  lemma {:induction false} RowsReadBackIffOneLineEach(rows: seq<string>)
    requires forall i :: 0 <= i < |rows| ==> Encoded(rows[i])
    ensures ReadRows(WriteRows(rows)) == rows <==> forall i :: 0 <= i < |rows| ==> OneLine(rows[i])
  {
    if forall i :: 0 <= i < |rows| ==> OneLine(rows[i]) {
      CleanRowsReadBack(rows, "");
      assert WriteRows(rows) + "" == WriteRows(rows);
    } else {
      ReadRowsAreOneLine(WriteRows(rows));
    }
  }

  /** It does go wrong: section 7 of RFC 8259 lets a string hold U+2028 unescaped, and one such
      row no longer reads back. */
  lemma LineSeparatorBreaksTheLog()
    ensures
      var row := "{\"a\":\"\U{2028}\"}";
      Encoded(row) && ReadRows(WriteRows([row])) != [row]
  {
    var row := "{\"a\":\"\U{2028}\"}";
    assert IsBreak(row[6]);
    RowsReadBackIffOneLineEach([row]);
  }

  /** A row whose line end a crash cut off still reads back while it is the last one. */
  lemma UnfinishedRowReads(rows: seq<string>, last: string)
    requires forall i :: 0 <= i < |rows| ==> Encoded(rows[i]) && OneLine(rows[i])
    requires Encoded(last) && OneLine(last)
    ensures ReadRows(WriteRows(rows) + last) == rows + [last]
  {
    CleanRowsReadBack(rows, last);
    FirstRowReads(last, "");
  }

  lemma OneLineRowReads(row: string)
    requires Encoded(row) && OneLine(row)
    ensures ReadRows(row + "\n") == [row]
  {
    FirstRowReads(row, "");
    assert row + "\n" + "" == row + "\n";
    assert [row] + ReadRows("") == [row];
  }

  /** The next append continues that line, and the two rows come back as one text. */
  lemma NextAppendContinuesAnUnfinishedRow(rows: seq<string>, last: string, next: string)
    requires forall i :: 0 <= i < |rows| ==> Encoded(rows[i]) && OneLine(rows[i])
    requires Encoded(last) && OneLine(last) && OneLine(next)
    ensures ReadRows(WriteRows(rows) + last + (next + "\n")) == rows + [last + next]
  {
    calc {
      ReadRows(WriteRows(rows) + last + (next + "\n"));
      { Associates(WriteRows(rows), last, next + "\n"); }
      ReadRows(WriteRows(rows) + (last + (next + "\n")));
      { Associates(last, next, "\n"); }
      ReadRows(WriteRows(rows) + (last + next + "\n"));
      { CleanRowsReadBack(rows, last + next + "\n"); }
      rows + ReadRows(last + next + "\n");
      { OneLineRowReads(last + next); }
      rows + [last + next];
    }
  }
}
