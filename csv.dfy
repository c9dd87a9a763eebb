/** Comma-separated text as the recorder writes it: the fields of a row are
    joined with ',', the rows with '\n'; nothing is escaped and no newline
    follows the last row. `Split` and `ParseCsv` are the reading side, used to
    state what the text means. */
module Csv {

  /** `parts` with `sep` between neighbours, like Swift's `joined(separator:)`:
      no parts give "", one part gives itself. `SplitJoin` and `JoinSplit`
      state that `Split` undoes it. */
  function Join(sep: char, parts: seq<string>): (s: string)
    ensures |parts| == 0 ==> s == ""
    ensures |parts| == 1 ==> s == parts[0]
  {
    if |parts| == 0 then ""
    else if |parts| == 1 then parts[0]
    else parts[0] + [sep] + Join(sep, parts[1..])
  }

  /** `s` cut at every `sep`, keeping empty pieces: one piece more than there
      are separators, and no piece holds a separator. */
  function Split(sep: char, s: string): (parts: seq<string>)
    ensures |parts| == multiset(s)[sep] + 1
    ensures forall i :: 0 <= i < |parts| ==> sep !in parts[i]
  {
    if |s| == 0 then [""]
    else
      var rest := Split(sep, s[1..]);
      assert s == [s[0]] + s[1..];
      if s[0] == sep then [""] + rest
      else [[s[0]] + rest[0]] + rest[1..]
  }

  /** No field of any row contains `c`. */
  predicate FieldsAvoid(rows: seq<seq<string>>, c: char)
  {
    forall i, j :: 0 <= i < |rows| && 0 <= j < |rows[i]| ==> c !in rows[i][j]
  }

  /** The text line of each row. */
  function Lines(rows: seq<seq<string>>): seq<string>
  {
    seq(|rows|, i requires 0 <= i < |rows| => Join(',', rows[i]))
  }

  /** The CSV text of `rows`: each row's fields joined with ',', and those
      lines joined with '\n', with no newline after the last line. What the
      text means is stated by `CsvLines`, `CsvFirstLine`, `CsvAppend` and
      `ParseCsvText`. */
  function CsvText(rows: seq<seq<string>>): (text: string)
    ensures |rows| == 0 ==> text == ""
    ensures |rows| == 1 ==> text == Join(',', rows[0])
  {
    Join('\n', Lines(rows))
  }

  /** Reads CSV text back: lines at '\n', then fields at ','. */
  function ParseCsv(text: string): seq<seq<string>>
  {
    var lines := Split('\n', text);
    seq(|lines|, i requires 0 <= i < |lines| => Split(',', lines[i]))
  }

  /** A piece without separators splits into itself. */
  lemma {:induction false} SplitPlain(sep: char, p: string)
    requires sep !in p
    ensures Split(sep, p) == [p]
  {
    if |p| > 0 {
      SplitPlain(sep, p[1..]);
      assert p == [p[0]] + p[1..];
    }
  }

  /** Splitting stops at the first separator. */
  lemma {:induction false} SplitAtFirst(sep: char, p: string, t: string)
    requires sep !in p
    ensures Split(sep, p + [sep] + t) == [p] + Split(sep, t)
  {
    var s := p + [sep] + t;
    if |p| == 0 {
      assert s[1..] == t;
    } else {
      assert s[1..] == p[1..] + [sep] + t;
      SplitAtFirst(sep, p[1..], t);
      assert [p[0]] + p[1..] == p;
    }
  }

  /** Splitting undoes joining when no part holds the separator. */
  lemma {:induction false} SplitJoin(sep: char, parts: seq<string>)
    requires |parts| >= 1
    requires forall i :: 0 <= i < |parts| ==> sep !in parts[i]
    ensures Split(sep, Join(sep, parts)) == parts
  {
    if |parts| == 1 {
      SplitPlain(sep, parts[0]);
    } else {
      SplitJoin(sep, parts[1..]);
      SplitAtFirst(sep, parts[0], Join(sep, parts[1..]));
      assert [parts[0]] + parts[1..] == parts;
    }
  }

  /** A character put in front of the first part is put in front of the join. */
  lemma JoinPrepend(sep: char, c: char, parts: seq<string>)
    requires |parts| >= 1
    ensures Join(sep, [[c] + parts[0]] + parts[1..]) == [c] + Join(sep, parts)
  {
  }

  /** Joining undoes splitting, for every text. */
  lemma {:induction false} JoinSplit(sep: char, s: string)
    ensures Join(sep, Split(sep, s)) == s
  {
    if |s| > 0 {
      var rest := Split(sep, s[1..]);
      JoinSplit(sep, s[1..]);
      assert s == [s[0]] + s[1..];
      if s[0] == sep {
        assert ([""] + rest)[1..] == rest;
      } else {
        JoinPrepend(sep, s[0], rest);
      }
    }
  }

  /** A character that is neither the separator nor in any part is not in the join. */
  lemma {:induction false} JoinAvoids(sep: char, c: char, parts: seq<string>)
    requires c != sep
    requires forall i :: 0 <= i < |parts| ==> c !in parts[i]
    ensures c !in Join(sep, parts)
  {
    if |parts| > 1 {
      JoinAvoids(sep, c, parts[1..]);
    }
  }

  /** Appending a part adds one separator and the part at the end. */
  lemma {:induction false} JoinSnoc(sep: char, parts: seq<string>, p: string)
    requires |parts| >= 1
    ensures Join(sep, parts + [p]) == Join(sep, parts) + [sep] + p
  {
    if |parts| > 1 {
      assert (parts + [p])[1..] == parts[1..] + [p];
      JoinSnoc(sep, parts[1..], p);
    }
  }

  /** The lines of the CSV text are the rows' lines, one per row, and the
      text holds exactly |rows| - 1 newlines, so none trails the last row. */
  lemma CsvLines(rows: seq<seq<string>>)
    requires |rows| >= 1
    requires FieldsAvoid(rows, '\n')
    ensures Split('\n', CsvText(rows)) == Lines(rows)
    ensures |Split('\n', CsvText(rows))| == |rows|
    ensures multiset(CsvText(rows))['\n'] == |rows| - 1
    ensures forall k :: 0 <= k < |rows| ==> Split('\n', CsvText(rows))[k] == Join(',', rows[k])
  {
    var lines := Lines(rows);
    forall i | 0 <= i < |lines|
      ensures '\n' !in lines[i]
    {
      JoinAvoids(',', '\n', rows[i]);
    }
    SplitJoin('\n', lines);
  }

  /** The first line of the CSV text is the first row's line, whatever the
      later rows hold. */
  lemma CsvFirstLine(rows: seq<seq<string>>)
    requires |rows| >= 1
    requires forall j :: 0 <= j < |rows[0]| ==> '\n' !in rows[0][j]
    ensures Split('\n', CsvText(rows))[0] == Join(',', rows[0])
  {
    var lines := Lines(rows);
    JoinAvoids(',', '\n', rows[0]);
    if |rows| == 1 {
      SplitPlain('\n', lines[0]);
    } else {
      SplitAtFirst('\n', lines[0], Join('\n', lines[1..]));
    }
  }

  /** A row added to the end of the buffer adds one newline and its line at
      the end of the text; the earlier text is unchanged. */
  lemma CsvAppend(rows: seq<seq<string>>, row: seq<string>)
    requires |rows| >= 1
    ensures CsvText(rows + [row]) == CsvText(rows) + "\n" + Join(',', row)
  {
    assert Lines(rows + [row]) == Lines(rows) + [Join(',', row)];
    JoinSnoc('\n', Lines(rows), Join(',', row));
  }

  /** Reading the CSV text back gives the rows, provided no field holds ','
      or '\n' and no row is empty (an empty row would read back as [""]). */
  lemma ParseCsvText(rows: seq<seq<string>>)
    requires |rows| >= 1
    requires forall i :: 0 <= i < |rows| ==> |rows[i]| >= 1
    requires FieldsAvoid(rows, ',') && FieldsAvoid(rows, '\n')
    ensures ParseCsv(CsvText(rows)) == rows
  {
    CsvLines(rows);
    var lines := Split('\n', CsvText(rows));
    forall i | 0 <= i < |rows|
      ensures Split(',', lines[i]) == rows[i]
    {
      SplitJoin(',', rows[i]);
    }
  }
}
