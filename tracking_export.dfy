/** The tracking page's download (`downloadCSV`): the filtered records as a
    `;`-separated file with a header row, fields quoted where needed, and a
    byte-order mark in front; and a reader of such files that gets every
    field back. */
module TrackingExport {
  import opened Wrappers
  import opened Text
  import opened Tracking
  import CsvDocument
  import CsvReencode

  // ---------------------------------------------------------------- the table

  /** The column titles of the downloaded file. */
  const Headers: seq<string> :=
    ["ID", "Cliente", "WhatsApp", "Campanha Enviada", "Telefone Disparado",
     "Data e Hora Agendado", "Criação", "Status", "Motivo", "Template Enviado"]

  /** `formatDateTimeSP`, as a parameter: the São Paulo local time of a
      timestamp. */
  type DateFormat = string -> string

  /** A date column: `-` when the record has no timestamp. */
  function ShownDate(v: Option<string>, formatDate: DateFormat): string
  {
    if Truthy(v) then formatDate(v.value) else "-"
  }

  /** The ten fields written for one record, a missing text written empty. */
  function ExportRow(x: Item, formatDate: DateFormat): (r: seq<string>)
    ensures |r| == |Headers|
  {
    [OrEmpty(x.id), OrEmpty(x.name), FormatWhatsapp(x.phone), OrEmpty(x.nameBatch),
     FormatWhatsapp(x.displayPhone), ShownDate(x.scheduledDateTime, formatDate),
     ShownDate(x.createdAt, formatDate), StatusText(x.sendStatus), Motivo(x), OrEmpty(x.template)]
  }

  /** The header row, then one row per record shown, in order. */
  function Table(items: seq<Item>, formatDate: DateFormat): (t: seq<seq<string>>)
    ensures |t| == |items| + 1
  {
    [Headers] + seq(|items|, i requires 0 <= i < |items| => ExportRow(items[i], formatDate))
  }

  // ---------------------------------------------------------------- writing

  /** A field as written: quotes doubled, and the whole wrapped in quotes
      when it then holds a separator, a line break or a quote. */
  function ExportField(s: string): string
  {
    var t := CsvReencode.Escape(s);
    if ';' in t || '\n' in t || '"' in t then "\"" + t + "\"" else t
  }

  predicate Special(s: string)
  {
    ';' in s || '\n' in s || '"' in s
  }

  /** A field is written as it is exactly when it holds no separator, line
      break or quote; otherwise it is written quoted, its quotes doubled. */
  lemma ExportFieldCases(s: string)
    ensures ExportField(s) == s <==> !Special(s)
    ensures Special(s) ==> ExportField(s) == "\"" + CsvReencode.Escape(s) + "\""
  {
    CsvReencode.EscapeChars(s);
    CsvReencode.EscapeLength(s);
    if Special(s) {
      assert |ExportField(s)| >= |s| + 2;
    }
  }

  function ExportFields(fields: seq<string>): (r: seq<string>)
    ensures |r| == |fields|
  {
    seq(|fields|, i requires 0 <= i < |fields| => ExportField(fields[i]))
  }

  /** `row.map(escape).join(';')`. */
  function ExportLine(fields: seq<string>): string
    requires |fields| >= 1
  {
    Join(ExportFields(fields), ';')
  }

  function ExportLines(rows: seq<seq<string>>): (r: seq<string>)
    requires forall i :: 0 <= i < |rows| ==> |rows[i]| >= 1
    ensures |r| == |rows|
  {
    seq(|rows|, i requires 0 <= i < |rows| => ExportLine(rows[i]))
  }

  /** The downloaded text: the byte-order mark, then the rows one per line. */
  function ExportCsv(items: seq<Item>, formatDate: DateFormat): string
  {
    [CsvDocument.Bom] + Join(ExportLines(Table(items, formatDate)), '\n')
  }

  // ---------------------------------------------------------------- reading

  /** A quoted field after its opening quote: the text up to the closing
      quote, with a doubled quote standing for one, and what follows the
      closing quote. */
  function ReadQuoted(s: string): (r: (string, string))
    ensures |r.1| < |s| || r.1 == s == []
  {
    if s == [] then ([], [])
    else if s[0] == '"' then
      if |s| >= 2 && s[1] == '"' then
        var (v, rest) := ReadQuoted(s[2..]);
        (['"'] + v, rest)
      else ([], s[1..])
    else
      var (v, rest) := ReadQuoted(s[1..]);
      ([s[0]] + v, rest)
  }

  /** An unquoted field: the text up to the next separator or line break. */
  function ReadPlain(s: string): (r: (string, string))
    ensures |r.1| < |s| || (r.1 == s && (s == [] || s[0] == ';' || s[0] == '\n'))
  {
    if s == [] || s[0] == ';' || s[0] == '\n' then ([], s)
    else
      var (v, rest) := ReadPlain(s[1..]);
      ([s[0]] + v, rest)
  }

  function ReadField(s: string): (r: (string, string))
    ensures |r.1| < |s| || (r.1 == s && (s == [] || s[0] == ';' || s[0] == '\n'))
  {
    if s != [] && s[0] == '"' then ReadQuoted(s[1..]) else ReadPlain(s)
  }

  /** The fields of one record, and the text after its line break. */
  function ReadRecord(s: string): (r: (seq<string>, string))
    ensures |r.1| <= |s| && (s != [] ==> |r.1| < |s|)
    decreases |s|
  {
    var (v, rest) := ReadField(s);
    if rest != [] && rest[0] == ';' then
      var (vs, after) := ReadRecord(rest[1..]);
      ([v] + vs, after)
    else if rest != [] && rest[0] == '\n' then ([v], rest[1..])
    else ([v], rest)
  }

  function ReadRecords(s: string): seq<seq<string>>
    decreases |s|
  {
    if s == [] then []
    else
      var (fields, rest) := ReadRecord(s);
      [fields] + ReadRecords(rest)
  }

  /** What a spreadsheet makes of a `;`-separated file, a leading
      byte-order mark skipped. */
  function ReadCsv(text: string): seq<seq<string>>
  {
    if text != [] && text[0] == CsvDocument.Bom then ReadRecords(text[1..]) else ReadRecords(text)
  }

  // ---------------------------------------------------------------- reading what was written

  /** A quoted field reads back to the text whose quotes were doubled. */
  lemma {:induction false} QuotedBack(s: string, rest: string)
    requires rest == [] || rest[0] != '"'
    ensures ReadQuoted(CsvReencode.Escape(s) + "\"" + rest) == (s, rest)
  {
    var input := CsvReencode.Escape(s) + "\"" + rest;
    if s == [] {
      assert input == "\"" + rest;
      assert input[1..] == rest;
    } else {
      QuotedBack(s[1..], rest);
      var after := CsvReencode.Escape(s[1..]) + "\"" + rest;
      if s[0] == '"' {
        assert input == "\"\"" + after;
        assert input[2..] == after;
      } else {
        assert input == [s[0]] + after;
        assert input[1..] == after;
      }
      assert s == [s[0]] + s[1..];
    }
  }

  /** An unquoted field reads back to itself. */
  lemma {:induction false} PlainBack(s: string, rest: string)
    requires ';' !in s && '\n' !in s
    requires rest == [] || rest[0] == ';' || rest[0] == '\n'
    ensures ReadPlain(s + rest) == (s, rest)
  {
    if s == [] {
      assert s + rest == rest;
    } else {
      PlainBack(s[1..], rest);
      assert (s + rest)[0] == s[0] && (s + rest)[1..] == s[1..] + rest;
      assert s == [s[0]] + s[1..];
    }
  }

  /** Every written field reads back to the field, whatever it holds. */
  lemma FieldBack(s: string, rest: string)
    requires rest == [] || rest[0] == ';' || rest[0] == '\n'
    ensures ReadField(ExportField(s) + rest) == (s, rest)
  {
    if Special(s) {
      QuotedFieldBack(s, rest);
    } else {
      PlainFieldBack(s, rest);
    }
  }

  lemma QuotedFieldBack(s: string, rest: string)
    requires Special(s)
    requires rest == [] || rest[0] == ';' || rest[0] == '\n'
    ensures ReadField(ExportField(s) + rest) == (s, rest)
  {
    ExportFieldCases(s);
    var inner := CsvReencode.Escape(s) + "\"" + rest;
    assert ExportField(s) + rest == "\"" + inner;
    assert ("\"" + inner)[1..] == inner;
    QuotedBack(s, rest);
  }

  lemma PlainFieldBack(s: string, rest: string)
    requires !Special(s)
    requires rest == [] || rest[0] == ';' || rest[0] == '\n'
    ensures ReadField(ExportField(s) + rest) == (s, rest)
  {
    ExportFieldCases(s);
    PlainBack(s, rest);
    if s != [] {
      assert (s + rest)[0] == s[0];
    } else {
      assert s + rest == rest;
    }
  }

  /** A line is its first field, a separator, and the line of the rest. */
  lemma ExportLineCons(fields: seq<string>)
    requires |fields| >= 2
    ensures ExportLine(fields) == ExportField(fields[0]) + ";" + ExportLine(fields[1..])
  {
    assert ExportFields(fields)[1..] == ExportFields(fields[1..]);
  }

  /** A written line reads back to its fields, the line break after it
      consumed. */
  lemma {:induction false} RecordBack(fields: seq<string>, rest: string)
    requires |fields| >= 1
    requires rest == [] || rest[0] == '\n'
    ensures ReadRecord(ExportLine(fields) + rest) == (fields, if rest == [] then [] else rest[1..])
    decreases |fields|
  {
    if |fields| == 1 {
      LastFieldBack(fields, rest);
    } else {
      RecordBack(fields[1..], rest);
      RecordBackStep(fields, rest, if rest == [] then [] else rest[1..]);
    }
  }

  /** One more field in front of a line that reads back. */
  lemma RecordBackStep(fields: seq<string>, rest: string, rest': string)
    requires |fields| >= 2
    requires ReadRecord(ExportLine(fields[1..]) + rest) == (fields[1..], rest')
    ensures ReadRecord(ExportLine(fields) + rest) == (fields, rest')
  {
    var more := ExportLine(fields[1..]) + rest;
    var after := ";" + more;
    assert ReadField(ExportField(fields[0]) + after) == (fields[0], after) by {
      FieldBack(fields[0], after);
    }
    calc {
      ReadRecord(ExportLine(fields) + rest);
      { ExportLineSplit(fields, rest); }
      ReadRecord(ExportField(fields[0]) + after);
      { RecordStep(ExportField(fields[0]), fields[0], more, fields[1..], rest'); }
      ([fields[0]] + fields[1..], rest');
      { assert fields == [fields[0]] + fields[1..]; }
      (fields, rest');
    }
  }

  lemma ExportLineSplit(fields: seq<string>, rest: string)
    requires |fields| >= 2
    ensures ExportLine(fields) + rest == ExportField(fields[0]) + (";" + (ExportLine(fields[1..]) + rest))
  {
    var e, t := ExportField(fields[0]), ExportLine(fields[1..]);
    ExportLineCons(fields);
    assert e + ";" + t + rest == e + (";" + (t + rest));
  }

  /** A field followed by a separator and a record reads as one more field
      in front of that record. */
  lemma RecordStep(e: string, v: string, more: string, vs: seq<string>, after: string)
    requires ReadField(e + (";" + more)) == (v, ";" + more)
    requires ReadRecord(more) == (vs, after)
    ensures ReadRecord(e + (";" + more)) == ([v] + vs, after)
  {
    assert (";" + more)[1..] == more;
  }

  lemma LastFieldBack(fields: seq<string>, rest: string)
    requires |fields| == 1
    requires rest == [] || rest[0] == '\n'
    ensures ReadRecord(ExportLine(fields) + rest) == (fields, if rest == [] then [] else rest[1..])
  {
    assert ExportLine(fields) == ExportField(fields[0]);
    FieldBack(fields[0], rest);
    assert fields == [fields[0]];
  }

  /** A line of two or more fields is never empty. */
  lemma LineNotEmpty(fields: seq<string>)
    requires |fields| >= 2
    ensures ExportLine(fields) != []
  {
    assert ExportLine(fields) == ExportFields(fields)[0] + ";" + Join(ExportFields(fields)[1..], ';');
  }

  /** Written lines of two or more fields each read back to the rows. */
  lemma {:induction false} RecordsBack(rows: seq<seq<string>>)
    requires |rows| >= 1
    requires forall i :: 0 <= i < |rows| ==> |rows[i]| >= 2
    ensures ReadRecords(Join(ExportLines(rows), '\n')) == rows
    decreases |rows|
  {
    var ls := ExportLines(rows);
    if |rows| == 1 {
      LineNotEmpty(rows[0]);
      assert Join(ls, '\n') == ExportLine(rows[0]) + [];
      RecordBack(rows[0], []);
    } else {
      var tail := rows[1..];
      assert ls[1..] == ExportLines(tail);
      var rest := "\n" + Join(ExportLines(tail), '\n');
      assert Join(ls, '\n') == ExportLine(rows[0]) + rest;
      RecordBack(rows[0], rest);
      assert rest[1..] == Join(ExportLines(tail), '\n');
      RecordsBack(tail);
      assert rows == [rows[0]] + tail;
    }
  }

  /** Reading the downloaded file gives back the header row and, for each
      record shown, its ten fields, whatever characters they hold. */
  lemma ExportReadsBack(items: seq<Item>, formatDate: DateFormat)
    ensures ReadCsv(ExportCsv(items, formatDate)) == Table(items, formatDate)
  {
    var t := Table(items, formatDate);
    forall i | 0 <= i < |t|
      ensures |t[i]| >= 2
    {
      if i > 0 {
        assert t[i] == ExportRow(items[i - 1], formatDate);
      }
    }
    RecordsBack(t);
    var text := ExportCsv(items, formatDate);
    assert text[1..] == Join(ExportLines(t), '\n');
  }
}
