/** Documents in the layout `name;phone;email`: the sample file of
    `generateSampleCsv` and the UTF-8 re-encoding of the imported contacts
    that the multiple-dispatch form uploads, and what the importer makes of
    them. */
module CsvDocument {
  import opened Wrappers
  import opened Text
  import opened Phone
  import opened CsvContacts

  /** The header line both documents start with. */
  const Header: string := "name;phone;email"

  /** The byte order mark the re-encoding puts in front of the text. */
  const Bom: char := '\U{FEFF}'

  /** One data line of such a document, by field. */
  datatype Row = Row(name: string, phone: string, email: string)

  /** The line `name;phone;email` of a row. */
  function LineOf(w: Row): string
  {
    w.name + ";" + w.phone + ";" + w.email
  }

  /** The lines of the rows, in order. */
  function Lines(rows: seq<Row>): (r: seq<string>)
    ensures |r| == |rows|
  {
    if rows == [] then [] else Lines(rows[..|rows| - 1]) + [LineOf(rows[|rows| - 1])]
  }

  lemma {:induction false} LinesAt(rows: seq<Row>, i: nat)
    requires i < |rows|
    ensures Lines(rows)[i] == LineOf(rows[i])
    decreases |rows|
  {
    if i < |rows| - 1 {
      LinesAt(rows[..|rows| - 1], i);
    }
  }

  /** The whole text: the header line, then one line per row. */
  function Document(head: string, rows: seq<Row>): string
  {
    Join([head] + Lines(rows), '\n')
  }

  /** A field the importer reads back as it was written: no padding, no
      separator and no line break. */
  predicate FieldText(s: string)
  {
    Trimmed(s) && ';' !in s && '\n' !in s
  }

  /** A row whose line the importer splits into exactly its three fields. */
  predicate PlainRow(w: Row)
  {
    w.name != [] && FieldText(w.name) && FieldText(w.phone) && FieldText(w.email)
  }

  // ---------------------------------------------------------------- one line

  /** A separator-free piece is one field, trimmed. */
  lemma FieldsSingle(s: string)
    requires ';' !in s
    ensures Fields(s) == [Trim(s)]
  {
    SplitNoSeparator(s, ';');
  }

  /** The fields of `a;b;c` are the three trimmed pieces. */
  lemma FieldsOfThree(a: string, b: string, c: string)
    requires ';' !in a && ';' !in b && ';' !in c
    ensures Fields(a + ";" + b + ";" + c) == [Trim(a), Trim(b), Trim(c)]
  {
    FieldsConcat(a + ";" + b, c);
    FieldsConcat(a, b);
    FieldsSingle(a);
    FieldsSingle(b);
    FieldsSingle(c);
  }

  /** The line of a plain row is already trimmed, not blank and has no line break. */
  lemma LineOfPlain(w: Row)
    requires PlainRow(w)
    ensures Trim(LineOf(w)) == LineOf(w) != []
    ensures '\n' !in LineOf(w)
  {
    var s := LineOf(w);
    assert s[0] == w.name[0];
    assert s[|s| - 1] == if w.email == [] then ';' else w.email[|w.email| - 1];
    TrimTrimmed(s);
  }

  /** The layout of the header `name;phone;email`. */
  function StandardLayout(): ValidLayout
  {
    Layout(3, 0, 1, Some(2))
  }

  /** A plain row is read field by field: its phone decides, and an empty
      email becomes `null`. */
  lemma ReadPlainRow(w: Row)
    requires PlainRow(w)
    ensures ReadRow(LineOf(w), StandardLayout()) ==
              if w.phone == [] then Failure(NoNameOrPhone)
              else match FormatPhone(w.phone)
                case Failure(e) => Failure(BadPhone(e))
                case Success(p) => Success(Contact(w.name, p, if w.email == [] then None else Some(w.email)))
  {
    LineOfPlain(w);
    FieldsOfThree(w.name, w.phone, w.email);
    TrimTrimmed(w.name);
    TrimTrimmed(w.phone);
    TrimTrimmed(w.email);
  }

  // ---------------------------------------------------------------- the header

  /** The columns the standard header names. */
  const Columns: seq<string> := ["name", "phone", "email"]

  lemma LowerColumns()
    ensures LowerAll(Columns) == Columns
  {
    forall i | 0 <= i < |Columns|
      ensures Lower(Columns[i]) == Columns[i]
    {
      LowerNoUpper(Columns[i]);
    }
    LowerAllFixed(Columns);
  }

  /** Lower-casing leaves a string without capitals alone. */
  lemma {:induction false} LowerNoUpper(s: string)
    requires forall i :: 0 <= i < |s| ==> !('A' <= s[i] <= 'Z')
    ensures Lower(s) == s
  {
    if s != [] {
      LowerNoUpper(s[1..]);
    }
  }

  lemma {:induction false} LowerAllFixed(ps: seq<string>)
    requires forall i :: 0 <= i < |ps| ==> Lower(ps[i]) == ps[i]
    ensures LowerAll(ps) == ps
  {
    if ps != [] {
      LowerAllFixed(ps[1..]);
    }
  }

  /** The header, with or without a byte order mark in front, names the
      three columns in order; the mark is white space to `trim`. */
  lemma HeaderColumns(head: string)
    requires head == Header || head == [Bom] + Header
    ensures Headers(head) == Columns
    ensures Trim(head) != [] && '\n' !in head
  {
    var name := if head == Header then "name" else [Bom] + "name";
    assert head == name + ";" + "phone" + ";" + "email";
    FieldsOfThree(name, "phone", "email");
    TrimName(name);
    TrimField("phone");
    TrimField("email");
    LowerColumns();
    HeaderNotBlank(head);
  }

  lemma TrimName(name: string)
    requires name == "name" || name == [Bom] + "name"
    ensures Trim(name) == "name"
  {
    TrimField("name");
    if name != "name" {
      assert name[1..] == "name";
      assert TrimStart(name) == TrimStart("name");
    }
  }

  lemma TrimField(s: string)
    requires s == "name" || s == "phone" || s == "email"
    ensures Trim(s) == s
  {
    TrimTrimmed(s);
  }

  lemma HeaderNotBlank(head: string)
    requires head == Header || head == [Bom] + Header
    ensures Trim(head) != [] && '\n' !in head
  {
    NotBlankAt(head, |head| - 1);
    if head != Header {
      assert head == [Bom] + Header;
    }
  }

  /** A string with a character that is not white space is not blank. */
  lemma NotBlankAt(s: string, k: nat)
    requires k < |s| && !IsSpace(s[k])
    ensures Trim(s) != []
  {
    TrimEmptyIffBlank(s);
  }

  lemma ColumnsLayout()
    ensures "name" in Columns && "phone" in Columns && Missing(Columns) == []
    ensures LayoutOf(Columns) == StandardLayout()
  {
    assert Columns[0] == "name" && Columns[1] == "phone" && Columns[2] == "email";
  }

  // ---------------------------------------------------------------- whole documents

  /** A document whose header names the three columns and whose rows all
      read into contacts imports exactly those contacts, in order, with no
      invalid line. */
  lemma ParseDocument(head: string, rows: seq<Row>, cs: seq<Contact>)
    requires head == Header || head == [Bom] + Header
    requires |rows| == |cs| >= 1
    requires forall i :: 0 <= i < |rows| ==> PlainRow(rows[i])
    requires forall i :: 0 <= i < |rows| ==> ReadRow(LineOf(rows[i]), StandardLayout()) == Success(cs[i])
    ensures ParseCsv(Document(head, rows)) == Success(Parsed(cs, Stats(|cs|, |cs|, 0)))
  {
    ParseDocumentRows(head, rows);
    DocumentRows(rows, cs);
  }

  /** A document whose rows all fail to read imports nothing. */
  lemma RejectDocument(head: string, rows: seq<Row>)
    requires head == Header || head == [Bom] + Header
    requires |rows| >= 1
    requires forall i :: 0 <= i < |rows| ==> PlainRow(rows[i])
    requires forall i :: 0 <= i < |rows| ==> ReadRow(LineOf(rows[i]), StandardLayout()).Failure?
    ensures ParseCsv(Document(head, rows)) == Failure(NoValidData)
  {
    ParseDocumentRows(head, rows);
    var read := RowReader(StandardLayout());
    forall i | 0 <= i < |Lines(rows)|
      ensures read(Lines(rows)[i]).Failure?
    {
      LinesAt(rows, i);
    }
    ParseRowsNone(Lines(rows), read);
  }

  /** What a document under either header imports: the contacts of its row
      lines, counted against the number of rows. */
  lemma ParseDocumentRows(head: string, rows: seq<Row>)
    requires head == Header || head == [Bom] + Header
    requires |rows| >= 1
    requires forall i :: 0 <= i < |rows| ==> PlainRow(rows[i])
    ensures ParseCsv(Document(head, rows)) ==
              Outcome(|rows|, ParseRows(Lines(rows), RowReader(StandardLayout())))
  {
    HeaderColumns(head);
    DocumentLines(head, rows);
    ParseColumns(head, Lines(rows));
  }

  /** The import of lines under a header naming the three columns. */
  lemma ParseColumns(head: string, ls: seq<string>)
    requires Headers(head) == Columns && |ls| >= 1
    ensures ParseLines([head] + ls) == Outcome(|ls|, ParseRows(ls, RowReader(StandardLayout())))
  {
    var lines := [head] + ls;
    assert lines[0] == head && lines[1..] == ls;
    assert ParseLines(lines) == ParseTable(Headers(head), ls);
    ColumnsTable(ls);
  }

  lemma ColumnsTable(ls: seq<string>)
    ensures ParseTable(Columns, ls) == Outcome(|ls|, ParseRows(ls, RowReader(StandardLayout())))
  {
    ColumnsLayout();
  }

  /** The lines the importer sees in a document are its header and row lines. */
  lemma DocumentLines(head: string, rows: seq<Row>)
    requires '\n' !in head && Trim(head) != []
    requires forall i :: 0 <= i < |rows| ==> PlainRow(rows[i])
    ensures NonBlank(Split(Document(head, rows), '\n')) == [head] + Lines(rows)
  {
    LinesPlain(rows);
    SeparateLines(head, Lines(rows));
  }

  /** Joining non-blank lines without line breaks and cutting the text
      again gives the lines back. */
  lemma SeparateLines(head: string, ls: seq<string>)
    requires '\n' !in head && Trim(head) != []
    requires forall i :: 0 <= i < |ls| ==> '\n' !in ls[i] && Trim(ls[i]) != []
    ensures NonBlank(Split(Join([head] + ls, '\n'), '\n')) == [head] + ls
  {
    var lines := [head] + ls;
    forall i | 0 <= i < |lines|
      ensures '\n' !in lines[i] && Trim(lines[i]) != []
    {
      if i > 0 {
        assert lines[i] == ls[i - 1];
      }
    }
    SplitJoin(lines, '\n');
    NonBlankAll(lines);
  }

  lemma LinesPlain(rows: seq<Row>)
    requires forall i :: 0 <= i < |rows| ==> PlainRow(rows[i])
    ensures forall i :: 0 <= i < |rows| ==> '\n' !in Lines(rows)[i] && Trim(Lines(rows)[i]) != []
  {
    forall i | 0 <= i < |rows|
      ensures '\n' !in Lines(rows)[i] && Trim(Lines(rows)[i]) != []
    {
      LinesAt(rows, i);
      LineOfPlain(rows[i]);
    }
  }

  /** The loop collects the contacts the row lines read into. */
  lemma DocumentRows(rows: seq<Row>, cs: seq<Contact>)
    requires |rows| == |cs|
    requires forall i :: 0 <= i < |rows| ==> ReadRow(LineOf(rows[i]), StandardLayout()) == Success(cs[i])
    ensures ParseRows(Lines(rows), RowReader(StandardLayout())) == cs
  {
    var read := RowReader(StandardLayout());
    forall i | 0 <= i < |rows|
      ensures read(Lines(rows)[i]) == Success(cs[i])
    {
      LinesAt(rows, i);
    }
    ParseRowsAll(Lines(rows), read, cs);
  }

  /** Lines that are all non-blank pass the filter unchanged. */
  lemma {:induction false} NonBlankAll(lines: seq<string>)
    requires forall i :: 0 <= i < |lines| ==> Trim(lines[i]) != []
    ensures NonBlank(lines) == lines
  {
    if lines != [] {
      NonBlankAll(lines[1..]);
    }
  }

  // ---------------------------------------------------------------- row shapes

  /** Row `w` is plain, its phone formats into `c`'s phone, and `c` carries
      its name and (when present) its email. */
  predicate ReadsAs(w: Row, c: Contact)
  {
    PlainRow(w) && w.phone != [] && FormatPhone(w.phone) == Success(c.phone) &&
    c.name == w.name && c.email == (if w.email == [] then None else Some(w.email))
  }

  /** Such a row reads into exactly that contact. */
  lemma ReadsAsContact(w: Row, c: Contact)
    requires ReadsAs(w, c)
    ensures ReadRow(LineOf(w), StandardLayout()) == Success(c)
  {
    ReadPlainRow(w);
  }

  /** Row `w` has a name, its name and email are clean fields, and `c`
      carries that name, (when present) that email, and the phone `p`. */
  predicate CarriesAs(w: Row, c: Contact, p: string)
  {
    w.name != [] && FieldText(w.name) && FieldText(w.email) &&
    c == Contact(w.name, p, if w.email == [] then None else Some(w.email))
  }

  /** A row with a bare local number. */
  predicate LocalShape(w: Row, c: Contact)
  {
    AllDigits(w.phone) && (|w.phone| == 10 || |w.phone| == 11) && CarriesAs(w, c, "+55" + w.phone)
  }

  /** A row whose number is written `(AA) NNNNN-NNNN` or `AA NNNNN-NNNN`. */
  predicate FormattedShape(w: Row, c: Contact, area: string, first: string, last: string)
  {
    AllDigits(area) && AllDigits(first) && AllDigits(last) &&
    |area| == 2 && (|first| == 4 || |first| == 5) && |last| == 4 &&
    (w.phone == "(" + area + ") " + first + "-" + last || w.phone == area + " " + first + "-" + last) &&
    CarriesAs(w, c, "+55" + (area + first + last))
  }

  /** A row whose number is written `+55` and eleven more digits. */
  predicate PlusShape(w: Row, c: Contact, d: string)
  {
    AllDigits(d) && |d| == 13 && d[0] == '5' && d[1] == '5' &&
    w.phone == "+" + d && CarriesAs(w, c, "+" + d)
  }

  /** Digits alone make a clean field. */
  lemma DigitsText(s: string)
    requires AllDigits(s)
    ensures FieldText(s)
  {
    forall i | 0 <= i < |s|
      ensures s[i] != ';' && s[i] != '\n'
    {
      assert IsDigit(s[i]);
    }
  }

  /** A field built of clean pieces, starting and ending with a visible
      character, is clean. */
  lemma JoinedText(a: string, b: string)
    requires ';' !in a && '\n' !in a && ';' !in b && '\n' !in b
    requires a != [] && !IsSpace(a[0]) && b != [] && !IsSpace(b[|b| - 1])
    ensures FieldText(a + b)
  {
    var s := a + b;
    assert s[0] == a[0] && s[|s| - 1] == b[|b| - 1];
  }

  lemma LocalReads(w: Row, c: Contact)
    requires LocalShape(w, c)
    ensures PlainRow(w) && ReadRow(LineOf(w), StandardLayout()) == Success(c)
  {
    DigitsText(w.phone);
    LocalNumber(w.phone);
    ReadsAsContact(w, c);
  }

  lemma FormattedReads(w: Row, c: Contact, area: string, first: string, last: string)
    requires FormattedShape(w, c, area, first, last)
    ensures PlainRow(w) && ReadRow(LineOf(w), StandardLayout()) == Success(c)
  {
    DigitsText(area);
    DigitsText(first);
    DigitsText(last);
    assert IsDigit(area[0]) && IsDigit(last[3]);
    if w.phone == "(" + area + ") " + first + "-" + last {
      JoinedText("(" + area + ") " + first + "-", last);
    } else {
      JoinedText(area, " " + first + "-" + last);
    }
    AcceptedFormats(area, first, last);
    ReadsAsContact(w, c);
  }

  lemma PlusReads(w: Row, c: Contact, d: string)
    requires PlusShape(w, c, d)
    ensures PlainRow(w) && ReadRow(LineOf(w), StandardLayout()) == Success(c)
  {
    DigitsText(d);
    assert IsDigit(d[12]);
    JoinedText("+", d);
    DigitsWithPlus(d);
    assert StartsWith(d, "55");
    FormatPhoneCountryCode(w.phone);
    ReadsAsContact(w, c);
  }

  /** A bare local number: `+55` goes in front. */
  lemma LocalNumber(phone: string)
    requires AllDigits(phone) && (|phone| == 10 || |phone| == 11)
    ensures FormatPhone(phone) == Success("+55" + phone)
  {
    DigitsOfDigits(phone);
    FormatPhoneLocal(phone);
  }
}
