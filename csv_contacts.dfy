/** The contact importer (`processCsvFile`, `validateCsvStructure` and the
    sample document of `generateSampleCsv`): a `;`-separated text whose
    first non-blank line names the columns becomes a list of contacts. */
module CsvContacts {
  import opened Wrappers
  import opened Text
  import opened Phone

  /** One imported contact; an empty email is kept as `null`. */
  datatype Contact = Contact(name: string, phone: string, email: Option<string>)

  datatype Stats = Stats(totalLines: nat, validContacts: nat, invalidContacts: nat)

  /** What the import resolves with: the contacts and the counts. */
  datatype Parsed = Parsed(data: seq<Contact>, stats: Stats)

  /** The three ways the import is rejected. */
  datatype CsvError = TooFewLines | MissingColumns(missing: seq<string>) | NoValidData

  /** Why a data line is skipped (each one only logs a warning). */
  datatype Skip = BlankLine | FewerColumns | NoNameOrPhone | BadPhone(error: PhoneError)

  /** Where the fields of a data line are read: the header's width and the
      positions of `name`, `phone` and, when present, `email`. */
  datatype Layout = Layout(width: nat, nameAt: nat, phoneAt: nat, emailAt: Option<nat>)

  predicate Fits(l: Layout)
  {
    l.nameAt < l.width && l.phoneAt < l.width && (l.emailAt.Some? ==> l.emailAt.value < l.width)
  }

  /** A layout whose positions lie inside the header. */
  type ValidLayout = l: Layout | Fits(l) witness Layout(1, 0, 0, None)

  /** How a data line is read: into a contact, or into the reason it is skipped. */
  type Reader = string -> Result<Contact, Skip>

  /** What every imported contact looks like: a non-empty trimmed name, a
      canonical phone and, when there is one, a non-empty trimmed email;
      no field holds the separator. */
  predicate WellFormed(c: Contact)
  {
    && c.name != [] && Trimmed(c.name) && ';' !in c.name
    && Canonical(c.phone)
    && (c.email.Some? ==> c.email.value != [] && Trimmed(c.email.value) && ';' !in c.email.value)
  }

  // ---------------------------------------------------------------- lines and header

  /** `lines.filter(line => line.trim() !== '')`. */
  function NonBlank(lines: seq<string>): (r: seq<string>)
    ensures |r| <= |lines|
  {
    if lines == [] then []
    else (if Trim(lines[0]) != [] then [lines[0]] else []) + NonBlank(lines[1..])
  }

  /** The filter keeps exactly the non-blank lines. */
  lemma {:induction false} NonBlankMembers(lines: seq<string>, x: string)
    ensures x in NonBlank(lines) <==> x in lines && Trim(x) != []
  {
    if lines != [] {
      NonBlankMembers(lines[1..], x);
      assert lines == [lines[0]] + lines[1..];
    }
  }

  /** The filter works line by line. */
  lemma {:induction false} NonBlankConcat(a: seq<string>, b: seq<string>)
    ensures NonBlank(a + b) == NonBlank(a) + NonBlank(b)
  {
    if a == [] {
      assert a + b == b;
    } else {
      var head := if Trim(a[0]) != [] then [a[0]] else [];
      calc {
        NonBlank(a + b);
        { assert (a + b)[0] == a[0] && (a + b)[1..] == a[1..] + b; }
        head + NonBlank(a[1..] + b);
        { NonBlankConcat(a[1..], b); }
        head + (NonBlank(a[1..]) + NonBlank(b));
        NonBlank(a) + NonBlank(b);
      }
    }
  }

  /** `pieces.map(p => p.trim())`. */
  function TrimAll(ps: seq<string>): (r: seq<string>)
    ensures |r| == |ps|
    ensures forall i :: 0 <= i < |r| ==> Trimmed(r[i])
  {
    if ps == [] then [] else [Trim(ps[0])] + TrimAll(ps[1..])
  }

  /** A character absent from every piece stays absent after trimming. */
  lemma {:induction false} TrimAllAbsent(ps: seq<string>, c: char)
    requires forall i :: 0 <= i < |ps| ==> c !in ps[i]
    ensures forall i :: 0 <= i < |ps| ==> c !in TrimAll(ps)[i]
  {
    if ps != [] {
      TrimAbsent(ps[0], c);
      TrimAllAbsent(ps[1..], c);
      assert forall i :: 1 <= i < |ps| ==> TrimAll(ps)[i] == TrimAll(ps[1..])[i - 1];
    }
  }

  /** Trimming works piece by piece. */
  lemma {:induction false} TrimAllConcat(a: seq<string>, b: seq<string>)
    ensures TrimAll(a + b) == TrimAll(a) + TrimAll(b)
  {
    if a == [] {
      assert a + b == b;
    } else {
      assert (a + b)[0] == a[0];
      assert (a + b)[1..] == a[1..] + b;
      TrimAllConcat(a[1..], b);
    }
  }

  /** `pieces.map(p => p.toLowerCase())`. */
  function LowerAll(ps: seq<string>): (r: seq<string>)
    ensures |r| == |ps|
  {
    if ps == [] then [] else [Lower(ps[0])] + LowerAll(ps[1..])
  }

  /** `line.split(';').map(col => col.trim())`: the fields of a data line,
      none of which is padded or holds the separator. */
  function Fields(line: string): (r: seq<string>)
    ensures |r| == |Split(line, ';')|
  {
    TrimAll(Split(line, ';'))
  }

  /** No field is padded or holds the separator. */
  lemma FieldsClean(line: string)
    ensures forall i :: 0 <= i < |Fields(line)| ==> Trimmed(Fields(line)[i]) && ';' !in Fields(line)[i]
  {
    SplitFree(line, ';');
    TrimAllAbsent(Split(line, ';'), ';');
  }

  /** `line.split(';').map(header => header.trim().toLowerCase())`. */
  function Headers(line: string): (r: seq<string>)
    ensures |r| == |Split(line, ';')|
  {
    LowerAll(Fields(line))
  }

  /** `['name', 'phone'].filter(col => !headers.includes(col))`: the
      required columns the header lacks, `name` before `phone`. */
  function Missing(headers: seq<string>): (r: seq<string>)
    ensures r == [] || r == ["name"] || r == ["phone"] || r == ["name", "phone"]
    ensures ("name" in r <==> "name" !in headers) && ("phone" in r <==> "phone" !in headers)
  {
    (if "name" in headers then [] else ["name"]) + (if "phone" in headers then [] else ["phone"])
  }

  /** `headers.indexOf(x)`: the first position holding `x`, or -1. */
  function IndexOf(s: seq<string>, x: string): (r: int)
    ensures -1 <= r < |s|
    ensures r == -1 <==> x !in s
    ensures 0 <= r ==> s[r] == x
  {
    if s == [] then -1
    else if s[0] == x then 0
    else
      var k := IndexOf(s[1..], x);
      if k < 0 then -1 else k + 1
  }

  /** The position found is the first one holding `x`. */
  lemma {:induction false} IndexOfFirst(s: seq<string>, x: string)
    ensures 0 <= IndexOf(s, x) ==> x !in s[..IndexOf(s, x)]
  {
    if s != [] && s[0] != x {
      IndexOfFirst(s[1..], x);
      var k := IndexOf(s[1..], x);
      if k >= 0 {
        assert s[..k + 1] == [s[0]] + s[1..][..k];
      }
    }
  }

  /** The column positions read from a header that has `name` and `phone`. */
  function LayoutOf(headers: seq<string>): (l: ValidLayout)
    requires "name" in headers && "phone" in headers
    ensures l.width == |headers|
    ensures headers[l.nameAt] == "name" && headers[l.phoneAt] == "phone"
    ensures l.emailAt.None? <==> "email" !in headers
    ensures l.emailAt.Some? ==> headers[l.emailAt.value] == "email"
  {
    var e := IndexOf(headers, "email");
    Layout(|headers|, IndexOf(headers, "name"), IndexOf(headers, "phone"),
           if e >= 0 then Some(e) else None)
  }

  // ---------------------------------------------------------------- one data line

  /** The checks of one data line after it was trimmed and split. */
  function ReadFields(cols: seq<string>, l: ValidLayout): Result<Contact, Skip>
  {
    if |cols| < l.width then Failure(FewerColumns)
    else
      var name := cols[l.nameAt];
      var phone := cols[l.phoneAt];
      var email := if l.emailAt.Some? then cols[l.emailAt.value] else "";
      if name == [] || phone == [] then Failure(NoNameOrPhone)
      else match FormatPhone(phone)
        case Failure(e) => Failure(BadPhone(e))
        case Success(p) => Success(Contact(name, p, if email == [] then None else Some(email)))
  }

  /** One pass of the loop body over a data line. */
  function ReadRow(line: string, l: ValidLayout): Result<Contact, Skip>
  {
    var t := Trim(line);
    if t == [] then Failure(BlankLine) else ReadFields(Fields(t), l)
  }

  /** Every contact read from a line is well formed. */
  lemma ReadRowWellFormed(line: string, l: ValidLayout)
    ensures ReadRow(line, l).Success? ==> WellFormed(ReadRow(line, l).value)
  {
    var t := Trim(line);
    if t != [] && |Fields(t)| >= l.width {
      FieldsClean(t);
      FormatPhoneOutcome(Fields(t)[l.phoneAt]);
    }
  }

  /** A line is kept exactly when it has as many fields as the header, a
      non-empty name and phone, and 10 to 15 digits in the phone. */
  lemma ReadFieldsOutcome(cols: seq<string>, l: ValidLayout)
    ensures ReadFields(cols, l).Success? <==>
              && |cols| >= l.width
              && cols[l.nameAt] != [] && cols[l.phoneAt] != []
              && 10 <= |DigitsOf(cols[l.phoneAt])| <= 15
  {
    if |cols| >= l.width {
      FormatPhoneOutcome(cols[l.phoneAt]);
    }
  }

  /** Whatever the email field holds, it never decides whether the line is
      kept, and it lands in the contact as written (`null` when empty). */
  lemma EmailNeverSkips(cols: seq<string>, l: ValidLayout, e: string)
    requires |cols| >= l.width
    requires l.emailAt.Some? && l.emailAt.value != l.nameAt && l.emailAt.value != l.phoneAt
    ensures var r := ReadFields(cols[l.emailAt.value := e], l);
            && r.Success? == ReadFields(cols, l).Success?
            && (r.Success? ==> r.value.email == (if e == [] then None else Some(e)))
  {
  }

  /** Fields beyond the header's width are never read. */
  lemma ExtraFieldsIgnored(cols: seq<string>, extra: seq<string>, l: ValidLayout)
    requires |cols| >= l.width
    ensures ReadFields(cols + extra, l) == ReadFields(cols, l)
  {
    assert forall i :: 0 <= i < |cols| ==> (cols + extra)[i] == cols[i];
  }

  /** Splitting at a `;` and trimming the pieces works piece by piece. */
  lemma FieldsConcat(a: string, b: string)
    ensures Fields(a + ";" + b) == Fields(a) + Fields(b)
  {
    assert a + ";" + b == a + [';'] + b;
    SplitConcat(a, ';', b);
    TrimAllConcat(Split(a, ';'), Split(b, ';'));
  }

  /** The same at the level of text: appending `;` and more fields to a
      line that already has enough of them changes nothing. */
  lemma ExtraTextIgnored(line: string, more: string, l: ValidLayout)
    requires line != [] && Trimmed(line) && Trimmed(more)
    requires |Fields(line)| >= l.width
    ensures ReadRow(line + ";" + more, l) == ReadRow(line, l)
  {
    var s := line + ";" + more;
    assert s[0] == line[0];
    assert s[|s| - 1] == if more == [] then ';' else more[|more| - 1];
    TrimTrimmed(s);
    TrimTrimmed(line);
    FieldsConcat(line, more);
    ExtraFieldsIgnored(Fields(line), Fields(more), l);
  }

  // ---------------------------------------------------------------- all data lines

  /** The reader of the loop body for one header layout. */
  function RowReader(l: ValidLayout): Reader
  {
    line => ReadRow(line, l)
  }

  /** The contacts the loop pushes for `rows`, in order. */
  function ParseRows(rows: seq<string>, read: Reader): (r: seq<Contact>)
    ensures |r| <= |rows|
  {
    if rows == [] then []
    else
      var prev := ParseRows(rows[..|rows| - 1], read);
      match read(rows[|rows| - 1])
      case Success(c) => prev + [c]
      case Failure(_) => prev
  }

  /** Rows are read independently and their contacts keep the rows' order. */
  lemma {:induction false} ParseRowsAppend(a: seq<string>, b: seq<string>, read: Reader)
    ensures ParseRows(a + b, read) == ParseRows(a, read) + ParseRows(b, read)
    decreases |b|
  {
    if b == [] {
      assert a + b == a;
    } else {
      assert (a + b)[..|a + b| - 1] == a + b[..|b| - 1];
      ParseRowsAppend(a, b[..|b| - 1], read);
    }
  }

  /** One more row adds its contact at the end, or nothing. */
  lemma ParseRowsSnoc(rows: seq<string>, x: string, read: Reader)
    ensures ParseRows(rows + [x], read) ==
              if read(x).Success? then ParseRows(rows, read) + [read(x).value] else ParseRows(rows, read)
  {
    assert (rows + [x])[..|rows|] == rows;
  }

  /** The loop's step from the rows before `lines[i]` to the rows up to it. */
  lemma ParseRowsStep(lines: seq<string>, i: nat, read: Reader)
    requires 1 <= i < |lines|
    ensures ParseRows(lines[1..i + 1], read) ==
              if read(lines[i]).Success? then ParseRows(lines[1..i], read) + [read(lines[i]).value]
              else ParseRows(lines[1..i], read)
  {
    assert lines[1..i + 1] == lines[1..i] + [lines[i]];
    ParseRowsSnoc(lines[1..i], lines[i], read);
  }

  /** Rows that each read into the matching contact give exactly those contacts. */
  lemma {:induction false} ParseRowsAll(rows: seq<string>, read: Reader, cs: seq<Contact>)
    requires |rows| == |cs|
    requires forall i :: 0 <= i < |rows| ==> read(rows[i]) == Success(cs[i])
    ensures ParseRows(rows, read) == cs
    decreases |rows|
  {
    if rows != [] {
      var n := |rows| - 1;
      ParseRowsAll(rows[..n], read, cs[..n]);
      assert cs == cs[..n] + [cs[n]];
    }
  }

  /** Rows that all fail to read give no contact. */
  lemma {:induction false} ParseRowsNone(rows: seq<string>, read: Reader)
    requires forall i :: 0 <= i < |rows| ==> read(rows[i]).Failure?
    ensures ParseRows(rows, read) == []
    decreases |rows|
  {
    if rows != [] {
      ParseRowsNone(rows[..|rows| - 1], read);
    }
  }

  /** A contact is imported exactly when some row reads as it. */
  lemma {:induction false} ParseRowsMembers(rows: seq<string>, read: Reader, c: Contact)
    ensures c in ParseRows(rows, read) <==> exists i :: 0 <= i < |rows| && read(rows[i]) == Success(c)
  {
    if rows != [] {
      var init := rows[..|rows| - 1];
      ParseRowsMembers(init, read, c);
      if exists i :: 0 <= i < |init| && read(init[i]) == Success(c) {
        var i :| 0 <= i < |init| && read(init[i]) == Success(c);
        assert rows[i] == init[i];
      }
      if exists i :: 0 <= i < |rows| && read(rows[i]) == Success(c) {
        var i :| 0 <= i < |rows| && read(rows[i]) == Success(c);
        if i < |init| {
          assert init[i] == rows[i];
        }
      }
    }
  }

  /** Every imported contact is well formed. */
  lemma ParseRowsWellFormed(rows: seq<string>, l: ValidLayout, c: Contact)
    requires c in ParseRows(rows, RowReader(l))
    ensures WellFormed(c)
  {
    ParseRowsMembers(rows, RowReader(l), c);
    var i :| 0 <= i < |rows| && RowReader(l)(rows[i]) == Success(c);
    ReadRowWellFormed(rows[i], l);
  }

  // ---------------------------------------------------------------- the whole file

  /** The outcome of `processCsvFile` on the text of a file. */
  function ParseCsv(text: string): (r: Result<Parsed, CsvError>)
    ensures r.Success? ==>
              var s := r.value.stats;
              && s.validContacts == |r.value.data| >= 1
              && s.totalLines == |NonBlank(Split(text, '\n'))| - 1
              && s.totalLines == s.validContacts + s.invalidContacts
  {
    ParseLines(NonBlank(Split(text, '\n')))
  }

  /** The import once the text was cut into its non-blank lines. */
  function ParseLines(lines: seq<string>): (r: Result<Parsed, CsvError>)
    ensures r.Success? ==>
              var s := r.value.stats;
              && s.validContacts == |r.value.data| >= 1
              && s.totalLines == |lines| - 1
              && s.totalLines == s.validContacts + s.invalidContacts
  {
    if |lines| < 2 then Failure(TooFewLines) else ParseTable(Headers(lines[0]), lines[1..])
  }

  /** The import once the header line was cut into its column names. */
  function ParseTable(headers: seq<string>, rows: seq<string>): (r: Result<Parsed, CsvError>)
    ensures r.Success? ==>
              var s := r.value.stats;
              && s.validContacts == |r.value.data| >= 1
              && s.totalLines == |rows|
              && s.totalLines == s.validContacts + s.invalidContacts
  {
    var missing := Missing(headers);
    if missing != [] then Failure(MissingColumns(missing))
    else Outcome(|rows|, ParseRows(rows, RowReader(LayoutOf(headers))))
  }

  /** How the import ends once `total` data lines gave the contacts `data`. */
  function Outcome(total: nat, data: seq<Contact>): (r: Result<Parsed, CsvError>)
    requires |data| <= total
    ensures r.Success? ==>
              var s := r.value.stats;
              && r.value.data == data != []
              && s.validContacts == |data| && s.totalLines == total
              && s.totalLines == s.validContacts + s.invalidContacts
    ensures r.Failure? ==> data == [] && r.error == NoValidData
  {
    if data == [] then Failure(NoValidData)
    else Success(Parsed(data, Stats(total, |data|, total - |data|)))
  }

  /** The three ways the import rejects a file: fewer than two non-blank
      lines; a header without `name` or `phone`, naming the missing ones
      in that order; and data lines of which none reads into a contact. */
  lemma ParseCsvRejects(text: string)
    ensures var lines := NonBlank(Split(text, '\n'));
            && (ParseCsv(text) == Failure(TooFewLines) <==> |lines| < 2)
            && (ParseCsv(text).Failure? && ParseCsv(text).error.MissingColumns? <==>
                  |lines| >= 2 && Missing(Headers(lines[0])) != [])
            && (ParseCsv(text).Failure? && ParseCsv(text).error.MissingColumns? ==>
                  ParseCsv(text).error == MissingColumns(Missing(Headers(lines[0]))))
            && (ParseCsv(text) == Failure(NoValidData) <==>
                  |lines| >= 2 && Missing(Headers(lines[0])) == [] &&
                  ParseRows(lines[1..], RowReader(LayoutOf(Headers(lines[0])))) == [])
  {
  }

  /** `processCsvFile`'s `onload` body: split and filter the lines, then
      import them. */
  method ProcessCsvFile(text: string) returns (r: Result<Parsed, CsvError>)
    ensures r == ParseCsv(text)
  {
    var lines := NonBlank(Split(text, '\n'));
    r := ProcessLines(lines);
  }

  /** The rest of the `onload` body: at least a header and a data line. */
  method ProcessLines(lines: seq<string>) returns (r: Result<Parsed, CsvError>)
    ensures r == ParseLines(lines)
  {
    if |lines| < 2 {
      return Failure(TooFewLines);
    }
    r := ProcessTable(lines);
  }

  /** Check the header, read the data lines, resolve with the counts. */
  method ProcessTable(lines: seq<string>) returns (r: Result<Parsed, CsvError>)
    requires |lines| >= 1
    ensures r == ParseTable(Headers(lines[0]), lines[1..])
  {
    var headers := Headers(lines[0]);
    var missing := Missing(headers);
    if |missing| > 0 {
      return Failure(MissingColumns(missing));
    }
    var data := ReadRows(lines, headers);
    if |data| == 0 {
      return Failure(NoValidData);
    }
    return Success(Parsed(data, Stats(|lines| - 1, |data|, (|lines| - 1) - |data|)));
  }

  /** The loop over the data lines `lines[1..]`, pushing the contact of
      each line the checks accept. */
  method ReadRows(lines: seq<string>, headers: seq<string>) returns (data: seq<Contact>)
    requires |lines| >= 1 && "name" in headers && "phone" in headers
    ensures data == ParseRows(lines[1..], RowReader(LayoutOf(headers)))
  {
    data := [];
    var nameIndex := IndexOf(headers, "name");
    var phoneIndex := IndexOf(headers, "phone");
    var emailIndex := IndexOf(headers, "email");
    ghost var read := RowReader(LayoutOf(headers));
    for i := 1 to |lines|
      invariant data == ParseRows(lines[1..i], read)
    {
      ParseRowsStep(lines, i, read);
      var contact := ReadLine(lines[i], headers, nameIndex, phoneIndex, emailIndex);
      if contact.Some? {
        data := data + [contact.value];
      }
    }
    assert lines[1..|lines|] == lines[1..];
  }

  /** The loop body for one data line: the contact it pushes, or `None`
      where the source moves on with `continue`. */
  method ReadLine(raw: string, headers: seq<string>, nameIndex: int, phoneIndex: int, emailIndex: int)
    returns (contact: Option<Contact>)
    requires "name" in headers && "phone" in headers
    requires nameIndex == IndexOf(headers, "name") && phoneIndex == IndexOf(headers, "phone")
    requires emailIndex == IndexOf(headers, "email")
    ensures var o := ReadRow(raw, LayoutOf(headers));
            contact == if o.Success? then Some(o.value) else None
  {
    var line := Trim(raw);
    if line == [] {
      return None;
    }
    var columns := Fields(line);
    if |columns| < |headers| {
      return None;
    }
    var name := columns[nameIndex];
    var phone := columns[phoneIndex];
    var email := if emailIndex >= 0 then columns[emailIndex] else "";
    if name == [] || phone == [] {
      return None;
    }
    var formatted := FormatPhone(phone);
    if formatted.Failure? {
      return None;
    }
    return Some(Contact(name, formatted.value, if email == [] then None else Some(email)));
  }

  /** A whitespace-only line anywhere in the file changes nothing: not the
      contacts and not the counts. */
  lemma BlankLineIgnored(a: string, w: string, b: string)
    requires '\n' !in w && Trim(w) == []
    ensures ParseCsv(a + "\n" + w + "\n" + b) == ParseCsv(a + "\n" + b)
  {
    BlankLineDropped(a, w, b);
  }

  lemma BlankLineDropped(a: string, w: string, b: string)
    requires '\n' !in w && Trim(w) == []
    ensures NonBlank(Split(a + "\n" + w + "\n" + b, '\n')) == NonBlank(Split(a + "\n" + b, '\n'))
  {
    var d := '\n';
    var tail := w + [d] + b;
    assert a + "\n" + w + "\n" + b == a + [d] + tail;
    assert a + "\n" + b == a + [d] + b;
    SplitConcat(a, d, tail);
    SplitConcat(w, d, b);
    SplitNoSeparator(w, d);
    var sa, sb := Split(a, d), Split(b, d);
    assert Split(tail, d) == [w] + sb;
    SplitConcat(a, d, b);
    NonBlankConcat(sa, [w] + sb);
    NonBlankConcat(sa, sb);
    assert ([w] + sb)[1..] == sb;
    assert NonBlank([w] + sb) == NonBlank(sb);
  }

  // ---------------------------------------------------------------- the header pre-flight check

  /** `validateCsvStructure` on the decoded start of the file: resolves
      `true` when the first line names both required columns, otherwise
      rejects with the missing ones. */
  function ValidateStructure(head: string): (r: Result<bool, seq<string>>)
    ensures var m := Missing(Headers(Split(head, '\n')[0]));
            && (r.Success? <==> m == [])
            && (r.Failure? ==> r.error == m)
    ensures r.Success? ==> r.value
  {
    var headers := Headers(Split(head, '\n')[0]);
    if "name" in headers && "phone" in headers then Success(true)
    else Failure(Missing(headers))
  }

  /** Reading only the start of the file is enough once the start holds a
      whole first line. */
  lemma ValidatePrefix(head: string, rest: string)
    requires '\n' in head
    ensures ValidateStructure(head + rest) == ValidateStructure(head)
  {
    SplitFirst(head, rest, '\n');
  }

  /** When the file's raw first line is a non-blank header and the file has
      at least two non-blank lines, the pre-flight check rejects exactly
      the files that the import rejects for missing columns, with the same
      list. A one-line file is refused by the import as too short even
      where the pre-flight check names a missing column. */
  lemma ValidateAgreesWithParse(text: string)
    requires Trim(Split(text, '\n')[0]) != []
    requires |NonBlank(Split(text, '\n'))| >= 2
    ensures ValidateStructure(text).Success? <==>
              !(ParseCsv(text).Failure? && ParseCsv(text).error.MissingColumns?)
    ensures ValidateStructure(text).Failure? ==>
              ParseCsv(text) == Failure(MissingColumns(ValidateStructure(text).error))
  {
    var ls := Split(text, '\n');
    assert ls == [ls[0]] + ls[1..];
    NonBlankConcat([ls[0]], ls[1..]);
    assert NonBlank(ls)[0] == ls[0];
  }

  /** Outside those conditions the two can part: the one-line file `name`
      is refused by the pre-flight check for lacking `phone`, and by the
      import as too short. */
  lemma OneLineFileDisagrees()
    ensures ValidateStructure("name") == Failure(["phone"])
    ensures ParseCsv("name") == Failure(TooFewLines)
  {
    NameOnlyLine();
    assert Missing(["name"]) == ["phone"];
  }

  lemma NameOnlyLine()
    ensures Split("name", '\n') == ["name"]
    ensures NonBlank(["name"]) == ["name"]
    ensures Headers("name") == ["name"]
  {
    SplitNoSeparator("name", '\n');
    SplitNoSeparator("name", ';');
    assert Trim("name") == "name";
  }
}
