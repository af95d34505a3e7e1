/** The copy of the imported contacts that the bulk-dispatch page sends to
    the server in place of the uploaded file (`handleSubmit`): a byte-order
    mark, the header `name;phone;email`, then one line per contact with
    every double quote doubled and no quoting around the fields. */
module CsvReencode {
  import opened Wrappers
  import opened Text
  import opened Phone
  import opened CsvContacts
  import opened CsvDocument

  // ---------------------------------------------------------------- escaping

  /** `String(str || '').replace(/"/g, '""')`: every double quote doubled. */
  function Escape(s: string): string
  {
    if s == [] then []
    else (if s[0] == '"' then "\"\"" else [s[0]]) + Escape(s[1..])
  }

  /** Collapses every doubled quote back into one. */
  function Unescape(s: string): string
  {
    if s == [] then []
    else if |s| >= 2 && s[0] == '"' && s[1] == '"' then "\"" + Unescape(s[2..])
    else [s[0]] + Unescape(s[1..])
  }

  /** Escaping loses nothing: collapsing the doubled quotes gives the text back. */
  lemma {:induction false} EscapeUnescape(s: string)
    ensures Unescape(Escape(s)) == s
  {
    if s != [] {
      EscapeUnescape(s[1..]);
      var rest := Escape(s[1..]);
      if s[0] == '"' {
        var e := "\"\"" + rest;
        assert e[0] == '"' && e[1] == '"' && e[2..] == rest;
      } else {
        var e := [s[0]] + rest;
        assert e[0] == s[0] && e[1..] == rest;
      }
    }
  }

  /** Escaping only adds characters, one per double quote: the text is left
      alone exactly when it holds no double quote. */
  lemma {:induction false} EscapeLength(s: string)
    ensures |Escape(s)| >= |s|
    ensures |Escape(s)| == |s| <==> '"' !in s
    ensures Escape(s) == s <==> '"' !in s
  {
    if s != [] {
      EscapeLength(s[1..]);
      assert s == [s[0]] + s[1..];
    }
  }

  /** Escaping keeps the set of characters and the first and last one. */
  lemma {:induction false} EscapeChars(s: string)
    ensures forall x :: x in Escape(s) <==> x in s
    ensures s != [] ==> Escape(s) != [] && Escape(s)[0] == s[0] && Escape(s)[|Escape(s)| - 1] == s[|s| - 1]
  {
    if s != [] {
      EscapeChars(s[1..]);
      var piece := if s[0] == '"' then "\"\"" else [s[0]];
      assert Escape(s) == piece + Escape(s[1..]);
      assert s == [s[0]] + s[1..];
      if s[1..] == [] {
        assert Escape(s) == piece;
      }
    }
  }

  // ---------------------------------------------------------------- the file

  /** The line written for one contact; a missing email is written empty. */
  function EncodedLine(c: Contact): string
  {
    Escape(c.name) + ";" + Escape(c.phone) + ";" + Escape(OrEmpty(c.email))
  }

  /** The three fields written for one contact. */
  function EncodedRow(c: Contact): Row
  {
    Row(Escape(c.name), Escape(c.phone), Escape(OrEmpty(c.email)))
  }

  function EncodedLines(cs: seq<Contact>): (r: seq<string>)
    ensures |r| == |cs|
  {
    seq(|cs|, i requires 0 <= i < |cs| => EncodedLine(cs[i]))
  }

  function EncodedRows(cs: seq<Contact>): (r: seq<Row>)
    ensures |r| == |cs|
  {
    seq(|cs|, i requires 0 <= i < |cs| => EncodedRow(cs[i]))
  }

  /** The re-encoded file, or `None` when there is no contact and the
      uploaded file is sent as it was. */
  function ReEncode(cs: seq<Contact>): Option<string>
  {
    if |cs| > 0 then Some([Bom] + Join([Header] + EncodedLines(cs), '\n')) else None
  }

  /** The re-encoded file is the document of the escaped rows under the
      header that starts with a byte-order mark. */
  lemma ReEncodeDocument(cs: seq<Contact>)
    ensures ReEncode(cs).Some? <==> |cs| > 0
    ensures |cs| > 0 ==> ReEncode(cs) == Some(Document([Bom] + Header, EncodedRows(cs)))
  {
    if |cs| > 0 {
      var rows := EncodedRows(cs);
      forall i | 0 <= i < |cs|
        ensures Lines(rows)[i] == EncodedLines(cs)[i]
      {
        LinesAt(rows, i);
      }
      assert Lines(rows) == EncodedLines(cs);
      JoinPrepend(Bom, Header, EncodedLines(cs), '\n');
    }
  }

  /** Putting a character in front of a joined text puts it in front of the
      first piece. */
  lemma JoinPrepend(x: char, first: string, rest: seq<string>, d: char)
    ensures [x] + Join([first] + rest, d) == Join([[x] + first] + rest, d)
  {
    var p, q := [first] + rest, [[x] + first] + rest;
    assert p[0] == first && p[1..] == rest;
    assert q[0] == [x] + first && q[1..] == rest;
  }

  // ---------------------------------------------------------------- importing the copy again

  /** A contact whose name and email hold no line break, and whose phone the
      formatter leaves as it is. */
  predicate Reencodable(c: Contact)
  {
    WellFormed(c) && '\n' !in c.name && '\n' !in OrEmpty(c.email) && FormatPhone(c.phone) == Success(c.phone)
  }

  /** A canonical phone holds neither a quote nor a separator nor blanks. */
  lemma CanonicalText(p: string)
    requires Canonical(p)
    ensures FieldText(p) && '"' !in p
  {
    forall i | 0 <= i < |p|
      ensures p[i] != ';' && p[i] != '\n' && p[i] != '"'
    {
      assert p[i] == '+' || IsDigit(p[i]);
    }
  }

  /** An escaped clean field is still clean. */
  lemma EscapedText(s: string)
    requires FieldText(s)
    ensures FieldText(Escape(s)) && (Escape(s) == [] <==> s == [])
  {
    EscapeChars(s);
  }

  /** The row written for a well-formed contact without line breaks is
      plain, and its phone is the contact's. */
  lemma EncodedRowPlain(c: Contact)
    requires WellFormed(c) && '\n' !in c.name && '\n' !in OrEmpty(c.email)
    ensures PlainRow(EncodedRow(c)) && EncodedRow(c).phone == c.phone
  {
    CanonicalText(c.phone);
    EscapeLength(c.phone);
    EscapedText(c.name);
    EscapedText(OrEmpty(c.email));
  }

  /** The line of a contact reads back into the contact with its name and
      email escaped: importing the copy changes a name or email exactly
      where it holds a double quote. */
  lemma ContactReimport(c: Contact)
    requires Reencodable(c)
    ensures PlainRow(EncodedRow(c))
    ensures ReadRow(LineOf(EncodedRow(c)), StandardLayout()) ==
              Success(Contact(Escape(c.name), c.phone,
                              if c.email.None? then None else Some(Escape(c.email.value))))
  {
    var w := EncodedRow(c);
    EncodedRowPlain(c);
    EscapedText(OrEmpty(c.email));
    ReadsAsContact(w, Contact(Escape(c.name), c.phone, if c.email.None? then None else Some(Escape(c.email.value))));
  }

  /** For contacts whose phone the formatter already leaves as it is and
      whose fields hold no line break, importing the copy gives them back
      with their names and emails escaped, all of them valid. A contact
      imported from 14 or 15 bare digits is not such a contact
      (`LongLocalNumberLost`). */
  lemma ReEncodeReimport(cs: seq<Contact>)
    requires |cs| >= 1
    requires forall i :: 0 <= i < |cs| ==> Reencodable(cs[i])
    ensures ParseCsv(ReEncode(cs).value) ==
              Success(Parsed(Reimported(cs), Stats(|cs|, |cs|, 0)))
  {
    ReEncodeDocument(cs);
    var rows := EncodedRows(cs);
    forall i | 0 <= i < |rows|
      ensures PlainRow(rows[i]) && ReadRow(LineOf(rows[i]), StandardLayout()) == Success(Reimported(cs)[i])
    {
      ContactReimport(cs[i]);
    }
    ParseDocument([Bom] + Header, rows, Reimported(cs));
  }

  /** The contacts the copy imports into. */
  function Reimported(cs: seq<Contact>): (r: seq<Contact>)
    ensures |r| == |cs|
  {
    seq(|cs|, i requires 0 <= i < |cs| =>
      Contact(Escape(cs[i].name), cs[i].phone,
              if cs[i].email.None? then None else Some(Escape(cs[i].email.value))))
  }

  /** For such contacts, and without double quotes, the copy imports into
      exactly the contacts it was made from. */
  lemma ReEncodeRoundTrip(cs: seq<Contact>)
    requires |cs| >= 1
    requires forall i :: 0 <= i < |cs| ==> Reencodable(cs[i])
    requires forall i :: 0 <= i < |cs| ==> '"' !in cs[i].name && '"' !in OrEmpty(cs[i].email)
    ensures ParseCsv(ReEncode(cs).value) == Success(Parsed(cs, Stats(|cs|, |cs|, 0)))
  {
    ReEncodeReimport(cs);
    ReimportedUnchanged(cs);
  }

  /** Escaping changes nothing without double quotes. */
  lemma ReimportedUnchanged(cs: seq<Contact>)
    requires forall i :: 0 <= i < |cs| ==> '"' !in cs[i].name && '"' !in OrEmpty(cs[i].email)
    ensures Reimported(cs) == cs
  {
    forall i | 0 <= i < |cs|
      ensures Reimported(cs)[i] == cs[i]
    {
      EscapeLength(cs[i].name);
      EscapeLength(OrEmpty(cs[i].email));
    }
  }

  /** A name with a double quote comes back changed. */
  lemma QuotedNameChanges(c: Contact)
    requires Reencodable(c) && '"' in c.name
    ensures var r := ReadRow(LineOf(EncodedRow(c)), StandardLayout());
            r.Success? && r.value.name != c.name
  {
    ContactReimport(c);
    EscapeLength(c.name);
  }

  /** A local number of 14 or 15 digits is accepted on import with `+55`
      in front, and the 16 or 17 digits this gives are too many when the
      copy is imported again: the contact is lost. */
  lemma LongLocalNumberLost(c: Contact, d: string)
    requires WellFormed(c) && '\n' !in c.name && '\n' !in OrEmpty(c.email)
    requires AllDigits(d) && 14 <= |d| <= 15 && FormatPhone(d) == Success(c.phone)
    ensures ParseCsv(ReEncode([c]).value) == Failure(NoValidData)
  {
    var w := EncodedRow(c);
    LongLocalRowRejected(c, d);
    ReEncodeDocument([c]);
    assert EncodedRows([c]) == [w];
    RejectDocument([Bom] + Header, [w]);
  }

  lemma LongLocalRowRejected(c: Contact, d: string)
    requires WellFormed(c) && '\n' !in c.name && '\n' !in OrEmpty(c.email)
    requires AllDigits(d) && 14 <= |d| <= 15 && FormatPhone(d) == Success(c.phone)
    ensures PlainRow(EncodedRow(c))
    ensures ReadRow(LineOf(EncodedRow(c)), StandardLayout()) == Failure(BadPhone(TooLong))
  {
    LongLocal(d);
    EncodedRowPlain(c);
    ReadPlainRow(EncodedRow(c));
  }
}
