/** The sample file `generateSampleCsv` offers for download, and the proof
    that the importer accepts every one of its rows. */
module CsvSample {
  import opened Wrappers
  import opened Text
  import opened Phone
  import opened CsvContacts
  import opened CsvDocument

  // The rows of the sample file, as `generateSampleCsv` writes them, and
  // the contacts they import into.
  function Sample0(): Row { Row("João Silva", "11999999999", "joao@email.com") }
  function Sample1(): Row { Row("Maria Santos", "(11) 88888-8888", "maria@email.com") }
  function Sample2(): Row { Row("Pedro Oliveira", "+5511777777777", "") }
  function Sample3(): Row { Row("Ana Costa", "11 66666-6666", "ana@email.com") }
  function Sample4(): Row { Row("Carlos Ferreira", "11955555555", "") }
  function Sample5(): Row { Row("Fernanda Lima", "21987654321", "fernanda@email.com") }
  function Sample6(): Row { Row("Roberto Souza", "11944444444", "") }
  function Sample7(): Row { Row("Juliana Pereira", "11933333333", "juliana@email.com") }
  function Sample8(): Row { Row("Marcos Almeida", "11922222222", "") }
  function Sample9(): Row { Row("Camila Rocha", "11911111111", "camila@email.com") }

  function Imported0(): Contact { Contact("João Silva", "+5511999999999", Some("joao@email.com")) }
  function Imported1(): Contact { Contact("Maria Santos", "+5511888888888", Some("maria@email.com")) }
  function Imported2(): Contact { Contact("Pedro Oliveira", "+5511777777777", None) }
  function Imported3(): Contact { Contact("Ana Costa", "+5511666666666", Some("ana@email.com")) }
  function Imported4(): Contact { Contact("Carlos Ferreira", "+5511955555555", None) }
  function Imported5(): Contact { Contact("Fernanda Lima", "+5521987654321", Some("fernanda@email.com")) }
  function Imported6(): Contact { Contact("Roberto Souza", "+5511944444444", None) }
  function Imported7(): Contact { Contact("Juliana Pereira", "+5511933333333", Some("juliana@email.com")) }
  function Imported8(): Contact { Contact("Marcos Almeida", "+5511922222222", None) }
  function Imported9(): Contact { Contact("Camila Rocha", "+5511911111111", Some("camila@email.com")) }

  /** Row `k` of the sample file. */
  function SampleRow(k: nat): Row
    requires k < 10
  {
    match k
    case 0 => Sample0() case 1 => Sample1() case 2 => Sample2() case 3 => Sample3()
    case 4 => Sample4() case 5 => Sample5() case 6 => Sample6() case 7 => Sample7()
    case 8 => Sample8() case _ => Sample9()
  }

  /** The ten rows of the sample file. */
  function SampleRows(): seq<Row>
  {
    seq(10, k requires 0 <= k < 10 => SampleRow(k))
  }

  /** The sample file's text: the header and the ten rows, one per line. */
  function SampleCsv(): string
  {
    Document(Header, SampleRows())
  }

  /** The contact row `k` of the sample file imports into. */
  function SampleContact(k: nat): Contact
    requires k < 10
  {
    match k
    case 0 => Imported0() case 1 => Imported1() case 2 => Imported2() case 3 => Imported3()
    case 4 => Imported4() case 5 => Imported5() case 6 => Imported6() case 7 => Imported7()
    case 8 => Imported8() case _ => Imported9()
  }

  /** The ten contacts the sample file imports into. */
  function SampleContacts(): seq<Contact>
  {
    seq(10, k requires 0 <= k < 10 => SampleContact(k))
  }

  /** The sample file imports ten contacts and no invalid line; its four
      phone formats (digits only, a parenthesised area code, `+55` in front,
      a space after the area code) all end up canonical. */
  lemma SampleImports()
    ensures ParseCsv(SampleCsv()) == Success(Parsed(SampleContacts(), Stats(10, 10, 0)))
  {
    var rows, cs := SampleRows(), SampleContacts();
    forall i | 0 <= i < |rows|
      ensures PlainRow(rows[i]) && ReadRow(LineOf(rows[i]), StandardLayout()) == Success(cs[i])
    {
      SampleRowImports(i);
    }
    ParseDocument(Header, rows, cs);
  }

  /** Row `k` of the sample file is plain and reads into contact `k`. */
  lemma SampleRowImports(k: nat)
    requires k < 10
    ensures PlainRow(SampleRows()[k]) && ReadRow(LineOf(SampleRows()[k]), StandardLayout()) == Success(SampleContacts()[k])
  {
    if k == 0 { SampleReads0(); }
    else if k == 1 { SampleReads1(); }
    else if k == 2 { SampleReads2(); }
    else if k == 3 { SampleReads3(); }
    else if k == 4 { SampleReads4(); }
    else if k == 5 { SampleReads5(); }
    else if k == 6 { SampleReads6(); }
    else if k == 7 { SampleReads7(); }
    else if k == 8 { SampleReads8(); }
    else { SampleReads9(); }
  }

  // Each sample row reads into its contact: one lemma per row, by the
  // shape of its phone number.

  lemma SampleReads1()
    ensures PlainRow(SampleRows()[1]) && ReadRow(LineOf(SampleRows()[1]), StandardLayout()) == Success(SampleContacts()[1])
  {
    assert SampleRows()[1] == Sample1() && SampleContacts()[1] == Imported1();
    SamplePlain1();
    assert FormattedShape(Sample1(), Imported1(), "11", "88888", "8888");
    FormattedReads(Sample1(), Imported1(), "11", "88888", "8888");
  }

  lemma SampleReads2()
    ensures PlainRow(SampleRows()[2]) && ReadRow(LineOf(SampleRows()[2]), StandardLayout()) == Success(SampleContacts()[2])
  {
    assert SampleRows()[2] == Sample2() && SampleContacts()[2] == Imported2();
    SamplePlain2();
    assert PlusShape(Sample2(), Imported2(), "5511777777777");
    PlusReads(Sample2(), Imported2(), "5511777777777");
  }

  lemma SampleReads3()
    ensures PlainRow(SampleRows()[3]) && ReadRow(LineOf(SampleRows()[3]), StandardLayout()) == Success(SampleContacts()[3])
  {
    assert SampleRows()[3] == Sample3() && SampleContacts()[3] == Imported3();
    SamplePlain3();
    assert FormattedShape(Sample3(), Imported3(), "11", "66666", "6666");
    FormattedReads(Sample3(), Imported3(), "11", "66666", "6666");
  }

  lemma SampleReads0()
    ensures PlainRow(SampleRows()[0]) && ReadRow(LineOf(SampleRows()[0]), StandardLayout()) == Success(SampleContacts()[0])
  {
    assert SampleRows()[0] == Sample0() && SampleContacts()[0] == Imported0();
    SamplePlain0();
    assert LocalShape(Sample0(), Imported0());
    LocalReads(Sample0(), Imported0());
  }

  lemma SampleReads4()
    ensures PlainRow(SampleRows()[4]) && ReadRow(LineOf(SampleRows()[4]), StandardLayout()) == Success(SampleContacts()[4])
  {
    assert SampleRows()[4] == Sample4() && SampleContacts()[4] == Imported4();
    SamplePlain4();
    assert LocalShape(Sample4(), Imported4());
    LocalReads(Sample4(), Imported4());
  }

  lemma SampleReads5()
    ensures PlainRow(SampleRows()[5]) && ReadRow(LineOf(SampleRows()[5]), StandardLayout()) == Success(SampleContacts()[5])
  {
    assert SampleRows()[5] == Sample5() && SampleContacts()[5] == Imported5();
    SamplePlain5();
    assert LocalShape(Sample5(), Imported5());
    LocalReads(Sample5(), Imported5());
  }

  lemma SampleReads6()
    ensures PlainRow(SampleRows()[6]) && ReadRow(LineOf(SampleRows()[6]), StandardLayout()) == Success(SampleContacts()[6])
  {
    assert SampleRows()[6] == Sample6() && SampleContacts()[6] == Imported6();
    SamplePlain6();
    assert LocalShape(Sample6(), Imported6());
    LocalReads(Sample6(), Imported6());
  }

  lemma SampleReads7()
    ensures PlainRow(SampleRows()[7]) && ReadRow(LineOf(SampleRows()[7]), StandardLayout()) == Success(SampleContacts()[7])
  {
    assert SampleRows()[7] == Sample7() && SampleContacts()[7] == Imported7();
    SamplePlain7();
    assert LocalShape(Sample7(), Imported7());
    LocalReads(Sample7(), Imported7());
  }

  lemma SampleReads8()
    ensures PlainRow(SampleRows()[8]) && ReadRow(LineOf(SampleRows()[8]), StandardLayout()) == Success(SampleContacts()[8])
  {
    assert SampleRows()[8] == Sample8() && SampleContacts()[8] == Imported8();
    SamplePlain8();
    assert LocalShape(Sample8(), Imported8());
    LocalReads(Sample8(), Imported8());
  }

  lemma SampleReads9()
    ensures PlainRow(SampleRows()[9]) && ReadRow(LineOf(SampleRows()[9]), StandardLayout()) == Success(SampleContacts()[9])
  {
    assert SampleRows()[9] == Sample9() && SampleContacts()[9] == Imported9();
    SamplePlain9();
    assert LocalShape(Sample9(), Imported9());
    LocalReads(Sample9(), Imported9());
  }

  // No name or email of the sample holds a separator, a line break or
  // surrounding blanks.

  lemma SamplePlain0()
    ensures Sample0().name != [] && FieldText(Sample0().name) && FieldText(Sample0().email)
  {
  }

  lemma SamplePlain1()
    ensures Sample1().name != [] && FieldText(Sample1().name) && FieldText(Sample1().email)
  {
  }

  lemma SamplePlain2()
    ensures Sample2().name != [] && FieldText(Sample2().name) && FieldText(Sample2().email)
  {
  }

  lemma SamplePlain3()
    ensures Sample3().name != [] && FieldText(Sample3().name) && FieldText(Sample3().email)
  {
  }

  lemma SamplePlain4()
    ensures Sample4().name != [] && FieldText(Sample4().name) && FieldText(Sample4().email)
  {
  }

  lemma SamplePlain5()
    ensures Sample5().name != [] && FieldText(Sample5().name) && FieldText(Sample5().email)
  {
  }

  lemma SamplePlain6()
    ensures Sample6().name != [] && FieldText(Sample6().name) && FieldText(Sample6().email)
  {
  }

  lemma SamplePlain7()
    ensures Sample7().name != [] && FieldText(Sample7().name) && FieldText(Sample7().email)
  {
  }

  lemma SamplePlain8()
    ensures Sample8().name != [] && FieldText(Sample8().name) && FieldText(Sample8().email)
  {
  }

  lemma SamplePlain9()
    ensures Sample9().name != [] && FieldText(Sample9().name) && FieldText(Sample9().email)
  {
  }
}
