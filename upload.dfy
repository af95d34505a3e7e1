/** `handleFileUpload` of both dispatch forms, up to the state it sets:
    the name must end in `.csv` in any case, then the header pre-flight
    check reads the start of the file, then the whole file is imported. */
module Upload {
  import opened Wrappers
  import opened Text
  import opened CsvContacts

  /** A chosen file: its name and its decoded text. */
  datatype SourceFile = SourceFile(name: string, text: string)

  /** What the form shows under the file input. */
  datatype UploadError =
    | NotCsv
    | Structure(missing: seq<string>)
    | Import(error: CsvError)

  /** `file.name.toLowerCase().endsWith('.csv')`. */
  predicate IsCsvName(name: string)
  {
    EndsWith(Lower(name), ".csv")
  }

  /** How much of the file the pre-flight check reads. */
  const HeadLength := 500

  /** `file.slice(0, 500)`. */
  function Head(text: string): (r: string)
    ensures |r| <= HeadLength && r <= text
  {
    if |text| <= HeadLength then text else text[..HeadLength]
  }

  /** The upload's outcome: the imported contacts and counts, or the error
      shown. */
  function UploadOutcome(f: SourceFile): (r: Result<Parsed, UploadError>)
    ensures r.Success? ==> ParseCsv(f.text) == Success(r.value)
    ensures r.Failure? && r.error.Structure? ==>
              IsCsvName(f.name) && r.error.missing != [] && ValidateStructure(Head(f.text)) == Failure(r.error.missing)
    ensures r.Failure? && r.error.Import? ==>
              IsCsvName(f.name) && ParseCsv(f.text) == Failure(r.error.error)
  {
    if !IsCsvName(f.name) then Failure(NotCsv)
    else match ValidateStructure(Head(f.text))
      case Failure(missing) => Failure(Structure(missing))
      case Success(_) =>
        match ParseCsv(f.text)
        case Failure(e) => Failure(Import(e))
        case Success(p) => Success(p)
  }

  /** The name is checked first: only a name without `.csv` gives
      `NotCsv`. */
  lemma NameCheckedFirst(f: SourceFile)
    ensures UploadOutcome(f) == Failure(NotCsv) <==> !IsCsvName(f.name)
  {
  }

  lemma {:induction false} LowerLength(s: string, i: int)
    requires 0 <= i < |s|
    ensures |Lower(s)| == |s| && Lower(s)[i] == LowerChar(s[i])
  {
    if i > 0 {
      LowerLength(s[1..], i - 1);
    }
  }

  /** The name check ignores case. */
  lemma CsvNameIgnoresCase(a: string, b: string)
    requires Lower(a) == Lower(b)
    ensures IsCsvName(a) <==> IsCsvName(b)
  {
  }

  /** A name ending in `.csv`, in any case of its letters, passes. */
  lemma CsvNamePasses(stem: string, ext: string)
    requires |ext| == 4 && ext[0] == '.' && LowerChar(ext[1]) == 'c' && LowerChar(ext[2]) == 's' && LowerChar(ext[3]) == 'v'
    ensures IsCsvName(stem + ext)
  {
    var s := stem + ext;
    var l := Lower(s);
    forall k | 0 <= k < 4
      ensures l[|stem| + k] == ".csv"[k]
    {
      LowerLength(s, |stem| + k);
    }
    assert l[|s| - 4..] == ".csv";
  }

  /** A successful upload imported the whole file: it has a `.csv` name and
      its import succeeded with at least one contact. */
  lemma UploadSuccess(f: SourceFile)
    ensures UploadOutcome(f).Success? ==>
              IsCsvName(f.name) && ParseCsv(f.text) == Success(UploadOutcome(f).value) &&
              |UploadOutcome(f).value.data| >= 1
  {
  }

  /** When the raw first line is a non-blank header that ends within the
      first 500 characters, and the file has at least two non-blank lines,
      the pre-flight check changes nothing: the upload succeeds exactly
      when the name is a `.csv` name and the import succeeds. A file that
      opens with a blank line is the case it does change
      (`BlankFirstLineRefused`). */
  lemma UploadAgreesWithImport(f: SourceFile)
    requires '\n' in Head(f.text)
    requires Trim(Split(f.text, '\n')[0]) != []
    requires |NonBlank(Split(f.text, '\n'))| >= 2
    ensures UploadOutcome(f).Success? <==> IsCsvName(f.name) && ParseCsv(f.text).Success?
  {
    var h := Head(f.text);
    if |f.text| > HeadLength {
      assert f.text == h + f.text[HeadLength..];
      ValidatePrefix(h, f.text[HeadLength..]);
    }
    ValidateAgreesWithParse(f.text);
  }

  /** Where they part: the pre-flight check reads the raw first line while
      the import drops blank lines, so a `.csv` file that opens with an
      empty line is refused for lacking both columns, whatever the import
      of the rest would give. */
  lemma BlankFirstLineRefused(f: SourceFile, rest: string)
    requires IsCsvName(f.name) && f.text == "\n" + rest
    ensures ParseCsv(f.text) == ParseCsv(rest)
    ensures UploadOutcome(f) == Failure(Structure(["name", "phone"]))
  {
    BlankLineSkipped(rest);
    BlankHeaderMissing(Head(f.text));
  }

  lemma BlankLineSkipped(rest: string)
    ensures NonBlank(Split("\n" + rest, '\n')) == NonBlank(Split(rest, '\n'))
  {
    var d := '\n';
    assert "\n" + rest == [] + [d] + rest;
    SplitConcat([], d, rest);
    assert Split([], d) == [[]];
    NonBlankConcat([[]], Split(rest, d));
    assert NonBlank([[]]) == [] by {
      assert Trim([]) == [];
    }
  }

  lemma BlankHeaderMissing(h: string)
    requires h != [] && h[0] == '\n'
    ensures ValidateStructure(h) == Failure(["name", "phone"])
  {
    SplitCons(h, '\n');
    assert Split(h, '\n')[0] == [];
    assert Split([], ';') == [[]];
    assert Headers([]) == [[]];
  }

  /** The part of a form's state that `handleFileUpload` sets: the file
      kept, its contacts, their counts and the error shown. */
  datatype FileState = FileState(
    file: Option<SourceFile>,
    data: seq<Contact>,
    stats: Option<Stats>,
    error: Option<UploadError>)

  /** A form before any upload. */
  const NoFile := FileState(None, [], None, None)

  /** `handleFileUpload`: no file changes nothing; otherwise the error and
      the contacts are cleared, then a name without `.csv` is refused and
      the previous file stays, a file that fails the checks is dropped,
      and a good one is kept with its contacts and counts. */
  function AfterUpload(s: FileState, file: Option<SourceFile>): (r: FileState)
    ensures file.None? ==> r == s
    ensures file.Some? && r.error.Some? ==> r.data == [] && r.stats.None?
    ensures file.Some? && r.error.None? ==> r.file == file && r.data != [] && r.stats.Some?
  {
    if file.None? then s
    else if !IsCsvName(file.value.name) then FileState(s.file, [], None, Some(NotCsv))
    else match UploadOutcome(file.value)
      case Failure(e) => FileState(None, [], None, Some(e))
      case Success(p) => FileState(file, p.data, Some(p.stats), None)
  }

  /** The contacts on the form are what its file imports to: none while an
      error is shown or no file is kept. */
  predicate Coherent(file: Option<SourceFile>, data: seq<Contact>, error: Option<UploadError>)
  {
    if error.Some? || file.None? then data == []
    else UploadOutcome(file.value).Success? && UploadOutcome(file.value).value.data == data
  }

  /** The counts on the form are those of the contacts shown: none without
      contacts, otherwise the file's import counts. */
  predicate Counted(s: FileState)
  {
    if s.data == [] then s.stats.None?
    else s.file.Some? && UploadOutcome(s.file.value).Success? && s.stats == Some(UploadOutcome(s.file.value).value.stats)
  }

  lemma NoFileCoherent()
    ensures Coherent(NoFile.file, NoFile.data, NoFile.error) && Counted(NoFile)
  {
  }

  /** Every upload leaves the contacts shown coherent with the file kept,
      and coherent contacts stay so when no file is chosen. */
  lemma UploadCoherent(s: FileState, file: Option<SourceFile>)
    requires file.Some? || Coherent(s.file, s.data, s.error)
    ensures var r := AfterUpload(s, file);
            Coherent(r.file, r.data, r.error)
  {
    if file.Some? {
      UploadSuccess(file.value);
    }
  }

  /** Likewise for the counts. */
  lemma UploadCounted(s: FileState, file: Option<SourceFile>)
    requires file.Some? || Counted(s)
    ensures Counted(AfterUpload(s, file))
  {
    if file.Some? {
      UploadSuccess(file.value);
    }
  }

  /** On a coherent form, contacts are shown exactly when the file kept
      imports successfully, and then no error is shown. */
  lemma CoherentShows(s: FileState)
    requires Coherent(s.file, s.data, s.error)
    ensures s.data != [] <==> s.error.None? && s.file.Some? && UploadOutcome(s.file.value).Success?
  {
    if s.error.None? && s.file.Some? && UploadOutcome(s.file.value).Success? {
      UploadSuccess(s.file.value);
    }
  }

  /** After an upload, the refusal of a name without `.csv` keeps the
      previous file, and any error comes without contacts or counts. */
  lemma UploadShows(s: FileState, file: Option<SourceFile>)
    requires file.Some?
    ensures var r := AfterUpload(s, file);
            && (r.error.Some? ==> r.data == [] && r.stats.None?)
            && (r.error == Some(NotCsv) <==> !IsCsvName(file.value.name))
            && (r.error == Some(NotCsv) ==> r.file == s.file)
            && (r.error.None? <==> UploadOutcome(file.value).Success?)
  {
    NameCheckedFirst(file.value);
  }
}
