/** The single-channel dispatch form (`src/pages/Dispatch.jsx`): one
    channel, one template, a contact file and the pause between messages;
    its submit is simulated and only resets the form. */
module Dispatch {
  import opened Wrappers
  import opened CsvContacts
  import opened Interval
  import opened Upload
  import ChannelStatus

  /** The form fields; the channel and the template are the chosen ids,
      empty while none is chosen. */
  datatype DispatchForm = DispatchForm(
    name: string,
    channel: string,
    template: string,
    scheduledDateTime: string,
    pause: Pause)

  const DefaultForm := DispatchForm("", "", "", "", DefaultPause)

  /** This form's `getQualityText`: green is High, red is Low, anything
      else Indefinido. */
  function QualityText(rating: Option<string>): (r: string)
    ensures r in {"High", "Low", "Indefinido"}
    ensures r == "Indefinido" <==> ChannelStatus.RatingKey(rating) != Some("green") && ChannelStatus.RatingKey(rating) != Some("red")
  {
    var k := ChannelStatus.RatingKey(rating);
    if k == Some("green") then "High"
    else if k == Some("red") then "Low"
    else "Indefinido"
  }

  /** The two pages' quality words agree on green and red; where the status
      page says Medium, this form says Indefinido. */
  lemma QualityTextAgrees(rating: Option<string>)
    ensures ChannelStatus.QualityText(rating) == "Medium" <==> QualityText(rating) == "Indefinido"
    ensures ChannelStatus.QualityText(rating) != "Medium" ==> QualityText(rating) == ChannelStatus.QualityText(rating)
  {
  }

  class DispatchPage {
    var csvFile: Option<SourceFile>
    var csvData: seq<Contact>
    var csvStats: Option<Stats>
    var csvError: Option<UploadError>
    var form: DispatchForm

    /** The upload fields as one value. */
    function Upload(): FileState
      reads this
    {
      FileState(csvFile, csvData, csvStats, csvError)
    }

    /** The contacts and counts shown are what the file kept imports to;
        by `UploadCoherent` and `UploadCounted`, every upload and every
        reset leaves the page so. */
    predicate FileCoherent()
      reads this
    {
      Coherent(csvFile, csvData, csvError) && Counted(Upload())
    }

    constructor()
      ensures Upload() == NoFile && form == DefaultForm
      ensures FileCoherent()
    {
      csvFile := None;
      csvData := [];
      csvStats := None;
      csvError := None;
      form := DefaultForm;
    }

    /** `handleFileUpload`: the page ends in the net effect of the
        handler's state updates. */
    method HandleFileUpload(file: Option<SourceFile>)
      modifies this
      ensures Upload() == AfterUpload(old(Upload()), file)
      ensures form == old(form)
    {
      var r := AfterUpload(Upload(), file);
      assert r == AfterUpload(old(Upload()), file);
      csvFile, csvData, csvStats, csvError := r.file, r.data, r.stats, r.error;
      assert Upload() == r;
    }

    /** The lower interval slider. */
    method SlideMin(newMin: int)
      modifies this
      ensures form == old(form).(pause := MinMoved(old(form).pause, newMin))
      ensures Ordered(form.pause)
      ensures Upload() == old(Upload())
    {
      form := form.(pause := MinMoved(form.pause, newMin));
    }

    /** The upper interval slider. */
    method SlideMax(newMax: int)
      modifies this
      ensures form == old(form).(pause := MaxMoved(old(form).pause, newMax))
      ensures Ordered(form.pause)
      ensures Upload() == old(Upload())
    {
      form := form.(pause := MaxMoved(form.pause, newMax));
    }

    /** `isFormValid`: every field filled and at least one contact. */
    predicate IsFormValid()
      reads this
      ensures IsFormValid() ==> form != DefaultForm && csvData != []
    {
      form.name != "" && form.channel != "" && form.template != "" && form.scheduledDateTime != "" && |csvData| > 0
    }

    /** What the simulated submit does once its timers have fired: the file,
        the contacts, the counts and the fields are reset; an error shown
        stays. */
    method FinishSend()
      modifies this
      ensures Upload() == NoFile.(error := old(csvError)) && form == DefaultForm
      ensures FileCoherent()
    {
      csvFile, csvData, csvStats := None, [], None;
      form := DefaultForm;
    }
  }

  /** On a coherent page a valid form holds a file whose import succeeded,
      with exactly the contacts and counts shown. */
  lemma ValidFormImported(p: DispatchPage)
    requires p.IsFormValid() && p.FileCoherent()
    ensures p.csvError.None? && p.csvFile.Some? && p.csvStats.Some?
    ensures ParseCsv(p.csvFile.value.text) == Success(Parsed(p.csvData, p.csvStats.value))
    ensures p.csvStats.value.validContacts == |p.csvData|
  {
    UploadSuccess(p.csvFile.value);
  }
}
