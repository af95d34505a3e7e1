/** The bulk-dispatch form (`src/pages/MultipleDispatch.jsx`): the user
    picks channels in a table, opens a channel to load its templates,
    chooses one template per channel, uploads the contacts and submits one
    request that carries a channel list and a re-encoded copy of the
    contacts. */
module MultipleDispatch {
  import opened Wrappers
  import opened Text
  import opened CsvContacts
  import opened Interval
  import opened Upload
  import CsvReencode

  // ---------------------------------------------------------------- entities

  /** A WhatsApp channel as listed by the server; `record_id` identifies it. */
  datatype Channel = Channel(
    recordId: int,
    accountName: string,
    displayPhoneNumber: string,
    phoneId: Option<string>,
    idAccount: Option<string>)

  /** A message template of a channel's account. */
  datatype Template = Template(recordId: int, name: string)

  /** The form fields; `batchSize` holds the whole number typed in the
      batch field, `None` while the field is empty. */
  datatype Form = Form(name: string, scheduledDateTime: string, pause: Pause, batchSize: Option<int>)

  const DefaultForm := Form("", "", DefaultPause, Some(100))

  // ---------------------------------------------------------------- selections

  /** The ids of the channels in `s`. */
  function Ids(s: seq<Channel>): set<int>
  {
    set c | c in s :: c.recordId
  }

  /** `selectedChannels.find(c => c.record_id === id)`. */
  function Find(s: seq<Channel>, id: int): (r: Option<Channel>)
    ensures r.Some? <==> id in Ids(s)
    ensures r.Some? ==> r.value in s && r.value.recordId == id
  {
    if s == [] then None
    else if s[0].recordId == id then Some(s[0])
    else
      assert forall c :: c in s[1..] ==> c in s;
      assert forall c :: c in s ==> c == s[0] || c in s[1..];
      Find(s[1..], id)
  }

  /** `prev.filter(c => c.record_id !== id)`. */
  function Without(s: seq<Channel>, id: int): seq<Channel>
  {
    if s == [] then []
    else (if s[0].recordId == id then [] else [s[0]]) + Without(s[1..], id)
  }

  /** Removing an id keeps every other channel, in order, and nothing else. */
  lemma {:induction false} WithoutSpec(s: seq<Channel>, id: int)
    ensures forall c :: c in Without(s, id) <==> c in s && c.recordId != id
    ensures Ids(Without(s, id)) == Ids(s) - {id}
    ensures id !in Ids(s) ==> Without(s, id) == s
    ensures |Without(s, id)| <= |s|
  {
    if s != [] {
      WithoutSpec(s[1..], id);
      assert s == [s[0]] + s[1..];
      assert forall c :: c in s ==> c == s[0] || c in s[1..];
    }
  }

  /** No two channels of `s` share an id. */
  predicate DistinctIds(s: seq<Channel>)
  {
    forall i, j :: 0 <= i < j < |s| ==> s[i].recordId != s[j].recordId
  }

  /** Selecting a channel and deselecting it again gives back the
      selection it had. */
  lemma SelectThenDeselect(s: seq<Channel>, c: Channel)
    requires c.recordId !in Ids(s)
    ensures Without(s + [c], c.recordId) == s
  {
    WithoutAppend(s, c);
    WithoutSpec(s, c.recordId);
  }

  lemma {:induction false} WithoutAppend(s: seq<Channel>, c: Channel)
    ensures Without(s + [c], c.recordId) == Without(s, c.recordId)
  {
    if s == [] {
      assert Without([c], c.recordId) == [] + Without([], c.recordId);
    } else {
      WithoutAppend(s[1..], c);
      assert (s + [c])[1..] == s[1..] + [c];
    }
  }

  // ---------------------------------------------------------------- submitting

  /** The selected channels that have no chosen template. */
  function WithoutTemplate(s: seq<Channel>, chosen: map<int, Template>): (r: seq<Channel>)
    ensures |r| <= |s|
  {
    if s == [] then []
    else (if s[0].recordId in chosen then [] else [s[0]]) + WithoutTemplate(s[1..], chosen)
  }

  /** The channels lacking a template are exactly the selected ones whose
      id has no chosen template. */
  lemma {:induction false} WithoutTemplateSpec(s: seq<Channel>, chosen: map<int, Template>)
    ensures forall c :: c in WithoutTemplate(s, chosen) <==> c in s && c.recordId !in chosen
    ensures WithoutTemplate(s, chosen) == [] <==> forall i :: 0 <= i < |s| ==> s[i].recordId in chosen
  {
    if s != [] {
      WithoutTemplateSpec(s[1..], chosen);
      assert forall c :: c in s ==> c == s[0] || c in s[1..];
      assert forall i :: 1 <= i < |s| ==> s[i] == s[1..][i - 1];
    }
  }

  /** Which phone the server sends from: `phone_id || record_id`. */
  datatype Sender = PhoneId(phoneId: string) | RecordId(recordId: int)

  /** One entry of the request's channel list. */
  datatype Entry = Entry(channel: string, sender: Sender, displayPhoneNumber: string, template: string)

  function EntryOf(c: Channel, t: Template): Entry
  {
    Entry(c.accountName + " - " + c.displayPhoneNumber,
          if Truthy(c.phoneId) then PhoneId(c.phoneId.value) else RecordId(c.recordId),
          c.displayPhoneNumber,
          t.name)
  }

  /** The channel list: one entry per selected channel, in order. */
  function Payload(s: seq<Channel>, chosen: map<int, Template>): (r: seq<Entry>)
    requires forall i :: 0 <= i < |s| ==> s[i].recordId in chosen
    ensures |r| == |s|
  {
    seq(|s|, i requires 0 <= i < |s| => EntryOf(s[i], chosen[s[i].recordId]))
  }

  /** Each entry names its channel's chosen template and sends from the
      channel's phone id, or from its record id when it has none. */
  lemma PayloadSpec(s: seq<Channel>, chosen: map<int, Template>, i: int)
    requires forall k :: 0 <= k < |s| ==> s[k].recordId in chosen
    requires 0 <= i < |s|
    ensures Payload(s, chosen)[i].template == chosen[s[i].recordId].name
    ensures Payload(s, chosen)[i].sender == RecordId(s[i].recordId) <==> !Truthy(s[i].phoneId)
    ensures Truthy(s[i].phoneId) ==> Payload(s, chosen)[i].sender == PhoneId(s[i].phoneId.value)
  {
  }

  /** `formData.batchSize || 100`: only an empty field is falsy (a typed
      `0` is the non-empty string "0"), so only it sends the default. */
  function BatchSizeSent(b: Option<int>): (r: int)
    ensures b.None? ==> r == 100
    ensures b.Some? ==> r == b.value
  {
    if b.None? then 100 else b.value
  }

  /** The number of lots announced, `Math.ceil(contacts / batchSize)`;
      `None` where the page shows `Infinity` or `NaN` (an empty field or
      0), and a count of zero or less for a negative size. */
  function LotCount(contacts: nat, batchSize: Option<int>): Option<int>
  {
    match batchSize
    case None => None
    case Some(b) =>
      if b > 0 then Some((contacts + b - 1) / b)
      else if b < 0 then Some(-(contacts / -b))
      else None
  }

  /** The count shown is the ceiling of `contacts / batchSize` for every
      non-zero size: the least `k` with `k >= contacts / batchSize`. */
  lemma LotCeiling(contacts: nat, batchSize: Option<int>)
    ensures LotCount(contacts, batchSize).None? <==> batchSize.None? || batchSize == Some(0)
    ensures batchSize.Some? && batchSize.value > 0 ==>
              var k, b := LotCount(contacts, batchSize).value, batchSize.value;
              (k - 1) * b < contacts <= k * b
    ensures batchSize.Some? && batchSize.value < 0 ==>
              var k, b := LotCount(contacts, batchSize).value, batchSize.value;
              k * b <= contacts < (k - 1) * b && k <= 0
  {
    if batchSize.Some? && batchSize.value != 0 {
      var b := batchSize.value;
      var k := LotCount(contacts, batchSize).value;
      if b > 0 {
        var r := (contacts + b - 1) % b;
        assert contacts + b - 1 == k * b + r;
        assert (k - 1) * b == k * b - b;
      } else {
        var q := contacts / -b;
        var r := contacts % -b;
        assert contacts == q * -b + r;
        assert k * b == q * -b;
        assert (k - 1) * b == q * -b - b;
      }
    }
  }

  /** For a positive size the lots are as few as hold every contact with at
      most `batchSize` each, and there are none only without contacts. */
  lemma LotsCover(contacts: nat, batchSize: int)
    requires batchSize > 0
    ensures LotCount(contacts, Some(batchSize)).Some?
    ensures var k := LotCount(contacts, Some(batchSize)).value;
            k >= 0 && contacts <= k * batchSize && (k - 1) * batchSize < contacts + (if contacts == 0 then batchSize else 0)
    ensures LotCount(contacts, Some(batchSize)).value == 0 <==> contacts == 0
  {
    var k := (contacts + batchSize - 1) / batchSize;
    var r := (contacts + batchSize - 1) % batchSize;
    assert contacts + batchSize - 1 == k * batchSize + r;
    assert (k - 1) * batchSize == k * batchSize - batchSize;
  }

  /** What the page announces against what it posts. For a typed positive
      size, the lots shown are the fewest that hold every contact with at
      most the size posted in each. For an empty field the page shows no
      count, yet it posts 100, for which a count exists. */
  lemma LotsMatchSent(contacts: nat, b: Option<int>)
    ensures b.Some? && b.value > 0 ==>
              && LotCount(contacts, b).Some?
              && contacts <= LotCount(contacts, b).value * BatchSizeSent(b)
              && forall j: int :: 0 <= j < LotCount(contacts, b).value ==> j * BatchSizeSent(b) < contacts
    ensures b.None? ==>
              && LotCount(contacts, b).None?
              && BatchSizeSent(b) == 100
              && LotCount(contacts, Some(BatchSizeSent(b))).Some?
  {
    if b.Some? && b.value > 0 {
      var s := b.value;
      LotsCover(contacts, s);
      var k := LotCount(contacts, b).value;
      forall j: int | 0 <= j < k
        ensures j * s < contacts
      {
        assert j * s <= (k - 1) * s;
      }
    }
  }

  /** The file sent: the uploaded one, or the re-encoded copy of the
      contacts when there are any. */
  datatype Attachment = Original(file: Option<SourceFile>) | Reencoded(name: string, content: string)

  /** `name.replace(/\.csv$/i, '')`. */
  function Stem(name: string): (r: string)
    ensures r <= name
  {
    if IsCsvName(name) then name[..|name| - 4] else name
  }

  /** The copy's file name: the upload's name without `.csv`, or
      `contatos`, followed by `-utf8.csv`. */
  function CopyName(file: Option<SourceFile>): string
  {
    (if file.Some? && file.value.name != "" then Stem(file.value.name) else "contatos") + "-utf8.csv"
  }

  function AttachmentOf(file: Option<SourceFile>, data: seq<Contact>): Attachment
  {
    match CsvReencode.ReEncode(data)
    case None => Original(file)
    case Some(content) => Reencoded(CopyName(file), content)
  }

  /** The copy is named after the upload and is itself a `.csv` file. */
  lemma CopyNameIsCsv(file: Option<SourceFile>)
    ensures IsCsvName(CopyName(file))
  {
    var n := CopyName(file);
    var stem := n[..|n| - 4];
    assert n == stem + ".csv";
    CsvNamePasses(stem, ".csv");
  }

  /** The multipart request `handleSubmit` posts. */
  datatype Request = Request(
    name: string,
    channels: seq<Entry>,
    scheduledDateTime: string,
    intMin: int,
    intMax: int,
    contactCount: nat,
    batchSize: int,
    csvFile: Attachment)

  /** Either the guard stops the submit, naming how many channels lack a
      template, or the request is posted. */
  datatype SubmitOutcome = MissingTemplates(count: nat) | Send(request: Request)

  /** `formatDateTimeForSaoPaulo`, which depends on the time zone data. */
  type DateFormat = string -> string

  // ---------------------------------------------------------------- the page

  class MultipleDispatchPage {
    var channels: seq<Channel>
    var selectedChannels: seq<Channel>
    var channelTemplates: map<int, seq<Template>>
    var selectedTemplates: map<int, Template>
    var expandedChannels: set<int>
    var csvFile: Option<SourceFile>
    var csvData: seq<Contact>
    var csvError: Option<UploadError>
    var form: Form

    /** The selection collections kept in step: selected channels come from
        the list, once each, and the chosen templates and the open rows
        belong to selected channels. Loaded templates are not part of it: a
        template request answered after its channel was deselected stores
        them anyway. */
    predicate Valid()
      reads this
    {
      && DistinctIds(channels)
      && (forall c :: c in selectedChannels ==> c in channels)
      && DistinctIds(selectedChannels)
      && selectedTemplates.Keys <= Ids(selectedChannels)
      && expandedChannels <= Ids(selectedChannels)
    }

    /** The contacts kept are what the file kept imports to; by
        `UploadCoherent`, every upload leaves the page so. */
    predicate FileCoherent()
      reads this
    {
      Coherent(csvFile, csvData, csvError)
    }

    /** The page once `fetchChannels` has listed `channels`. */
    constructor(channels: seq<Channel>)
      requires DistinctIds(channels)
      ensures this.channels == channels && selectedChannels == [] && channelTemplates == map[]
      ensures selectedTemplates == map[] && expandedChannels == {}
      ensures csvFile == None && csvData == [] && csvError == None && form == DefaultForm
      ensures Valid() && FileCoherent()
    {
      this.channels := channels;
      selectedChannels := [];
      channelTemplates := map[];
      selectedTemplates := map[];
      expandedChannels := {};
      csvFile := None;
      csvData := [];
      csvError := None;
      form := DefaultForm;
    }

    /** `toggleSelectAllChannels`: checking selects every listed channel
        and keeps the rest; unchecking empties all four collections. */
    method ToggleSelectAll(checked: bool)
      modifies this
      ensures checked ==> selectedChannels == channels && channelTemplates == old(channelTemplates)
                          && selectedTemplates == old(selectedTemplates) && expandedChannels == old(expandedChannels)
      ensures !checked ==> selectedChannels == [] && channelTemplates == map[] && selectedTemplates == map[]
                           && expandedChannels == {}
      ensures channels == old(channels) && csvFile == old(csvFile) && csvData == old(csvData)
      ensures csvError == old(csvError) && form == old(form)
      ensures old(Valid()) ==> Valid()
    {
      if checked {
        if Valid() {
          IdsGrow(selectedChannels, channels);
        }
        selectedChannels := channels;
      } else {
        selectedChannels := [];
        channelTemplates := map[];
        selectedTemplates := map[];
        expandedChannels := {};
      }
    }

    /** `toggleChannelSelection`: a selected channel is removed from all
        four collections; any other is added at the end of the selection,
        without loading its templates. */
    method ToggleChannelSelection(channel: Channel)
      modifies this
      ensures var id := channel.recordId;
              if id in old(Ids(selectedChannels)) then
                && selectedChannels == Without(old(selectedChannels), id)
                && channelTemplates == old(channelTemplates) - {id}
                && selectedTemplates == old(selectedTemplates) - {id}
                && expandedChannels == old(expandedChannels) - {id}
              else
                && selectedChannels == old(selectedChannels) + [channel]
                && channelTemplates == old(channelTemplates)
                && selectedTemplates == old(selectedTemplates)
                && expandedChannels == old(expandedChannels)
      ensures channels == old(channels) && csvFile == old(csvFile) && csvData == old(csvData)
      ensures csvError == old(csvError) && form == old(form)
      ensures old(Valid()) && channel in channels ==> Valid()
    {
      ghost var wasValid := Valid();
      ghost var was := selectedChannels;
      var id := channel.recordId;
      var isSelected := Find(selectedChannels, id);
      if isSelected.Some? {
        selectedChannels := Without(selectedChannels, id);
        WithoutSpec(was, id);
        if wasValid {
          WithoutDistinct(was, id);
        }
        channelTemplates := channelTemplates - {id};
        selectedTemplates := selectedTemplates - {id};
        expandedChannels := expandedChannels - {id};
      } else {
        selectedChannels := selectedChannels + [channel];
        if wasValid && channel in channels {
          AppendDistinct(was, channel);
        }
      }
    }

    /** `toggleChannelExpansion`: opens or closes the row; opening a
        channel whose templates were never loaded asks the server for the
        templates of its account, when it has one, and stores `fetched`,
        the answer. The account asked for is returned. */
    method ToggleChannelExpansion(channelId: int, fetched: seq<Template>) returns (asked: Option<string>)
      modifies this
      ensures channelId in expandedChannels <==> channelId !in old(expandedChannels)
      ensures expandedChannels - {channelId} == old(expandedChannels) - {channelId}
      ensures asked.Some? <==>
                && channelId !in old(expandedChannels)
                && channelId !in old(channelTemplates)
                && Find(old(selectedChannels), channelId).Some?
                && Truthy(Find(old(selectedChannels), channelId).value.idAccount)
      ensures asked.Some? ==> asked == Find(old(selectedChannels), channelId).value.idAccount
      ensures channelTemplates == if asked.Some? then old(channelTemplates)[channelId := fetched] else old(channelTemplates)
      ensures channels == old(channels) && selectedChannels == old(selectedChannels)
      ensures selectedTemplates == old(selectedTemplates)
      ensures csvFile == old(csvFile) && csvData == old(csvData) && csvError == old(csvError) && form == old(form)
      ensures old(Valid()) && channelId in Ids(selectedChannels) ==> Valid()
    {
      var isCurrentlyExpanded := channelId in expandedChannels;
      if isCurrentlyExpanded {
        expandedChannels := expandedChannels - {channelId};
      } else {
        expandedChannels := expandedChannels + {channelId};
      }
      asked := None;
      if !isCurrentlyExpanded && channelId !in channelTemplates {
        var channel := Find(selectedChannels, channelId);
        if channel.Some? && Truthy(channel.value.idAccount) {
          asked := channel.value.idAccount;
          channelTemplates := channelTemplates[channelId := fetched];
        }
      }
    }

    /** `selectTemplate`: chooses `template` for the channel and changes no
        other choice. */
    method SelectTemplate(channelId: int, template: Template)
      modifies this
      ensures selectedTemplates == old(selectedTemplates)[channelId := template]
      ensures channels == old(channels) && selectedChannels == old(selectedChannels)
      ensures channelTemplates == old(channelTemplates) && expandedChannels == old(expandedChannels)
      ensures csvFile == old(csvFile) && csvData == old(csvData) && csvError == old(csvError) && form == old(form)
      ensures old(Valid()) && channelId in Ids(selectedChannels) ==> Valid()
    {
      selectedTemplates := selectedTemplates[channelId := template];
    }

    /** The lower interval slider. */
    method SlideMin(newMin: int)
      modifies this
      ensures form == old(form).(pause := MinMoved(old(form).pause, newMin))
      ensures Ordered(form.pause)
      ensures channels == old(channels) && selectedChannels == old(selectedChannels)
      ensures channelTemplates == old(channelTemplates) && selectedTemplates == old(selectedTemplates)
      ensures expandedChannels == old(expandedChannels)
      ensures csvFile == old(csvFile) && csvData == old(csvData) && csvError == old(csvError)
    {
      form := form.(pause := MinMoved(form.pause, newMin));
    }

    /** The upper interval slider. */
    method SlideMax(newMax: int)
      modifies this
      ensures form == old(form).(pause := MaxMoved(old(form).pause, newMax))
      ensures Ordered(form.pause)
      ensures channels == old(channels) && selectedChannels == old(selectedChannels)
      ensures channelTemplates == old(channelTemplates) && selectedTemplates == old(selectedTemplates)
      ensures expandedChannels == old(expandedChannels)
      ensures csvFile == old(csvFile) && csvData == old(csvData) && csvError == old(csvError)
    {
      form := form.(pause := MaxMoved(form.pause, newMax));
    }

    /** `handleFileUpload`: the page ends in the net effect of the
        handler's state updates, `AfterUpload`; this form keeps no counts. */
    method HandleFileUpload(file: Option<SourceFile>)
      modifies this
      ensures var r := AfterUpload(FileState(old(csvFile), old(csvData), None, old(csvError)), file);
              csvFile == r.file && csvData == r.data && csvError == r.error
      ensures channels == old(channels) && selectedChannels == old(selectedChannels)
      ensures channelTemplates == old(channelTemplates) && selectedTemplates == old(selectedTemplates)
      ensures expandedChannels == old(expandedChannels) && form == old(form)
    {
      var r := AfterUpload(FileState(csvFile, csvData, None, csvError), file);
      assert r == AfterUpload(FileState(old(csvFile), old(csvData), None, old(csvError)), file);
      csvFile, csvData, csvError := r.file, r.data, r.error;
    }

    /** `isFormValid`: a name, a date, at least one channel, at least one
        contact, and a template for every selected channel. */
    predicate IsFormValid()
      reads this
      ensures IsFormValid() ==> form != DefaultForm && WithoutTemplate(selectedChannels, selectedTemplates) == []
    {
      WithoutTemplateSpec(selectedChannels, selectedTemplates);
      && form.name != ""
      && form.scheduledDateTime != ""
      && |selectedChannels| > 0
      && |csvData| > 0
      && forall i :: 0 <= i < |selectedChannels| ==> selectedChannels[i].recordId in selectedTemplates
    }

    /** `handleSubmit` up to the post: the template guard, then the
        request with the channel list and the re-encoded contacts. */
    function HandleSubmit(format: DateFormat): (r: SubmitOutcome)
      reads this
      ensures r.Send? <==> WithoutTemplate(selectedChannels, selectedTemplates) == []
      ensures r.MissingTemplates? ==> r.count > 0
      ensures r.Send? ==>
                && |r.request.channels| == |selectedChannels|
                && r.request.contactCount == |csvData|
                && r.request.batchSize == BatchSizeSent(form.batchSize)
    {
      var missing := WithoutTemplate(selectedChannels, selectedTemplates);
      if |missing| > 0 then MissingTemplates(|missing|)
      else
        WithoutTemplateSpec(selectedChannels, selectedTemplates);
        Send(Request(
          form.name,
          Payload(selectedChannels, selectedTemplates),
          format(form.scheduledDateTime),
          form.pause.min,
          form.pause.max,
          |csvData|,
          BatchSizeSent(form.batchSize),
          AttachmentOf(csvFile, csvData)))
    }
  }

  /** In a list of distinct ids, the first id does not recur and the rest
      are distinct too. */
  lemma HeadApart(s: seq<Channel>)
    requires s != [] && DistinctIds(s)
    ensures s[0].recordId !in Ids(s[1..]) && DistinctIds(s[1..])
  {
    forall c | c in s[1..]
      ensures c.recordId != s[0].recordId
    {
      var k :| 0 <= k < |s[1..]| && s[1..][k] == c;
      assert s[k + 1] == c;
    }
    forall i, j | 0 <= i < j < |s[1..]|
      ensures s[1..][i].recordId != s[1..][j].recordId
    {
      assert s[1..][i] == s[i + 1] && s[1..][j] == s[j + 1];
    }
  }

  lemma ConsDistinct(c: Channel, rest: seq<Channel>)
    requires DistinctIds(rest) && c.recordId !in Ids(rest)
    ensures DistinctIds([c] + rest)
  {
    var t := [c] + rest;
    forall i, j | 0 <= i < j < |t|
      ensures t[i].recordId != t[j].recordId
    {
      if i == 0 {
        assert t[j] in rest;
      } else {
        assert t[i] == rest[i - 1] && t[j] == rest[j - 1];
      }
    }
  }

  lemma {:induction false} WithoutDistinct(s: seq<Channel>, id: int)
    requires DistinctIds(s)
    ensures DistinctIds(Without(s, id))
  {
    if s != [] {
      HeadApart(s);
      WithoutDistinct(s[1..], id);
      var rest := Without(s[1..], id);
      if s[0].recordId != id {
        WithoutSpec(s[1..], id);
        ConsDistinct(s[0], rest);
      } else {
        assert Without(s, id) == rest;
      }
    }
  }

  lemma IdsGrow(s: seq<Channel>, t: seq<Channel>)
    requires forall c :: c in s ==> c in t
    ensures Ids(s) <= Ids(t)
  {
  }

  lemma AppendDistinct(s: seq<Channel>, c: Channel)
    requires DistinctIds(s) && c.recordId !in Ids(s)
    ensures DistinctIds(s + [c]) && Ids(s + [c]) == Ids(s) + {c.recordId}
  {
    var t := s + [c];
    forall i, j | 0 <= i < j < |t|
      ensures t[i].recordId != t[j].recordId
    {
      if j == |s| {
        assert t[i] in s;
      }
    }
    assert forall x :: x in t <==> x in s || x == c;
  }

  // ---------------------------------------------------------------- properties of the form

  /** The guard stops the submit exactly when a selected channel lacks a
      template, and then names how many lack one. */
  lemma SubmitGuard(p: MultipleDispatchPage, format: DateFormat)
    ensures p.HandleSubmit(format).MissingTemplates? <==>
              exists c :: c in p.selectedChannels && c.recordId !in p.selectedTemplates
    ensures p.HandleSubmit(format).MissingTemplates? ==>
              p.HandleSubmit(format).count == |WithoutTemplate(p.selectedChannels, p.selectedTemplates)| > 0
  {
    WithoutTemplateSpec(p.selectedChannels, p.selectedTemplates);
    var m := WithoutTemplate(p.selectedChannels, p.selectedTemplates);
    if m != [] {
      assert m[0] in m;
    }
  }

  /** A valid form passes the guard, and its request carries one entry per
      selected channel and the re-encoded copy of the contacts, which are
      all the contacts the file kept imports to. */
  lemma ValidFormSends(p: MultipleDispatchPage, format: DateFormat)
    requires p.IsFormValid() && p.FileCoherent()
    ensures p.HandleSubmit(format).Send?
    ensures var r := p.HandleSubmit(format).request;
            && |r.channels| == |p.selectedChannels| > 0
            && p.csvFile.Some?
            && UploadOutcome(p.csvFile.value).Success?
            && r.contactCount == UploadOutcome(p.csvFile.value).value.stats.validContacts > 0
            && r.csvFile.Reencoded?
            && r.csvFile.content == CsvReencode.ReEncode(p.csvData).value
            && IsCsvName(r.csvFile.name)
  {
    WithoutTemplateSpec(p.selectedChannels, p.selectedTemplates);
    CopyNameIsCsv(p.csvFile);
    UploadSuccess(p.csvFile.value);
  }
}
