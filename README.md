# WhatsApp bulk dispatch: the contact pipeline and the page rules, in Dafny

The web client of a WhatsApp bulk-dispatch service lets an operator upload a
`;`-separated contact file, pick one or many WhatsApp channels with a message
template each, set the pause between messages and schedule the campaign. It
also lets the operator follow what was sent and check the health of the
channels. This project models the deterministic heart of that client and
proves what it promises.

- **Contact import** (`src/utils/csvUtils.js`): `processCsvFile`'s parse of the
  decoded text (modules `CsvContacts`, `CsvDocument`), the Brazilian phone
  canonicaliser `formatPhone` (`Phone`), the header pre-flight check
  `validateCsvStructure`, and the sample file of `generateSampleCsv`
  (`CsvSample`). `temp_csvUtils.js` holds the same logic and is modelled by the
  same members.
- **Tracking page** (`src/pages/Tracking.jsx`, modules `Tracking`,
  `TrackingExport`): `toDigits` and `formatWhatsapp`, the status labels, the
  six filters of `applyFilters` as a page class, the options of
  `getUniqueOptions`, and the text `downloadCSV` writes.
- **Channel status page** (`src/pages/Status.jsx`, modules `ChannelStatus`,
  `StableSorting`): the sort state of `handleSort`, the stable sort of
  `sortedChannels` on a copied array, and the status and quality mappings.
- **Bulk dispatch form** (`src/pages/MultipleDispatch.jsx`, modules
  `MultipleDispatch`, `CsvReencode`, `Interval`, `Upload`): the selection
  state held in four collections, the interval sliders, the file upload, the
  validity gate, the submit guard, the re-encoded contact file and the
  channel list sent to the server.
- **Single dispatch form** (`src/pages/Dispatch.jsx`, module `Dispatch`): the
  sliders, the upload with its counts, the validity gate, the reset after the
  simulated send, and this form's quality words. Its `getStatusText` (lines
  31-34) is the status page's, modelled once as `ChannelStatus.StatusText`.

Strings are sequences of characters. White space is the ECMAScript set that
`trim` removes (it includes the byte-order mark). Case mapping is ASCII.
Clocks, the network and the time-zone formatting become parameters
(`DateReader`, `DateFormat`, the templates a request returns).

`generateSampleCsv` writes ten contact rows (`src/utils/csvUtils.js:183-193`).
The re-encoded copy the bulk form sends doubles quotes and never wraps a field
in quotes (`src/pages/MultipleDispatch.jsx:432-435`).

## Model

| member | source | states |
|---|---|---|
| Phone.FormatPhoneOutcome | src/utils/csvUtils.js:106-143 | fewer than 10 digits fails as too short, more than 15 as too long, 10 to 15 always succeed with `+` followed by digits; the "unrecognised format" error is never thrown |
| Phone.FormatPhone | src/utils/csvUtils.js:106-143 | `formatPhone`: a success is a string opening with `+`, and the final "unrecognised format" error is never the failure |
| Phone.FormatPhoneLocal | src/utils/csvUtils.js:119-122 | 10 or 11 digits give `+55` and the digits |
| Phone.FormatPhoneCountryCode | src/utils/csvUtils.js:124-127 | 12 or 13 digits starting with 55 give `+` and the digits |
| Phone.PlusBranchLengthTest | src/utils/csvUtils.js:129-135 | in the `+` branch at least 11 plus signs and digits remain, so its length test never fails |
| Phone.FormatPhoneDigits | src/utils/csvUtils.js:106-143 | the result's digits are the input's digits, or 55 followed by them |
| Phone.FormatPhoneIdempotent | src/utils/csvUtils.js:106-143 | formatting a result again gives it back exactly unless the input had 14 or 15 digits and no leading `+` |
| Phone.FormatPhoneIdempotentUpTo13 | src/utils/csvUtils.js:119-140 | inputs with 10 to 13 digits succeed and their result is a fixed point |
| Phone.LongLocal | src/utils/csvUtils.js:137-140 | 14 or 15 bare digits get `+55`, and that result is rejected as too long |
| Phone.NotIdempotentAt14 | src/utils/csvUtils.js:137-140 | `12345678901234` is formatted into a string that formatting rejects |
| Phone.AcceptedFormats | src/utils/csvUtils.js:119-122 | `AANNNNNNNNN`, `(AA) NNNNN-NNNN` and `AA NNNNN-NNNN` all give the same `+55…` result, which formats into itself |
| Phone.PlusAndDigitsFixed | src/utils/csvUtils.js:131 | the plus-and-digits filter leaves a string of plus signs and digits unchanged |
| CsvContacts.NonBlankMembers | src/utils/csvUtils.js:9 | the line filter keeps exactly the lines that are not blank after `trim` |
| CsvContacts.NonBlankConcat | src/utils/csvUtils.js:9 | the line filter works line by line |
| CsvContacts.FieldsClean | src/utils/csvUtils.js:39 | no split field is padded or holds `;` |
| CsvContacts.IndexOfFirst | src/utils/csvUtils.js:31-33 | the column index found is the first position holding the name, and -1 only when absent |
| CsvContacts.ReadRowWellFormed | src/utils/csvUtils.js:35-77 | every contact read from a line has a trimmed non-empty name, a canonical phone and a trimmed non-empty email or none |
| CsvContacts.ReadFieldsOutcome | src/utils/csvUtils.js:42-64 | a line is kept exactly when it has at least as many fields as the header, a non-empty name and phone, and 10 to 15 phone digits |
| CsvContacts.EmailNeverSkips | src/utils/csvUtils.js:66-76 | whatever the email field holds, the line's fate is the same and the email is stored as written, `null` when empty |
| CsvContacts.ExtraFieldsIgnored | src/utils/csvUtils.js:42-49 | fields beyond those the header names do not change the contact read |
| CsvContacts.ExtraTextIgnored | src/utils/csvUtils.js:39-49 | appending `;` and more text to a line that already has enough fields changes nothing |
| CsvContacts.ParseRowsAppend | src/utils/csvUtils.js:35-77 | rows are read independently and their contacts keep the rows' order |
| CsvContacts.ParseRowsAll | src/utils/csvUtils.js:35-77 | rows that each read into a contact give exactly those contacts, in order |
| CsvContacts.ParseRowsNone | src/utils/csvUtils.js:35-77 | rows that all fail give no contact |
| CsvContacts.ParseRowsMembers | src/utils/csvUtils.js:35-77 | a contact is imported exactly when some row reads as it |
| CsvContacts.ParseRowsWellFormed | src/utils/csvUtils.js:35-77 | every imported contact is well formed |
| CsvContacts.ParseCsv | src/utils/csvUtils.js:84-89 | on success at least one contact, `validContacts` their number, `totalLines` the non-blank lines less the header, and total = valid + invalid |
| CsvContacts.Outcome | src/utils/csvUtils.js:79-91 | no contact is the "no valid data" error; otherwise the contacts with their counts |
| CsvContacts.ProcessCsvFile | src/utils/csvUtils.js:8-91 | the `onload` body computes `ParseCsv` of the text |
| CsvContacts.ProcessLines | src/utils/csvUtils.js:11-14 | computes the import of the non-blank lines, `ParseLines` |
| CsvContacts.ProcessTable | src/utils/csvUtils.js:17-91 | computes the import of the header and data lines, `ParseTable` |
| CsvContacts.ParseCsvRejects | src/utils/csvUtils.js:9-27 | the import fails as "too few lines" exactly when fewer than two lines are non-blank; for missing columns exactly when the header lacks `name` or `phone`, naming the missing ones in that order; and with "no valid data" exactly when no data line reads into a contact |
| CsvContacts.ReadRows | src/utils/csvUtils.js:30-77 | the loop pushes, in order, the contact of every data line the checks accept |
| CsvContacts.ReadLine | src/utils/csvUtils.js:36-76 | one loop pass: the contact pushed, or none where the loop continues |
| CsvContacts.BlankLineIgnored | src/utils/csvUtils.js:9 | a whitespace-only line anywhere changes neither the contacts nor the counts |
| CsvContacts.ValidateStructure | src/utils/csvUtils.js:153-164 | succeeds exactly when the first line names both `name` and `phone`, resolving `true`, otherwise reports the missing ones in that order |
| CsvContacts.ValidatePrefix | src/utils/csvUtils.js:174-176 | reading only the start of the file decides the same once it holds the whole first line |
| CsvContacts.ValidateAgreesWithParse | src/utils/csvUtils.js:17-27 | when the raw first line is a non-blank header and the file has at least two non-blank lines, the pre-flight check and the import reject the same files for missing columns, with the same list |
| CsvContacts.OneLineFileDisagrees | src/utils/csvUtils.js:9-14 | the one-line file `name` is refused by the pre-flight check for lacking `phone` and by the import as too short |
| CsvDocument.ParseDocument | src/utils/csvUtils.js:8-91 | a file of the `name;phone;email` header and rows that each read into a contact imports exactly those contacts with no invalid line |
| CsvDocument.RejectDocument | src/utils/csvUtils.js:79-82 | a file whose rows all fail is rejected with "no valid data" |
| CsvDocument.HeaderColumns | src/utils/csvUtils.js:17 | the header, with or without a byte-order mark, reads as the three columns in order |
| CsvDocument.ReadPlainRow | src/utils/csvUtils.js:39-76 | a plain row's phone decides whether it is kept, and an empty email becomes `null` |
| CsvSample.SampleImports | src/utils/csvUtils.js:181-194 | the sample file imports exactly the ten sample contacts, in order, counting ten lines and no invalid one |
| CsvSample.SampleRowImports | src/utils/csvUtils.js:183-193 | each sample row reads into its contact |
| CsvReencode.EscapeUnescape | src/pages/MultipleDispatch.jsx:433 | collapsing doubled quotes gives back the escaped text |
| CsvReencode.EscapeLength | src/pages/MultipleDispatch.jsx:433 | escaping adds one character per double quote and leaves quote-free text unchanged |
| CsvReencode.EscapeChars | src/pages/MultipleDispatch.jsx:433 | escaping keeps the set of characters and the first and last one |
| CsvReencode.ReEncodeDocument | src/pages/MultipleDispatch.jsx:431-438 | the copy exists exactly when there are contacts, and it is the byte-order mark, the header and one escaped line per contact |
| CsvReencode.ContactReimport | src/pages/MultipleDispatch.jsx:434-437 | a contact's line reads back into the contact with name and email escaped |
| CsvReencode.ReEncodeReimport | src/pages/MultipleDispatch.jsx:431-438 | for contacts whose phone is already canonical (the formatter leaves it as it is) and whose fields hold no line break, importing the copy gives every contact back, names and emails escaped, with no invalid line |
| CsvReencode.ReEncodeRoundTrip | src/pages/MultipleDispatch.jsx:431-438 | for contacts whose phone is already canonical and whose fields hold no line break or double quote, importing the copy gives exactly the contacts it was made from |
| CsvReencode.QuotedNameChanges | src/pages/MultipleDispatch.jsx:433 | a name holding a double quote comes back changed |
| CsvReencode.LongLocalNumberLost | src/pages/MultipleDispatch.jsx:431-438 | a contact imported from 14 or 15 bare digits is lost when the copy is imported again |
| Tracking.ToDigits | src/pages/Tracking.jsx:23 | only digits, and none for a missing value |
| Tracking.FormatWhatsappShape | src/pages/Tracking.jsx:24-37 | a value without digits shows as empty; any other shows with `+55 ` in front |
| Tracking.FormatWhatsapp | src/pages/Tracking.jsx:24-37 | `formatWhatsapp`: empty exactly when the value has no digit, otherwise opening with `+55 ` |
| Tracking.FormatWhatsappDigits | src/pages/Tracking.jsx:24-37 | the digits shown are 55 and the local part, or 55 and every digit when the local part is short: nothing lost or reordered |
| Tracking.FormatWhatsappLayout | src/pages/Tracking.jsx:30-36 | with ten or more local digits the area code is the first two and the rest splits after five, or four when eight are left; the halving fallback never applies |
| Tracking.FormatWhatsappMobile | src/pages/Tracking.jsx:32 | a mobile number with or without 55 shows as `+55 (DD) NNNNN-NNNN` |
| Tracking.FormatWhatsappLandline | src/pages/Tracking.jsx:33 | a landline with or without 55 shows as `+55 (DD) NNNN-NNNN` |
| Tracking.FormatWhatsappIdempotent | src/pages/Tracking.jsx:24-37 | showing a shown number again changes nothing once its local part has ten digits or more |
| Tracking.StatusTextCases | src/pages/Tracking.jsx:273-281 | each label stands for exactly one status number; `null` counts as 0 and a missing status is Indefinido |
| Tracking.StatusText | src/pages/Tracking.jsx:273-281 | `getStatusText`: one of the four labels, Indefinido for a missing status |
| Tracking.MotivoAsShown | src/pages/Tracking.jsx:114-166 | the exported reason is the table's tooltip: the error text, the success text for status 1, or nothing |
| Tracking.Motivo | src/pages/Tracking.jsx:301 | the exported reason: an error text always wins, and it is non-empty exactly when there is an error text or the status is 1 |
| Tracking.ActiveTestsMatch | src/pages/Tracking.jsx:197-248 | the tests of the filters that are on all pass exactly when the item matches every filter |
| Tracking.KeepSelect | src/pages/Tracking.jsx:201-244 | one more `filter` pass selects by one more test |
| Tracking.SelectMembers | src/pages/Tracking.jsx:197-248 | an item is shown exactly when it is in the list and passes every test |
| Tracking.FilteredMembers | src/pages/Tracking.jsx:197-248 | an item is shown exactly when it is in the list and matches every filter that is on |
| Tracking.SelectSubsequence | src/pages/Tracking.jsx:197-248 | the items shown keep their order in the list |
| Tracking.SelectNoTests | src/pages/Tracking.jsx:197-248 | with no test the whole list is shown |
| Tracking.FilteredSubsequence | src/pages/Tracking.jsx:197-248 | the shown list is an order-preserving selection, and the whole list when every filter is off |
| Tracking.Narrow | src/pages/Tracking.jsx:201-244 | one `filtered = filtered.filter(test)` step, taken only when its filter is on, selects by the tests so far |
| Tracking.TrackingPage.ApplyFilters | src/pages/Tracking.jsx:197-248 | the list on screen becomes the filtered records; records and filters stay |
| Tracking.TrackingPage.UpdateFilter | src/pages/Tracking.jsx:268-270 | one filter input changes, nothing else |
| Tracking.TrackingPage.ClearFilters | src/pages/Tracking.jsx:256-265 | every filter input emptied |
| Tracking.UniqueOptionsSpec | src/pages/Tracking.jsx:172-182 | the options are strictly increasing and are exactly the truthy values of the field |
| Tracking.StrictlySortedUnique | src/pages/Tracking.jsx:181 | only one strictly sorted list holds a given set, so the options do not depend on the sort used |
| Tracking.ZeroStatusNotOffered | src/pages/Tracking.jsx:172-182 | status 0 is falsy and never offered |
| TrackingExport.ExportFieldCases | src/pages/Tracking.jsx:321-330 | a field is written as it is exactly when it holds no `;`, line break or quote; otherwise quoted with its quotes doubled |
| TrackingExport.FieldBack | src/pages/Tracking.jsx:321-330 | every written field reads back to the field |
| TrackingExport.RecordBack | src/pages/Tracking.jsx:321-330 | a written line reads back to its fields |
| TrackingExport.RecordsBack | src/pages/Tracking.jsx:318-330 | written lines read back to the rows |
| TrackingExport.ExportReadsBack | src/pages/Tracking.jsx:284-333 | reading the downloaded text gives the header row and the fields of each record shown, whatever they hold |
| StableSorting.SortPermutation | src/pages/Status.jsx:91-120 | sorting rearranges: each element as often as before |
| StableSorting.SortSorted | src/pages/Status.jsx:94-117 | with a consistent comparator the result is in order |
| StableSorting.SortStable | src/pages/Status.jsx:94-117 | elements comparing equal keep their relative order |
| StableSorting.SortOfSorted | src/pages/Status.jsx:94-117 | an ordered list is left as it is |
| StableSorting.SortTwice | src/pages/Status.jsx:94-117 | sorting twice is sorting once |
| StableSorting.SortedTiesUnique | src/pages/Status.jsx:94-117 | two lists in order with the same ties for every element are equal |
| StableSorting.StableSortUnique | src/pages/Status.jsx:94-117 | any ordered list keeping the order of every tie of the input, which is what any stable `sort` returns, is the insertion sort's result |
| StableSorting.InsertAt | src/pages/Status.jsx:94-117 | one insertion step in the array puts the element into its place in the ordered prefix and leaves the rest |
| StableSorting.SortInPlace | src/pages/Status.jsx:94-117 | the array ends holding the sort of what it held |
| ChannelStatus.StatusTextIdempotent | src/pages/Status.jsx:49-52 | the shown status of a shown status is itself |
| ChannelStatus.StatusText | src/pages/Status.jsx:49-52 | `getStatusText`: never empty; a present status keeps its length with the first letter upper-cased |
| ChannelStatus.StatusTextIgnoresCase | src/pages/Dispatch.jsx:31-34 | the shown status depends only on the status's lower case, as in the status page |
| ChannelStatus.BadgeIgnoresCase | src/pages/Status.jsx:37-46 | the badge and the shown status do not depend on case |
| ChannelStatus.QualityColorMatchesText | src/pages/Status.jsx:55-79 | the dot's colour is the colour of the quality word beside it, the word is High, Medium or Low, and the three colours differ |
| ChannelStatus.QualityText | src/pages/Status.jsx:70-79 | `getQualityText`: High, Medium or Low, and Medium exactly when the rating is neither green nor red |
| ChannelStatus.QualityColor | src/pages/Status.jsx:55-67 | `getQualityColor`: one of three colours; green exactly for a green rating and red exactly for a red one |
| ChannelStatus.CompareConsistent | src/pages/Status.jsx:94-117 | the comparator is antisymmetric and its "not after" is transitive |
| ChannelStatus.NextSortCycle | src/pages/Status.jsx:82-88 | a click sorts by the column; a new column starts ascending; a click on the sorted column flips it and two clicks restore the state |
| ChannelStatus.ShownSpec | src/pages/Status.jsx:91-120 | the rows shown are the channels rearranged; as they came without a column; otherwise values never decrease (ascending) or increase (descending), and equal values keep their order |
| ChannelStatus.ShownTwice | src/pages/Status.jsx:91-120 | sorting the shown rows again changes nothing |
| ChannelStatus.Shown | src/pages/Status.jsx:91-120 | `sortedChannels`: as many rows as channels, each as often as it came |
| ChannelStatus.StatusPage.HandleSort | src/pages/Status.jsx:82-88 | the sort state moves as `NextSort` says; the channels stay |
| ChannelStatus.StatusPage.SortedChannels | src/pages/Status.jsx:91-120 | the rows come from sorting a copy; the page's own list is not changed |
| Interval.MinMoved | src/pages/MultipleDispatch.jsx:712-719 | the lower bound takes the new value and the upper one is raised to it when below; the pause stays ordered |
| Interval.MaxMoved | src/pages/MultipleDispatch.jsx:728-734 | the upper bound takes the new value and the lower one is lowered to it when above; the pause stays ordered |
| Interval.MovesStayInRange | src/pages/Dispatch.jsx:365-390 | any sequence of slider moves keeps the pause on the 1..60 scale and in order |
| Interval.MovesOrder | src/pages/MultipleDispatch.jsx:712-734 | after any move the pause is ordered |
| Interval.MoveWithinBound | src/pages/MultipleDispatch.jsx:712-734 | a move within the other bound changes only that bound, and moving back restores the pause |
| Upload.Head | src/utils/csvUtils.js:175 | at most the first 500 characters, a prefix of the text |
| Upload.CsvNameIgnoresCase | src/pages/Dispatch.jsx:160-163 | the `.csv` check ignores case |
| Upload.CsvNamePasses | src/pages/Dispatch.jsx:160-163 | a name ending in `.csv` in any case passes |
| Upload.NameCheckedFirst | src/pages/Dispatch.jsx:160-163 | only a name without `.csv` is refused as not a CSV file |
| Upload.UploadOutcome | src/pages/Dispatch.jsx:160-184 | the upload's outcome: a success is the file's import; a structure error comes from the pre-flight check of the start of a `.csv` file, naming a missing column; an import error is the import's own |
| Upload.UploadSuccess | src/pages/Dispatch.jsx:165-184 | a successful upload has a `.csv` name and is the file's import, with at least one contact |
| Upload.UploadAgreesWithImport | src/pages/Dispatch.jsx:170-176 | when the raw first line is a non-blank header ending within the first 500 characters and the file has at least two non-blank lines, the pre-flight check changes nothing: success exactly for a `.csv` name whose import succeeds |
| Upload.BlankFirstLineRefused | src/utils/csvUtils.js:153-156 | a `.csv` file opening with an empty line is refused for lacking both `name` and `phone`, while the import skips that line and reads the rest as if it were absent |
| Upload.UploadCoherent | src/pages/Dispatch.jsx:149-193 | after any upload the contacts shown are what the file kept imports to, and none while an error shows |
| Upload.UploadCounted | src/pages/Dispatch.jsx:149-193 | after any upload the counts shown are those of the file kept, and none without contacts |
| Upload.CoherentShows | src/pages/Dispatch.jsx:149-193 | contacts are shown exactly when the file kept imports successfully and no error shows |
| Upload.UploadShows | src/pages/Dispatch.jsx:149-193 | an error comes without contacts or counts; a refused name keeps the previous file; no error exactly when the import succeeds |
| Upload.AfterUpload | src/pages/Dispatch.jsx:149-193 | no file leaves the state as it was; after a chosen file an error shows with no contacts or counts, and without an error the file is kept with contacts and counts |
| MultipleDispatch.Find | src/pages/MultipleDispatch.jsx:127 | a selected channel is found exactly when its id is selected, and it carries that id |
| MultipleDispatch.WithoutSpec | src/pages/MultipleDispatch.jsx:130 | removal keeps every other channel and nothing else, and removes the id |
| MultipleDispatch.SelectThenDeselect | src/pages/MultipleDispatch.jsx:125-149 | selecting a channel and deselecting it gives back the selection |
| MultipleDispatch.WithoutDistinct | src/pages/MultipleDispatch.jsx:130 | removal keeps ids distinct |
| MultipleDispatch.WithoutTemplateSpec | src/pages/MultipleDispatch.jsx:417-419 | the channels lacking a template are exactly the selected ones without a choice; none lack one exactly when all have one |
| MultipleDispatch.PayloadSpec | src/pages/MultipleDispatch.jsx:449-458 | each entry names its channel's chosen template and sends from the phone id, or from the record id when there is none |
| MultipleDispatch.Payload | src/pages/MultipleDispatch.jsx:449-458 | one entry per selected channel |
| MultipleDispatch.LotCeiling | src/pages/MultipleDispatch.jsx:842 | the lots shown are `Math.ceil(contacts / batchSize)` for every non-zero size, zero or fewer for a negative one; an empty field or 0 shows no number |
| MultipleDispatch.LotsCover | src/pages/MultipleDispatch.jsx:842 | for a positive size the lots announced are the fewest that hold every contact with at most `batchSize` each |
| MultipleDispatch.LotsMatchSent | src/pages/MultipleDispatch.jsx:471-842 | for a typed positive size the lots announced are the fewest holding every contact with at most the posted `batchSize` each; for an empty field no count is shown although 100 is posted, for which one exists |
| MultipleDispatch.CopyNameIsCsv | src/pages/MultipleDispatch.jsx:440 | the copy's name is itself a `.csv` name |
| MultipleDispatch.SubmitGuard | src/pages/MultipleDispatch.jsx:417-425 | submit stops exactly when a selected channel lacks a template, naming how many lack one |
| MultipleDispatch.ValidFormSends | src/pages/MultipleDispatch.jsx:579-591 | a valid form passes the guard and posts one entry per channel, the number of imported contacts and the re-encoded copy under a `.csv` name |
| MultipleDispatch.MultipleDispatchPage.IsFormValid | src/pages/MultipleDispatch.jsx:579-591 | a valid form is not the initial form and leaves no selected channel without a template |
| MultipleDispatch.MultipleDispatchPage.HandleSubmit | src/pages/MultipleDispatch.jsx:408-475 | the request is sent exactly when every selected channel has a template, and then carries one entry per channel, the number of contacts and the posted batch size; otherwise the number missing, which is positive |
| MultipleDispatch.MultipleDispatchPage.ToggleSelectAll | src/pages/MultipleDispatch.jsx:111-122 | checking selects every channel; unchecking empties the four collections; the selection invariant is kept |
| MultipleDispatch.MultipleDispatchPage.ToggleChannelSelection | src/pages/MultipleDispatch.jsx:125-149 | a selected channel leaves all four collections; another is appended and nothing else changes; the invariant is kept |
| MultipleDispatch.MultipleDispatchPage.ToggleChannelExpansion | src/pages/MultipleDispatch.jsx:153-180 | the row's open state flips; templates are requested and stored only when opening a row with none loaded whose channel has an account |
| MultipleDispatch.MultipleDispatchPage.SelectTemplate | src/pages/MultipleDispatch.jsx:184-189 | only that channel's choice changes |
| MultipleDispatch.MultipleDispatchPage.SlideMin | src/pages/MultipleDispatch.jsx:712-719 | the lower slider moves the pause as `MinMoved`, which stays ordered |
| MultipleDispatch.MultipleDispatchPage.SlideMax | src/pages/MultipleDispatch.jsx:728-734 | the upper slider moves the pause as `MaxMoved`, which stays ordered |
| MultipleDispatch.MultipleDispatchPage.HandleFileUpload | src/pages/MultipleDispatch.jsx:344-367 | the file, contacts and error become those of `AfterUpload`; the selection and the form stay |
| Dispatch.QualityTextAgrees | src/pages/Dispatch.jsx:49-58 | this form's words agree with the status page on High and Low, and say Indefinido exactly where that page says Medium |
| Dispatch.QualityText | src/pages/Dispatch.jsx:49-58 | this form's `getQualityText`: High, Low or Indefinido, and Indefinido exactly when the rating is neither green nor red |
| Dispatch.DispatchPage.HandleFileUpload | src/pages/Dispatch.jsx:149-193 | the file, contacts, counts and error become those of `AfterUpload`; the form stays |
| Dispatch.DispatchPage.SlideMin | src/pages/Dispatch.jsx:365-374 | the lower slider moves the pause as `MinMoved` |
| Dispatch.DispatchPage.SlideMax | src/pages/Dispatch.jsx:381-390 | the upper slider moves the pause as `MaxMoved` |
| Dispatch.DispatchPage.FinishSend | src/pages/Dispatch.jsx:212-226 | the reset empties the file, contacts, counts and fields, keeps an error shown, and leaves the page coherent |
| Dispatch.DispatchPage.IsFormValid | src/pages/Dispatch.jsx:231-237 | a valid form has contacts and is not the empty form the reset leaves |
| Dispatch.ValidFormImported | src/pages/Dispatch.jsx:231-237 | a valid form on a coherent page holds a successfully imported file with exactly the contacts and counts shown |

## Left out

- Network calls (`fetch` of channels, templates, tracking records, the dispatch post): the records and templates a request returns are parameters, and the post is the `Request` value `HandleSubmit` builds.
- `FileReader`, `Blob`, `File`, the download link and the DOM: the model reads the decoded text of a file and returns the text it would write.
- Date parsing and the São Paulo time-zone formatting: `DateReader` and `DateFormat` parameters stand for them.
- The email regular expression: it only logs a warning and never changes the import.
- Timers, progress bars, loading flags, notifications and console logging.
- The order in which asynchronous handlers interleave. `ToggleChannelExpansion` stores the fetched templates at once. In the page, a late answer can arrive after its channel was deselected; for that reason the selection invariant says nothing about loaded templates.
- Unicode case mapping and white space beyond the ECMAScript `trim` set; the default `sort` compares UTF-16 units, the model compares characters.
- `file.slice(0, 500)` counts bytes; `Upload.Head` counts characters.
- The batch size field is read as a whole number or as empty. A decimal or a number typed with leading zeros is not modelled; the page divides by the text as JavaScript converts it and sends the text as typed.
- `Dispatch.jsx`'s own `getStatusBadgeClass` (lines 37-46) and `getQualityColor` (lines 61-74) only style the rendering and are left out; they differ from the status page's (orange is `#fd7e14` and anything unknown grey `#6c757d`).
- Of the mapping functions inside `MultipleDispatch.jsx` (lines 205-309), `getStatusText`, `getQualityText` and `getQualityColor` are the status page's and are modelled there. `getStatusBadgeClass` (it returns other class names), `getTemplateStatusText`, `getTemplateStatusBadgeClass`, `getTemplateCategoryText` and `getTemplateCategoryBadgeClass` only style the rendering and are left out.
- The simulated submit of the single dispatch form is modelled only by its final reset (`FinishSend`).
- The range-fill percentages are floating point CSS and all JSX rendering is out.
- `temp_AuthContext.jsx`, `Login.jsx`, `App.jsx`, `Navbar.jsx`, `Dashboard.jsx` and `temp_component.jsx` are not part of this model.
- ChannelStatus.StatusTextIdempotent: stated for a present, non-empty status only; for a missing one it is also true but costly to prove on the literal.
