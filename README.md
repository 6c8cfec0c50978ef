# Upload-to-JSON service and band-site UI state, modelled in Dafny

The model covers two small programs.

**The upload service** (`fastapi-excel-upload/main.py`) accepts Excel, Word and PowerPoint uploads.
- It checks the file name and stores the upload in chunks under a unique name.
- It tracks every task in an in-memory status table.
- In a background step it converts the stored file to JSON: Excel sheets, Word paragraphs and tables, PowerPoint slides.

**The band website** has four interactive sections, each modelled as a state machine:
- The tour section: an autoplaying slideshow with dot buttons, a "Details" selection that opens the ticket modal, and a fade-in latched by an intersection entry.
- The ticket modal: it renders only with a tour date and routes clicks to `onClose`.
- The FAQ section: an accordion, and a contact form whose confirmation clears itself 3000 ms after a submit.
- The music section: the set of album cards in view, updated from batches of intersection entries.

Files:
- `wrappers.dfy`: `Option` and `Result`.
- `path_names.dfy`: the pathlib `name`/`suffix`/`stem` rules, ASCII `lower()`, and the two file-name f-strings.
- `documents.dfy`: the Word and PowerPoint extractors over documents given as values.
- `upload_service.dfy`: the `Service` class, holding the status table and the upload and output directories as maps. It contains the endpoint, the chunked save and background processing.
- `observation.dfy`: intersection entries and the null filter of the card refs.
- `tour_modal.dfy`: rendering of the modal and click bubbling through its element tree (pure).
- `tour_section.dfy`, `faq_section.dfy`, `music_section.dfy`: one class per component, holding its state fields.

External events are explicit inputs:
- Timers are a clock that calls `AdvanceTime(now)`. It fires every interval tick or scheduled clear that is due.
- Observer callbacks are sequences of `(target id, isIntersecting)` entries.
- Task ids, timestamps and the parsing libraries' results are parameters.

In three places the code behaves differently from what one would expect of these components, and the model follows the code:
- `toggleFAQ(i)` is not self-inverse in general. That holds only when nothing or entry `i` was open. From another open entry, two toggles leave the accordion closed (`FaqSection.ToggleTwice`).
- A second submit does not restart the clear delay. The code never cancels an earlier timeout, so any due clear empties the message (`FaqSection.FaqSectionState.AdvanceTime`).
- "Go to slide" does not check `0 <= i < N`. `GoToSlide` takes any index, and `ClickDot` shows that the dots only pass valid ones.

## Model

| member | source | states |
|---|---|---|
| PathNames.LastIndexOf | fastapi-excel-upload/main.py:189 | the result is -1 or a position holding the character, and no later position holds it |
| PathNames.Name | fastapi-excel-upload/main.py:189 | the final path component holds no '/' and is no longer than the path |
| PathNames.NameIsFinalComponent | fastapi-excel-upload/main.py:189 | the name is the path's tail, and it is the whole path or is preceded by '/' |
| PathNames.Suffix | fastapi-excel-upload/main.py:189 | the suffix is empty, or a '.' followed by at least one character and no further '.' or '/' |
| PathNames.Stem | fastapi-excel-upload/main.py:194 | defines pathlib `stem`: the final component without its suffix (stated by StemAndSuffix) |
| PathNames.StemAndSuffix | fastapi-excel-upload/main.py:194 | stem followed by suffix is exactly the final component, so the stem holds no '/' |
| PathNames.Lower | fastapi-excel-upload/main.py:189 | lower-casing keeps the length |
| PathNames.LowerChars | fastapi-excel-upload/main.py:189 | each A-Z maps to its lower-case letter and every other character is kept; no A-Z remains; '.' and '/' keep their positions |
| PathNames.LowerIdempotent | fastapi-excel-upload/main.py:189 | lower-casing twice equals lower-casing once |
| PathNames.UploadName | fastapi-excel-upload/main.py:194 | defines the stored name `{stem}_{task_id}{ext}` (its parts are stated by UploadNameRoundTrip) |
| PathNames.ProcessedName | fastapi-excel-upload/main.py:162 | defines the output name `processed_{stem}_{task_id}.json` (its parts are stated by ProcessedNameParts) |
| PathNames.TaskIdIsPlain | fastapi-excel-upload/main.py:193 | a uuid4 string holds no '/' and no '.' |
| PathNames.SplitAtSuffix | fastapi-excel-upload/main.py:194 | a plain name head + ".ext" has suffix ".ext" and stem head |
| PathNames.LowerOfSuffix | fastapi-excel-upload/main.py:189 | lower-casing a suffix keeps it a well-formed suffix |
| PathNames.UploadNameRoundTrip | fastapi-excel-upload/main.py:189-194 | the stored name's suffix is the lower-cased original suffix, and its stem is the original stem + "_" + task id |
| PathNames.ProcessedNameParts | fastapi-excel-upload/main.py:162 | the output name's suffix is ".json", and its stem is "processed_" + stem + "_" + task id |
| UploadService.ValidateUpload | fastapi-excel-upload/main.py:186-191 | defines the endpoint's two checks, in order (stated by ValidateUploadCases) |
| UploadService.ValidateUploadCases | fastapi-excel-upload/main.py:186-191 | an empty name gets "No file provided"; otherwise a name passes iff its lower-cased suffix is allowed; every refusal is a 400; a pass yields that extension |
| UploadService.HttpError.StatusCode | fastapi-excel-upload/main.py:187-217 | defines the status codes raised: 400 for both refusals, 500 for a failed save, 404 for an unknown task |
| UploadService.HttpError.Detail | fastapi-excel-upload/main.py:187-217 | defines the detail texts "No file provided", the allow-list message, "Failed to save file" and "Task not found" |
| UploadService.ExtensionSetsPartition | fastapi-excel-upload/main.py:31-34 | the allow-list is the union of the Excel, Word and PPT sets, which are pairwise disjoint |
| UploadService.Dispatch | fastapi-excel-upload/main.py:133-156 | defines the if/elif chain on the extension (stated by DispatchExactlyOne) |
| UploadService.ReadingDetail | fastapi-excel-upload/main.py:134-155 | defines the "Reading Excel/Word/PowerPoint file" details of the three branches (stated by ConvertStoredFile) |
| UploadService.DispatchExactlyOne | fastapi-excel-upload/main.py:133-156 | an extension takes a branch iff it is allowed, and it takes the branch of exactly its own set |
| UploadService.AcceptedUploadKeepsExtension | fastapi-excel-upload/main.py:189-194 | an accepted upload is stored under a name whose suffix is the accepted extension, which is dispatchable |
| UploadService.ReadsNeeded | fastapi-excel-upload/main.py:52-55 | a save of r bytes makes exactly ceil(r / CHUNK_SIZE) + 1 reads: one per chunk, plus the final empty read |
| UploadService.UploadFile.Read | fastapi-excel-upload/main.py:53 | a read faults at the designated call; otherwise it returns the next at most `size` bytes and advances the position by that many |
| UploadService.UploadFile.Close | fastapi-excel-upload/main.py:66 | the upload is closed |
| UploadService.SheetEmpty | fastapi-excel-upload/main.py:138 | defines `DataFrame.empty`: no column or no row |
| UploadService.NonEmptySheets | fastapi-excel-upload/main.py:136-140 | defines the in-order filter of non-empty sheets (stated by CombineSheets and NonEmptySheetsExact) |
| UploadService.CombineSheets | fastapi-excel-upload/main.py:136-140 | the loop collects exactly the non-empty sheets, in order |
| UploadService.NonEmptySheetsExact | fastapi-excel-upload/main.py:137-142 | nothing is combined iff every sheet is empty; a sheet is combined iff it is a non-empty sheet of the workbook |
| UploadService.ConversionOutcome | fastapi-excel-upload/main.py:133-169 | defines the final status, details and output of the dispatch (stated by ConversionOutcomeCases) |
| UploadService.ProcessOutcome | fastapi-excel-upload/main.py:124-176 | defines the final state of a job, the existence check first (stated by ProcessOutcomeCases) |
| UploadService.JobExtension | fastapi-excel-upload/main.py:129 | defines the lower-cased suffix of the original name, which picks the reader (stated by ProcessOutcomeCases) |
| UploadService.JobOutputName | fastapi-excel-upload/main.py:162 | defines the output name of a job from its original name and task id (stated by ProcessOutcomeCases) |
| UploadService.ConversionOutcomeCases | fastapi-excel-upload/main.py:133-169 | the outcome is completed or failed; output is written iff it completed; it completes iff the extension takes a branch, that library succeeds and, for Excel, some sheet is non-empty |
| UploadService.ProcessOutcomeCases | fastapi-excel-upload/main.py:124-176 | a missing stored file fails with "File not found: uploads/<name>"; otherwise the outcome is the conversion chosen by the lower-cased original suffix; it always ends completed or failed |
| UploadService.ExcelAllEmptyFails | fastapi-excel-upload/main.py:142-148 | a workbook whose sheets are all empty fails with "No valid data found in Excel" |
| UploadService.EmptyWordCompletes | fastapi-excel-upload/main.py:150-169 | a Word file with no table and only blank paragraphs completes with "Output saved to <output name>" and writes an empty list |
| UploadService.EmptyPptCompletes | fastapi-excel-upload/main.py:154-169 | a presentation none of whose slides has an element completes with "Output saved to <output name>" and writes an empty list |
| UploadService.UploadedJobOutcome | fastapi-excel-upload/main.py:186-201 | a job from an accepted upload always takes a branch, and it fails iff its library fails or, for Excel, every sheet is empty |
| UploadService.Service.constructor | fastapi-excel-upload/main.py:37-43 | the status table starts empty; both directories keep the files they already hold |
| UploadService.Service.UpdateTaskStatus | fastapi-excel-upload/main.py:68-74 | the task's whole record is replaced and every other task keeps its record |
| UploadService.Service.GetTaskStatus | fastapi-excel-upload/main.py:213-218 | an unknown id gives the 404 "Task not found"; a known id gives its record with the id added |
| UploadService.Service.SaveUploadFileChunked | fastapi-excel-upload/main.py:47-66 | with no faulting read, the destination holds exactly the remaining bytes and their count is returned; on a fault the destination is removed and a 500 is returned; the upload is closed either way |
| UploadService.Service.CopyChunks | fastapi-excel-upload/main.py:49-57 | the read loop either stops at the first empty read, having appended every byte, or stops at the faulting read |
| UploadService.Service.UploadFileToJson | fastapi-excel-upload/main.py:180-211 | a refused name returns its 400 and changes nothing, the upload included (not read, not closed); an accepted one is stored under its unique name and queued, or on a save fault is left at "uploading" with the 500 |
| UploadService.Service.SaveAndQueue | fastapi-excel-upload/main.py:193-211 | the "uploading" record, then the save, then the "queued" record, the job and the response |
| UploadService.Service.ProcessFileBackground | fastapi-excel-upload/main.py:122-176 | the final record is the outcome of the job; the output is written under the processed name iff there is one; the stored upload is deleted in every case |
| UploadService.Service.ConvertJob | fastapi-excel-upload/main.py:124-169 | the outcome is the job's outcome; "processing" with the reader's name is recorded iff the file exists and dispatches; the output is written iff there is one |
| UploadService.Service.ConvertStoredFile | fastapi-excel-upload/main.py:129-160 | the outcome is the conversion of the extension; the reader's "Reading ... file" detail is recorded iff the extension dispatches |
| Documents.ReadTable | fastapi-excel-upload/main.py:86-89 | one list of cell texts per row, in row order |
| Documents.CellTexts | fastapi-excel-upload/main.py:88 | defines `[cell.text for cell in row.cells]` (stated by ReadTable) |
| Documents.TableOf | fastapi-excel-upload/main.py:86-89 | defines the `table_data` of a table, one row of cell texts per table row (stated by ReadTable, TableEntriesExact and GetShapeElements) |
| Documents.IsSpace | fastapi-excel-upload/main.py:82 | defines the characters `str.strip()` removes, those for which `str.isspace()` holds |
| Documents.IsBlank | fastapi-excel-upload/main.py:82 | defines a text whose `strip()` is empty: every character is whitespace |
| Documents.ParagraphEntries | fastapi-excel-upload/main.py:81-83 | defines the kept paragraphs tagged with their positions (stated by ParagraphEntriesExact) |
| Documents.TableEntries | fastapi-excel-upload/main.py:85-90 | defines the table entries numbered from an offset (stated by TableEntriesExact) |
| Documents.WordContent | fastapi-excel-upload/main.py:76-94 | defines the Word output: paragraph part, then table part (stated by WordContentParts and WordIndicesDistinct) |
| Documents.GetWordFileContent | fastapi-excel-upload/main.py:76-94 | the loops produce the kept paragraphs, then one entry per table |
| Documents.ParagraphEntriesExact | fastapi-excel-upload/main.py:81-83 | an entry is kept iff it is a paragraph entry at a real position, with that paragraph's text, which is not blank |
| Documents.ParagraphEntriesIncreasing | fastapi-excel-upload/main.py:81-83 | the kept paragraphs' indices strictly increase and are paragraph positions |
| Documents.TableEntriesExact | fastapi-excel-upload/main.py:85-90 | table k becomes a table entry with its cell texts and index k + number of paragraphs |
| Documents.WordContentParts | fastapi-excel-upload/main.py:81-90 | the output is its paragraph part followed by its table part, numbered on from the paragraph count |
| Documents.WordIndicesDistinct | fastapi-excel-upload/main.py:81-90 | indices strictly increase, no two entries share one, and every paragraph entry precedes and is numbered below every table entry |
| Documents.WordContentEmpty | fastapi-excel-upload/main.py:81-90 | the Word output is empty iff the document has no table and every paragraph is blank |
| Documents.TextElements | fastapi-excel-upload/main.py:105-107 | defines the non-blank paragraphs of a text frame as elements (stated by TextElementsExact) |
| Documents.ShapeElements | fastapi-excel-upload/main.py:104-113 | defines a shape's elements: its text paragraphs, then its table (stated by GetShapeElements) |
| Documents.SlideElements | fastapi-excel-upload/main.py:103-113 | defines a slide's elements, shape by shape (stated by GetSlideElements) |
| Documents.PptContent | fastapi-excel-upload/main.py:96-120 | defines the PowerPoint output: the slides with elements, numbered from 1 (stated by the Ppt lemmas below) |
| Documents.GetShapeElements | fastapi-excel-upload/main.py:103-113 | a shape gives its non-blank text paragraphs, then its table |
| Documents.GetSlideElements | fastapi-excel-upload/main.py:103-113 | a slide's elements are its shapes' elements, shape by shape |
| Documents.GetPptFileContent | fastapi-excel-upload/main.py:96-120 | the loops produce the non-empty slides, numbered position + 1 |
| Documents.TextElementsExact | fastapi-excel-upload/main.py:105-107 | an element comes from a text frame iff it is the text of one of its paragraphs and that text is not blank |
| Documents.PptSlidesNumbered | fastapi-excel-upload/main.py:101-116 | each emitted slide carries a valid number and exactly the elements of the slide at that position, which are not empty |
| Documents.PptSlideNumbersIncreasing | fastapi-excel-upload/main.py:101-116 | slide numbers strictly increase along the output |
| Documents.PptSlideNumbersBelow | fastapi-excel-upload/main.py:101-102 | no emitted slide number exceeds the number of slides |
| Documents.PptSlideKeptIffNonEmpty | fastapi-excel-upload/main.py:115-116 | slide i + 1 appears in the output iff slide i has at least one element |
| Documents.PptContentEmpty | fastapi-excel-upload/main.py:101-116 | the PowerPoint output is empty iff no slide has an element |
| Observation.NonNull | cvproject/my-band-website/src/pages/MusicSection.jsx:21 | defines `filter(el => el !== null)` over optional refs (stated by the three lemmas below) |
| Observation.NonNullAppend | cvproject/my-band-website/src/pages/MusicSection.jsx:20-23 | filtering distributes over concatenation, so order is kept |
| Observation.NonNullExact | cvproject/my-band-website/src/pages/MusicSection.jsx:20-23 | an element is handed over iff its ref is present, and no more elements than refs |
| Observation.NonNullAllPresent | cvproject/my-band-website/src/pages/MusicSection.jsx:20-23 | when every ref is present, all of them are handed over, in order |
| MusicSection.NatToString | cvproject/my-band-website/src/pages/MusicSection.jsx:70 | defines the decimal text of `${album.id}` (stated by NatToStringInjective) |
| MusicSection.NatToStringLength | cvproject/my-band-website/src/pages/MusicSection.jsx:70 | helper for NatToStringInjective: a decimal text has at least one digit, and at least two from 10 up |
| MusicSection.NatToStringInjective | cvproject/my-band-website/src/pages/MusicSection.jsx:70 | different numbers print differently |
| MusicSection.CardIdInjective | cvproject/my-band-website/src/pages/MusicSection.jsx:70 | equal card ids mean equal album ids |
| MusicSection.CardId | cvproject/my-band-website/src/pages/MusicSection.jsx:70 | defines the card id `album-${id}` (stated by CardIdInjective) |
| MusicSection.CardIdsDistinct | cvproject/my-band-website/src/pages/MusicSection.jsx:14-18 | the three cards have pairwise different ids |
| MusicSection.ApplyEntry | cvproject/my-band-website/src/pages/MusicSection.jsx:33-40 | defines one entry's effect: add the id when intersecting, delete it otherwise (stated by BatchMembership) |
| MusicSection.ApplyBatch | cvproject/my-band-website/src/pages/MusicSection.jsx:31-41 | defines the in-order add/delete of the batch on a copy of the set (stated by BatchMembership) |
| MusicSection.BatchMembership | cvproject/my-band-website/src/pages/MusicSection.jsx:33-41 | after a batch an id is in the set iff its last entry is intersecting; an id the batch does not name keeps its membership |
| MusicSection.ApplyBatchIdempotent | cvproject/my-band-website/src/pages/MusicSection.jsx:31-44 | applying a batch twice gives the set that applying it once gives |
| MusicSection.CardClass | cvproject/my-band-website/src/pages/MusicSection.jsx:66-76 | defines a card's class choice (stated by CardClassExact) |
| MusicSection.CardClassExact | cvproject/my-band-website/src/pages/MusicSection.jsx:48-76 | there is a hidden-state class per card; a card shows the visible classes iff its id is in the set, and its own positional class otherwise |
| MusicSection.MusicSectionState.constructor | cvproject/my-band-website/src/pages/MusicSection.jsx:6 | the set starts empty |
| MusicSection.MusicSectionState.OnEntries | cvproject/my-band-website/src/pages/MusicSection.jsx:26-46 | an update happens iff the batch is non-empty, and the new set is the old one with the batch applied in order |
| TourModal.PricingRows | cvproject/my-band-website/src/components/TourModal.jsx:45-54 | defines one row per tier, keyed by its name (stated by RenderCases and RowKeysDistinct) |
| TourModal.Render | cvproject/my-band-website/src/components/TourModal.jsx:4-71 | defines the modal's view, nothing without a tour date (stated by RenderCases) |
| TourModal.RenderCases | cvproject/my-band-website/src/components/TourModal.jsx:6-54 | nothing renders iff there is no tour date; otherwise its venue, location and date are shown, and reading the tiers back off the rows gives its pricing list, each row keyed by its tier |
| TourModal.RowKeysDistinct | cvproject/my-band-website/src/components/TourModal.jsx:45-47 | distinct tier names give distinct row keys |
| TourModal.Parent | cvproject/my-band-website/src/components/TourModal.jsx:11-67 | defines the element nesting of the modal; the backdrop is the root (used by Ancestry, stated by InsideClick) |
| TourModal.HandlerOf | cvproject/my-band-website/src/components/TourModal.jsx:11-21 | defines the `onClick` of each element: `onClose` on the backdrop and the close button, `stopPropagation` on the container (stated by ClickClosesExact) |
| TourModal.Reached | cvproject/my-band-website/src/components/TourModal.jsx:11-21 | defines the handlers a click runs while bubbling, ending after `stopPropagation` (stated by BubbleStep and InsideClick) |
| TourModal.ClickCloses | cvproject/my-band-website/src/components/TourModal.jsx:11-21 | defines the number of `onClose` calls a click makes (stated by ClickClosesExact) |
| TourModal.BubbleStep | cvproject/my-band-website/src/components/TourModal.jsx:20-21 | one bubbling step through an element without `stopPropagation` adds that element's own `onClose` call |
| TourModal.InsideClick | cvproject/my-band-website/src/components/TourModal.jsx:15-21 | a click inside the container never reaches the backdrop handler, and calls `onClose` once iff it lands in the close button |
| TourModal.ClickClosesExact | cvproject/my-band-website/src/components/TourModal.jsx:11-27 | every click calls `onClose` at most once: once on the backdrop or in the close button, never elsewhere |
| TourSection.TourDateKeysDistinct | cvproject/my-band-website/src/pages/TourSection.jsx:79-98 | tour ids are distinct, and tier names are distinct within each date |
| TourSection.JsRem | cvproject/my-band-website/src/pages/TourSection.jsx:67 | defines JavaScript's `%`, which truncates toward zero |
| TourSection.NextIndex | cvproject/my-band-website/src/pages/TourSection.jsx:67 | defines the autoplay step `(prevIndex + 1) % slideImages.length` (stated by NextIndexInRange) |
| TourSection.Steps | cvproject/my-band-website/src/pages/TourSection.jsx:65-70 | defines n autoplay steps (stated by StepsWrap and FourStepsReturn) |
| TourSection.NextIndexInRange | cvproject/my-band-website/src/pages/TourSection.jsx:67 | from a valid index, the autoplay step goes to the next slide, or from the last to 0 |
| TourSection.WrapStep | cvproject/my-band-website/src/pages/TourSection.jsx:67 | helper for StepsWrap: adding one after reducing mod 4 equals reducing after adding one |
| TourSection.StepsWrap | cvproject/my-band-website/src/pages/TourSection.jsx:65-70 | n autoplay steps from a valid index land on (i + n) mod 4 |
| TourSection.FourStepsReturn | cvproject/my-band-website/src/pages/TourSection.jsx:57-67 | four steps return to the start, and no number of steps leaves [0, 4) |
| TourSection.SlideClass | cvproject/my-band-website/src/pages/TourSection.jsx:125 | defines a slide's class: opaque only for the current index (stated by ExactlyOneCurrent) |
| TourSection.DotClass | cvproject/my-band-website/src/pages/TourSection.jsx:135 | defines a dot's class: highlighted only for the current index (stated by ExactlyOneCurrent) |
| TourSection.ExactlyOneCurrent | cvproject/my-band-website/src/pages/TourSection.jsx:122-137 | exactly one slide is opaque and exactly one dot highlighted, both the current one |
| TourSection.HasTourEntry | cvproject/my-band-website/src/pages/TourSection.jsx:48-52 | defines the fade-in latch condition over a batch (stated by HasTourEntryExact) |
| TourSection.HasTourEntryExact | cvproject/my-band-website/src/pages/TourSection.jsx:47-53 | the latch condition holds iff some entry is the "tour" section, intersecting |
| TourSection.TourSectionState.constructor | cvproject/my-band-website/src/pages/TourSection.jsx:35-39 | index 0, nothing selected, not visible, interval started at mount |
| TourSection.TourSectionState.AdvanceTime | cvproject/my-band-website/src/pages/TourSection.jsx:65-70 | every tick due fires and advances the index one step; the next tick is ahead of the new clock; selection and latch are unchanged |
| TourSection.TourSectionState.GoToSlide | cvproject/my-band-website/src/pages/TourSection.jsx:72-74 | the index becomes exactly the argument; the interval fields are not touched |
| TourSection.TourSectionState.ClickDot | cvproject/my-band-website/src/pages/TourSection.jsx:131-134 | a dot click shows that dot's slide and keeps the index valid |
| TourSection.TourSectionState.OpenModal | cvproject/my-band-website/src/pages/TourSection.jsx:101-103 | the selection becomes the given tour whatever it was |
| TourSection.TourSectionState.CloseModal | cvproject/my-band-website/src/pages/TourSection.jsx:105-107 | the selection becomes null |
| TourSection.TourSectionState.ClickInModal | cvproject/my-band-website/src/pages/TourSection.jsx:174 | a click in the open modal clears the selection iff it lands on the backdrop or in the close button |
| TourSection.TourSectionState.OnEntries | cvproject/my-band-website/src/pages/TourSection.jsx:47-53 | visible afterwards iff visible before or the batch holds an intersecting "tour" entry; never reset |
| FaqSection.ToggleCases | cvproject/my-band-website/src/components/FAQSection.jsx:34-36 | the toggle closes iff that entry was open, and otherwise opens exactly that entry |
| FaqSection.ToggleTwice | cvproject/my-band-website/src/components/FAQSection.jsx:34-36 | two toggles of one entry restore the state when nothing or that entry was open; from another open entry they end closed |
| FaqSection.Marker | cvproject/my-band-website/src/components/FAQSection.jsx:73 | defines the marker after a question: "−" for the open one, "+" otherwise (stated by AtMostOneAnswer) |
| FaqSection.AnswerShown | cvproject/my-band-website/src/components/FAQSection.jsx:76-80 | defines whether an answer is rendered: only for the open index (stated by AtMostOneAnswer) |
| FaqSection.AtMostOneAnswer | cvproject/my-band-website/src/components/FAQSection.jsx:73-80 | the shown answers are just the open one (if any), the "−" markers are exactly the shown answers, and the rest show "+" |
| FaqSection.Toggle | cvproject/my-band-website/src/components/FAQSection.jsx:35 | defines `openIndex === index ? null : index` (stated by ToggleCases and ToggleTwice) |
| FaqSection.WithField | cvproject/my-band-website/src/components/FAQSection.jsx:39 | defines `{ ...formData, [name]: value }` (stated by SetOnlyThatField) |
| FaqSection.SetOnlyThatField | cvproject/my-band-website/src/components/FAQSection.jsx:38-40 | a change sets the named field and keeps the other three |
| FaqSection.AllFilled | cvproject/my-band-website/src/components/FAQSection.jsx:91-125 | defines the browser's `required` check: every field non-empty (stated by EmptyFormBlank and SubmitForm) |
| FaqSection.EmptyFormBlank | cvproject/my-band-website/src/components/FAQSection.jsx:45 | the reset form has every field empty, so it cannot be submitted as it is |
| FaqSection.Due | cvproject/my-band-website/src/components/FAQSection.jsx:47-49 | defines whether a scheduled clear is due (stated by PendingExact) |
| FaqSection.Remaining | cvproject/my-band-website/src/components/FAQSection.jsx:47-49 | defines the clears still scheduled after a time (stated by PendingExact and RemainingShorter) |
| FaqSection.PendingExact | cvproject/my-band-website/src/components/FAQSection.jsx:47-49 | a clear is due iff some scheduled time has come; those left waiting are exactly the scheduled ones still ahead, fewer iff one was due |
| FaqSection.RemainingShorter | cvproject/my-band-website/src/components/FAQSection.jsx:47-49 | firing clears never adds a scheduled clear |
| FaqSection.FaqSectionState.constructor | cvproject/my-band-website/src/components/FAQSection.jsx:4-11 | nothing open, all four fields "", no message, nothing scheduled |
| FaqSection.FaqSectionState.ToggleFaq | cvproject/my-band-website/src/components/FAQSection.jsx:34-36 | the open entry becomes the toggle of the old one |
| FaqSection.FaqSectionState.HandleChange | cvproject/my-band-website/src/components/FAQSection.jsx:38-40 | only the named field changes, to the new value |
| FaqSection.FaqSectionState.SubmitForm | cvproject/my-band-website/src/components/FAQSection.jsx:42-50 | accepted iff every field is filled; then the confirmation shows, the fields reset and a clear is scheduled 3000 ms ahead; otherwise nothing changes |
| FaqSection.FaqSectionState.ClearMessage | cvproject/my-band-website/src/components/FAQSection.jsx:48 | the message becomes empty |
| FaqSection.FaqSectionState.AdvanceTime | cvproject/my-band-website/src/components/FAQSection.jsx:47-49 | the due clears fire, emptying the message whatever was submitted since; the others stay scheduled |

## Left out

- Real file and network I/O is not modelled: aiofiles, `mkdir`, `unlink`, `json.dump` and the HTTP framework. The directories are maps from name to content, and the upload is an `UploadFile` object with a designated faulting read.
- `UploadService.Service.SaveUploadFileChunked`: a failing write and a failing read count as one fault, at a read index. The size of each chunk is bounded only through `Read`'s contract.
- A failing JSON write at the end of processing is not modelled. Its exception would turn a completion into "failed".
- pathlib normalisation is not modelled: repeated or trailing '/' and '.' components. `Name` is the text after the last '/'. `suffix`/`stem` follow the rule of Python up to 3.13.
- `str.lower()` covers only ASCII A-Z; other cased letters keep their case.
- `UploadService.HttpError.Detail`: the 400 message lists the allow-list in one fixed order. Python prints the set in hash order.
- The Excel branch keeps only its completed/failed outcome and the non-empty sheets it combines. The pandas `read_excel`/`concat`/`to_dict` internals, the added `source_sheet` and `processed_at` columns, and record layout are out.
- python-docx and python-pptx parsing is out. Documents, slides, shapes and tables are given as values.
- Task ids (`uuid4`) and timestamps (`utcnow`) are parameters. `IsTaskId` states the shape of a uuid4 string.
- `BackgroundTasks` scheduling and concurrency are out. The background step is a separate sequential call.
- Logging, `/health` and the exception handler are left out: they carry no state.
- The IntersectionObserver hooks are replaced by explicit entry batches: `useIntersectionObserver.js` and the inline copy in `TourSection.jsx`. Thresholds and margins are out.
- `setInterval`/`setTimeout` are replaced by a clock and `AdvanceTime`. Unmount and interval cleanup are not modelled.
- React's batching of state updates is not modelled. Each handler acts on the current state.
- Browser validation of the email and tel formats is not modelled. Only `required` is.
- `TourSection.JsRem` is stated for a positive divisor only. The divisor is always the slide count, 4.
- CSS classes, animations, images and `href` targets are presentational. Only the class choices named above are modelled.
- `ParticleBackground.jsx` is not part of this model: canvas, randomness, floating point.
- `HeroSection.jsx`, `Header.jsx`, `Footer.jsx`, `App.jsx` and `ContactSection.jsx` are not part of this model: presentational.
