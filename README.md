# AutoWare editor core in Dafny

AutoWare builds a warehouse video from a composition: five sections (satellite and
drone, location highlights, internal storage, external docking, compliances). Each
section has media URLs and a narration with a transcript and a length. This project
models the browser editor that fills in a composition:

- **schema_form.dfy**: the form generator that walks the composition schema. It covers
  field types under wrappers, labels, which keys are shown, the section-duration rule
  tied to the narration, the "Add" button of object arrays, and how sections are split,
  ordered and reordered.
- **annotation_canvas.dfy**: the map annotation editor. It covers the pen canvas and
  rectangle overlay, the bounded undo/redo history, and the layer-editing actions. The
  editor is a class whose methods update its fields.
- **annotation_layer_list.dfy**: the list of annotation layers. Its handlers reorder,
  edit and remove layers, and the total narration length is shown.
- **upload.dfy**: file validation (size first, then extension), the PUT
  with retries, and how single and batch uploads report their errors.
- **api.dfy**: the backend client. It covers how a failed response becomes an error
  message, the network-error rewording, the lambda envelope, and header merging.
- **media_upload.dfy**, **video_upload.dfy**: the two pickers. Each is a class holding
  the preview, the kind and the file name, plus the sequence of callbacks, alerts and
  URL revocations it has made.
- **google_maps.dfy**: the location field. It covers the four Google Maps URL shapes
  tried in order, the effect that writes a link from stored coordinates, and the
  confirm handler.
- **warehouse_fetcher.dfy**: the warehouse-ID field. It covers input validation, the
  friendly error wording, and the disabled rule of the fetch button.
- **schemata.dfy**: the shared zod schema of a composition, as a predicate over JSON
  documents.
- **text.dfy**, **sequences.dfy**, **wrappers.dfy**: the JavaScript string and array
  methods the components use, with their own lemmas.

Browser and network effects are inputs to the model. Examples: the pixels a stroke
leaves, the data URL of the merged canvas, the outcome of each PUT, the result of
`Number(…)`, and the object URL the browser makes. Callbacks, `alert` and
`URL.revokeObjectURL` are recorded as events in order. An optional callback
(`onVideoChange?.(…)`, `onImageChange?.(…)`, `onFileSelect?.(…)`) is recorded as an event
that stands for the call made when the callback is given; when it is absent the source
makes no call, and the parent simply never sees that event.

## Model

| member | source | states |
|---|---|---|
| SchemaForm.FieldType | apps/web/app/components/SchemaFormGenerator.tsx:139-161 | a node that is neither a wrapper nor a union answers with its own type name; the type name found under the wrappers is never a wrapper name, and it is a union only when the chain of first options ends at a union without options |
| SchemaForm.FieldTypeOfWrapped | apps/web/app/components/SchemaFormGenerator.tsx:139-161 | a bare non-union field type under any stack of optional/nullable/refined/first-option wrappers answers with the innermost node's own type name |
| SchemaForm.FieldTypeIgnoresWrappers | apps/web/app/components/SchemaFormGenerator.tsx:139-161 | any stack of optional/nullable/refined/first-option wrappers leaves the field type unchanged |
| SchemaForm.ReplaceVideoUrlSuffix | apps/web/app/components/SchemaFormGenerator.tsx:132 | a final "VideoUrl" in any case becomes "Video"; any other text is unchanged |
| SchemaForm.SpacedCapitals | apps/web/app/components/SchemaFormGenerator.tsx:133 | in the spaced key every capital follows a space, and removing the spaces gives the key back |
| SchemaForm.CapitaliseFirst | apps/web/app/components/SchemaFormGenerator.tsx:134 | same length and the same text after the first character, whose first character is upper-cased unless it is a line terminator |
| SchemaForm.ToTitleCase | apps/web/app/components/SchemaFormGenerator.tsx:130-136 | the label is trimmed: it neither starts nor ends with white space |
| SchemaForm.TitleCaseOfCamelCase | apps/web/app/components/SchemaFormGenerator.tsx:130-136 | for a camelCase key without a "VideoUrl" ending, the label reads as the key once spaces are removed, and its first letter is a capital |
| SchemaForm.TitleCaseIsCapitalisedSpacing | apps/web/app/components/SchemaFormGenerator.tsx:130-136 | for such a key, `trim` has nothing to remove from the capitalised spaced key |
| SchemaForm.SpacingConcat | apps/web/app/components/SchemaFormGenerator.tsx:133 | inserting the spaces works piece by piece: spacing a concatenation is the concatenation of the spaced pieces |
| SchemaForm.SpacingNoCapitals | apps/web/app/components/SchemaFormGenerator.tsx:133 | a text without capitals gets no space |
| SchemaForm.SpacingOneCapital | apps/web/app/components/SchemaFormGenerator.tsx:133 | a single capital between two runs without capitals gains exactly one space before it |
| SchemaForm.CapitalisedEnds | apps/web/app/components/SchemaFormGenerator.tsx:134 | capitalising a text that starts with a lower-case letter and does not end in white space leaves white space at neither end |
| SchemaForm.DroneVideoLabel | apps/web/app/components/SchemaFormGenerator.tsx:130-136 | the key "droneVideoUrl" is labelled "Drone Video" |
| SchemaForm.AddButtonLabel | apps/web/app/components/SchemaFormGenerator.tsx:323 | the button label starts with "Add " |
| SchemaForm.AddButtonLabelOfPlural | apps/web/app/components/SchemaFormGenerator.tsx:323 | for a plural camelCase key the button reads "Add" and the key without its final "s", first letter capitalised, once spaces are removed |
| SchemaForm.AddButtonLabelDropsS | apps/web/app/components/SchemaFormGenerator.tsx:323 | a key ending in "s" is labelled after the key without that "s" |
| SchemaForm.UnspacedAfterAdd | apps/web/app/components/SchemaFormGenerator.tsx:323 | removing spaces from "Add " followed by a label drops only the space after "Add" |
| SchemaForm.UnspacedOfAdd | apps/web/app/components/SchemaFormGenerator.tsx:323 | "Add " without its space is "Add" |
| SchemaForm.Keys | apps/web/app/components/SchemaFormGenerator.tsx:596-600 | the keys of a shape, in declaration order, one per entry |
| SchemaForm.RenderWidget | apps/web/app/components/SchemaFormGenerator.tsx:164-576 | the managed keys render nothing; the transcript editor is shown exactly for a string "transcript"; the video picker exactly for other string keys containing "video" in any case; the duration input exactly for the number "sectionDurationInSeconds"; nothing is rendered only for arrays of non-objects, literals and unions; an array of objects gets an item editor over its item keys exactly when its element is a bare object schema; a wrapped object element shows the label and Add button with no items and throws once there are items |
| SchemaForm.MinDuration | apps/web/app/components/SchemaFormGenerator.tsx:397 | the minimum shown is narration + 1 s for a truthy narration length, else 0 |
| SchemaForm.ValidateSectionDuration | apps/web/app/components/SchemaFormGenerator.tsx:405-414 | without a positive narration every value passes; with one, a set value passes exactly when it is at least narration + 1 s |
| SchemaForm.ShownMinimumIsEnforced | apps/web/app/components/SchemaFormGenerator.tsx:397-414 | for a positive narration the minimum shown is the one enforced: below it is rejected, at or above it accepted |
| SchemaForm.NegativeNarrationMinimumNotEnforced | apps/web/app/components/SchemaFormGenerator.tsx:397-414 | with a negative narration length the shown minimum is not enforced |
| SchemaForm.BlankValue | apps/web/app/components/SchemaFormGenerator.tsx:314-317 | a blank value exists exactly for string, number and boolean fields (after the wrappers), and it is "", 0 and false respectively |
| SchemaForm.DefaultItem | apps/web/app/components/SchemaFormGenerator.tsx:311-318 | the loop gives every field of the shape that has a blank value that value, and no other key |
| SchemaForm.AddItem | apps/web/app/components/SchemaFormGenerator.tsx:309-319 | the new list is the current items (none when unset) followed by one item that holds each field's blank value, for exactly the fields that have one, and no key outside the item shape |
| SchemaForm.PartitionIsExact | apps/web/app/components/SchemaFormGenerator.tsx:601-608 | every entry other than "sectionOrder" is shown exactly once, as a fixed entry or as a section |
| SchemaForm.OrderedKeysAreSectionKeys | apps/web/app/components/SchemaFormGenerator.tsx:613-616 | the ordered keys are exactly the keys of the section entries |
| SchemaForm.OrderedKeysFollowOrder | apps/web/app/components/SchemaFormGenerator.tsx:613-616 | with an order and a callback, the sections follow the given order |
| SchemaForm.DefaultOpen | apps/web/app/components/SchemaFormGenerator.tsx:619 | the item open at first is the first fixed entry when there is one, else the first ordered section, and there is none only when both lists are empty |
| SchemaForm.HasDragAndDrop | apps/web/app/components/SchemaFormGenerator.tsx:666 | drag and drop is offered exactly when an order and a callback are given and some section is ordered |
| SchemaForm.SectionDragEnd | apps/web/app/components/SchemaFormGenerator.tsx:705-713 | no change without a target or when dropped on itself; otherwise a permutation of the keys with the dragged key at the index `indexOf` gives the target, and removing it there leaves the other keys in the order they had with it removed from its own `indexOf` index |
| Sequences.WithoutIndex | apps/web/app/components/SchemaFormGenerator.tsx:293 | removing an item keeps every other item in order |
| Sequences.ArrayMove | apps/web/app/components/AnnotationLayerList.tsx:173 | a permutation with the moved element at its new index; removing it there gives the list with it removed from its old index |
| Sequences.InsertRemoveAt | apps/web/app/components/AnnotationLayerList.tsx:173 | removing what was inserted gives the original list back |
| Sequences.FindIndex | apps/web/app/components/AnnotationLayerList.tsx:171-172 | the first index satisfying the test, or -1 when none does |
| Sequences.Filter | apps/web/app/components/AnnotationLayerList.tsx:199 | exactly the elements that pass, and no more of them than the list holds |
| Sequences.FilterConcat | apps/web/app/components/AnnotationLayerList.tsx:199 | filtering keeps order: the survivors of a front part come before those of a back part |
| Sequences.FilterAt | apps/web/app/components/AnnotationCanvas.tsx:407 | a passing element comes out right after the survivors of the elements before it |
| Sequences.FilterKeepsOrder | apps/web/app/components/AnnotationCanvas.tsx:407 | a passing element has fewer survivors before it than any later element |
| Sequences.FilterOrder | apps/web/app/components/AnnotationCanvas.tsx:407 | two passing elements come out in the order they went in |
| Sequences.FilterAround | apps/web/app/components/AnnotationCanvas.tsx:407 | a passing element between two parts comes out between their survivors |
| Sequences.FilterMultiset | apps/web/app/components/AnnotationCanvas.tsx:407 | every passing element comes out as often as it occurs, and no other element at all |
| Sequences.FirstIndexUnique | apps/web/app/components/SchemaFormGenerator.tsx:709-710 | `indexOf` names one index only |
| Sequences.FirstSomeIsFirst | apps/web/app/lib/upload.ts:194-196 | a result found comes from an element all of whose predecessors gave none |
| Text.Trim | apps/web/app/components/WarehouseDataFetcher.tsx:23 | a slice of the text with only white space cut at either end, starting and ending with non-white space, and empty exactly when the text is all white space |
| Text.AfterLast | apps/web/app/lib/upload.ts:37 | a suffix without the separator, preceded by the separator, and the whole text exactly when there is no separator |
| Text.NatToStringValue | apps/web/app/lib/api.ts:83 | the decimal rendering of a status reads back as the status |
| AnnotationLayerList.Renumbered | apps/web/app/components/AnnotationLayerList.tsx:173-175 | the same layers in the same order, each numbered by its index |
| AnnotationLayerList.DragEnd | apps/web/app/components/AnnotationLayerList.tsx:168-178 | a change exactly when there is a target other than the dragged layer; then the dragged layer is moved to the target's index and the list is renumbered |
| AnnotationLayerList.TranscriptChange | apps/web/app/components/AnnotationLayerList.tsx:180-186 | the layers with that id get the transcript; their drawing and other narration fields, and every other layer, are unchanged |
| AnnotationLayerList.DurationChange | apps/web/app/components/AnnotationLayerList.tsx:188-194 | the layers with that id get the duration; everything else is unchanged |
| AnnotationLayerList.Remove | apps/web/app/components/AnnotationLayerList.tsx:196-202 | exactly the layers with another id, in order, renumbered from zero |
| AnnotationLayerList.DragEndKeepsTotal | apps/web/app/components/AnnotationLayerList.tsx:168-178 | reordering keeps the total narration length shown |
| AnnotationLayerList.TranscriptChangeKeepsTotal | apps/web/app/components/AnnotationLayerList.tsx:180-186 | editing a transcript keeps the total |
| AnnotationLayerList.RemoveTotal | apps/web/app/components/AnnotationLayerList.tsx:196-202 | removing lowers the total by exactly the lengths of the removed layers |
| AnnotationLayerList.DurationChangeTotal | apps/web/app/components/AnnotationLayerList.tsx:188-194 | with distinct ids, setting one layer's length moves the total by the difference |
| AnnotationLayerList.TotalConcat | apps/web/app/components/AnnotationLayerList.tsx:212 | the total of two parts is the sum of their totals |
| AnnotationCanvas.Capture | apps/web/app/components/AnnotationCanvas.tsx:69-78 | a snapshot exists exactly when the canvas does, and holds its pixels and a copy of the rectangles |
| AnnotationCanvas.Restored | apps/web/app/components/AnnotationCanvas.tsx:90-98 | with a canvas, the snapshot's pixels and rectangles come back; without one, nothing changes |
| AnnotationCanvas.Pushed | apps/web/app/components/AnnotationCanvas.tsx:80-88 | the current state goes on top of the undo stack, the oldest entry goes past MAX_HISTORY, and redo is emptied |
| AnnotationCanvas.Undone | apps/web/app/components/AnnotationCanvas.tsx:100-108 | on an empty stack nothing happens; otherwise the top is restored and the current state goes onto redo |
| AnnotationCanvas.Redone | apps/web/app/components/AnnotationCanvas.tsx:110-118 | the mirror image of undo |
| AnnotationCanvas.Reset | apps/web/app/components/AnnotationCanvas.tsx:120-126 | both stacks and the rectangles are emptied; the pixels are kept |
| AnnotationCanvas.RedoUndoesUndo | apps/web/app/components/AnnotationCanvas.tsx:100-118 | redo right after undo puts back the drawing and both stacks |
| AnnotationCanvas.UndoUndoesRedo | apps/web/app/components/AnnotationCanvas.tsx:100-118 | undo right after redo puts back the drawing and both stacks |
| AnnotationCanvas.UnmountedUndoDiscards | apps/web/app/components/AnnotationCanvas.tsx:100-108 | without a canvas, undo only drops the top of the undo stack |
| AnnotationCanvas.HistoryStaysBounded | apps/web/app/components/AnnotationCanvas.tsx:22 | every history operation keeps the two stacks together within MAX_HISTORY |
| AnnotationCanvas.UndoAfterPushRestores | apps/web/app/components/AnnotationCanvas.tsx:80-108 | the next undo after a push brings back the pushed state |
| AnnotationCanvas.Normalize | apps/web/app/components/AnnotationCanvas.tsx:168-173 | non-negative size, covering exactly the points of the dragged span on each axis |
| AnnotationCanvas.NormalizeIdempotent | apps/web/app/components/AnnotationCanvas.tsx:168-173 | normalizing twice is normalizing once |
| AnnotationCanvas.Cleared | apps/web/app/components/AnnotationCanvas.tsx:290-297 | every pixel transparent, same size |
| AnnotationCanvas.ClearedHasNoInk | apps/web/app/components/AnnotationCanvas.tsx:290-321 | a cleared canvas without rectangles has no content |
| AnnotationCanvas.WithDrawing | apps/web/app/components/AnnotationCanvas.tsx:323-330 | the edited layer takes the drawing and the colour; the others are unchanged |
| AnnotationCanvas.FinalLayers | apps/web/app/components/AnnotationCanvas.tsx:393-409 | every saved layer has a drawing; without an edit with content the saved list is the layers that have one, in order; with one it is the same filter applied after the edited layer takes the merged drawing and colour |
| AnnotationCanvas.FinalLayersUntouched | apps/web/app/components/AnnotationCanvas.tsx:393-409 | a saved layer other than the edited one is one of the layers as they were |
| AnnotationCanvas.FinalLayersKeepDrawn | apps/web/app/components/AnnotationCanvas.tsx:393-409 | a layer with a drawing that is not being edited is always saved |
| AnnotationCanvas.FinalLayersSaveEdit | apps/web/app/components/AnnotationCanvas.tsx:396-407 | with something drawn and a non-empty merged drawing, the edited layer is saved carrying that drawing and the current colour |
| AnnotationCanvas.FinalLayersDropEmptyEdit | apps/web/app/components/AnnotationCanvas.tsx:396-407 | with an empty merged drawing the edited layer is not saved, even if it had a drawing before |
| AnnotationCanvas.FinalLayersKeepOrder | apps/web/app/components/AnnotationCanvas.tsx:396-407 | of two layers that leave the edit step with a drawing, the earlier one is saved earlier |
| AnnotationCanvas.FinalLayersCount | apps/web/app/components/AnnotationCanvas.tsx:396-407 | each layer is saved exactly as often as it leaves the edit step with a drawing, and a layer without one never |
| AnnotationCanvas.FreshLayer | apps/web/app/components/AnnotationCanvas.tsx:356-377 | "Layer n+1", numbered after the existing ones, no drawing, a 3 s narration with an empty transcript |
| AnnotationCanvas.WithoutLayer | apps/web/app/components/AnnotationCanvas.tsx:380-390 | exactly the layers with another id |
| AnnotationCanvas.AnnotationEditor.constructor | apps/web/app/components/AnnotationCanvas.tsx:43-48 | pen tool, the first preset colour, the given layers, empty history and no rectangles |
| AnnotationCanvas.AnnotationEditor.PushUndo | apps/web/app/components/AnnotationCanvas.tsx:80-88 | the history becomes `Pushed` of the old one; nothing else changes |
| AnnotationCanvas.AnnotationEditor.Undo | apps/web/app/components/AnnotationCanvas.tsx:100-108 | the history becomes `Undone` of the old one |
| AnnotationCanvas.AnnotationEditor.Redo | apps/web/app/components/AnnotationCanvas.tsx:110-118 | the history becomes `Redone` of the old one |
| AnnotationCanvas.AnnotationEditor.ResetHistory | apps/web/app/components/AnnotationCanvas.tsx:120-126 | the history becomes `Reset` of the old one |
| AnnotationCanvas.AnnotationEditor.SelectTool | apps/web/app/components/AnnotationCanvas.tsx:433-441 | the tool becomes the one chosen |
| AnnotationCanvas.AnnotationEditor.SelectColor | apps/web/app/components/AnnotationCanvas.tsx:443-454 | the colour becomes the one chosen |
| AnnotationCanvas.AnnotationEditor.MouseDown | apps/web/app/components/AnnotationCanvas.tsx:222-240 | pushes for undo, starts drawing, and with the rectangle tool records the start corner |
| AnnotationCanvas.AnnotationEditor.MouseMove | apps/web/app/components/AnnotationCanvas.tsx:242-265 | the stroke reaches the canvas only while drawing with the pen on a mounted canvas |
| AnnotationCanvas.AnnotationEditor.MouseUp | apps/web/app/components/AnnotationCanvas.tsx:267-288 | ends the drag; a rectangle larger than 2 px each way is committed as dragged (width and height may be negative; normalising happens only when drawing), others are dropped |
| AnnotationCanvas.AnnotationEditor.Clear | apps/web/app/components/AnnotationCanvas.tsx:290-297 | pushes for undo, then wipes the pixels and rectangles when the canvas exists; layers, editing id, tool, colour and drawing state are kept |
| AnnotationCanvas.AnnotationEditor.CanvasHasContent | apps/web/app/components/AnnotationCanvas.tsx:312-321 | true exactly when there is a rectangle or inked pixel on a mounted canvas |
| AnnotationCanvas.AnnotationEditor.MergedDataUrl | apps/web/app/components/AnnotationCanvas.tsx:299-310 | exactly the PNG with a canvas, and exactly "" without one |
| AnnotationCanvas.AnnotationEditor.AutoSave | apps/web/app/components/AnnotationCanvas.tsx:323-330 | the edited layer takes the drawing only when a layer is edited and there is content |
| AnnotationCanvas.AnnotationEditor.ClearAll | apps/web/app/components/AnnotationCanvas.tsx:336-340 | the inline wipe before loading a layer (repeated when starting a new layer and when removing the edited one): pixels and rectangles wiped and the history forgotten; the layers are unchanged |
| AnnotationCanvas.AnnotationEditor.NewLayer | apps/web/app/components/AnnotationCanvas.tsx:356-377 | saves the current layer, appends a fresh one in the current colour and edits it on a blank canvas and history; tool, colour and drawing state are kept |
| AnnotationCanvas.AnnotationEditor.RemoveLayer | apps/web/app/components/AnnotationCanvas.tsx:380-390 | drops the layer; the canvas and history are wiped only when it was the one edited; tool, colour and drawing state are kept |
| AnnotationCanvas.AnnotationEditor.LoadLayer | apps/web/app/components/AnnotationCanvas.tsx:333-353 | saves the current layer, then edits the chosen one in its colour with its drawing decoded onto a blank canvas; tool and drawing state are kept |
| AnnotationCanvas.AnnotationEditor.Done | apps/web/app/components/AnnotationCanvas.tsx:393-409 | hands over `FinalLayers`: every layer handed over has a drawing |
| Upload.Extension | apps/web/app/lib/upload.ts:36-37 | a suffix of the lower-cased name without dots, preceded by a dot, and the whole lower-cased name when there is no dot |
| Upload.ValidFileType | apps/web/app/lib/upload.ts:35-45 | the extension after the last dot (or the whole lower-cased name) must be one of the kind's allowed types |
| Upload.ValidFileTypeMeans | apps/web/app/lib/upload.ts:35-45 | a passing name carries an allowed extension, in any case, after a dot or as the whole name |
| Upload.ValidFileTypeOfUndotted | apps/web/app/lib/upload.ts:35-45 | a name without a dot passes exactly when, lower-cased, it is an allowed extension itself |
| Upload.ValidFileSize | apps/web/app/lib/upload.ts:52-54 | the size is at most MAX_FILE_SIZE |
| Upload.ValidFileSizeLimit | apps/web/app/lib/upload.ts:4 | 500 MiB passes and one byte more does not |
| Upload.RetryDelay | apps/web/app/lib/upload.ts:105 | one second after the first attempt, doubling after each further attempt |
| Upload.ValidFileTypeOfDotted | apps/web/app/lib/upload.ts:35-45 | a name ending in a dot and an allowed extension, in any case, passes the type check |
| Upload.ValidateFile | apps/web/app/lib/upload.ts:62-75 | the size is checked first, then the type; no error exactly when both pass |
| Upload.Retry | apps/web/app/lib/upload.ts:85-112 | at most MAX_RETRY_ATTEMPTS PUTs, stopping at the first success; a failure means the last attempt failed, and it carries that attempt's error |
| Upload.RetryWaits | apps/web/app/lib/upload.ts:103-107 | the waits are 1000 ms and then 2000 ms, never a third |
| Upload.RetrySucceedsMeans | apps/web/app/lib/upload.ts:85-112 | the run succeeds exactly when one of the first three attempts does |
| Upload.RetryFailedEverywhere | apps/web/app/lib/upload.ts:85-112 | a failed run had all three attempts fail |
| Upload.FileErrorMessage | apps/web/app/lib/upload.ts:160-172 | the first matching phrase decides the rewording, in the order size, type, PUT status, presigned URL, fetch, each naming the file; a message matching no phrase is kept |
| Upload.UploadFile | apps/web/app/lib/upload.ts:119-178 | success with the public URL only when validation, the URL request and the PUT run succeed; otherwise an empty URL and the reworded error |
| Upload.TypeFailureReadsAsSizeFailure | apps/web/app/lib/upload.ts:160-163 | a name containing "exceeds maximum size" makes a type failure read as "File too large" |
| Upload.FirstInvalid | apps/web/app/lib/upload.ts:194-196 | the error of the first request that fails validation, or none |
| Upload.ValidateAll | apps/web/app/lib/upload.ts:194-196 | the loop's result is `FirstInvalid` of the requests |
| Upload.Find | apps/web/app/lib/upload.ts:265-271 | the first request that passes the test, or none when none does |
| Upload.BatchErrorMessage | apps/web/app/lib/upload.ts:254-277 | a size failure names the first too-large file and a type failure the first wrongly typed one, keeping the message when none is found; a presigned-URL failure becomes "Server error: Unable to prepare uploads"; any other message is kept |
| Upload.ItemErrorMessage | apps/web/app/lib/upload.ts:227-240 | a PUT status failure and a fetch failure are reworded to name the file, in that order; any other message is kept |
| Upload.ItemResult | apps/web/app/lib/upload.ts:215-248 | success with the entry's public URL exactly when its PUT run succeeds; a missing entry fails with the TypeError message |
| Upload.CatchBeforeUploads | apps/web/app/lib/upload.ts:193-212 | validating in order, then asking for the URLs and checking the list, reaches exactly the message `BatchCaught` describes |
| Upload.BatchCaught | apps/web/app/lib/upload.ts:192-212 | the first validation error, else the presigned-URL failure, else the missing-URLs error; none exactly when all files pass and the URL list is not empty |
| Upload.EmptyUrlListMessage | apps/web/app/lib/upload.ts:210-276 | an empty or missing URL list reaches every result as "Server error: Unable to prepare uploads" |
| Upload.UploadBatch | apps/web/app/lib/upload.ts:187-286 | no requests, no results; otherwise one result per request, all failing with the same message when validation or the URL request fails |
| Api.BodyMessage | apps/web/app/lib/api.ts:82-83 | `error`, else `message`, else "Request failed with status n"; an unparsable body gives "Request failed"; a null body throws |
| Api.StatusPrefix | apps/web/app/lib/api.ts:86-96 | the text put before the body's message for each status; its values are stated by `Api.StatusPrefixTable` |
| Api.StatusPrefixTable | apps/web/app/lib/api.ts:86-96 | the prefix for 404, 400, 401/403, 5xx and the rest |
| Api.StatusError | apps/web/app/lib/api.ts:81-97 | a null body gives a TypeError; otherwise an Error with the status prefix and the body's message |
| Api.Reworded | apps/web/app/lib/api.ts:100-106 | a TypeError that mentions "fetch" becomes the network error; anything else is rethrown |
| Api.RewordedSettles | apps/web/app/lib/api.ts:100-106 | rewording twice is rewording once |
| Api.FetchRequest | apps/web/app/lib/api.ts:68-107 | an OK response gives its JSON; otherwise the status error or the thrown error, reworded |
| Api.StatusErrorNotReworded | apps/web/app/lib/api.ts:81-106 | a status error, even the TypeError from a null body, is never reworded |
| Api.FailedResponseMessage | apps/web/app/lib/api.ts:81-97 | a readable failed response fails with the prefix followed by the body's message |
| Api.NoRawFetchTypeError | apps/web/app/lib/api.ts:100-106 | no failure is a TypeError mentioning "fetch" |
| Api.MakeRequest | apps/web/app/lib/api.ts:59-64 | success exactly for a success envelope, with its data; otherwise an Error with the server's message |
| Api.Headers | apps/web/app/lib/api.ts:74-78 | every caller header is sent as given, and the JSON content type when the caller gave none |
| MediaUpload.Classify | apps/web/app/components/MediaUpload.tsx:41-49 | video exactly for a "video/" type, image for an "image/" type that is not a video, none otherwise |
| MediaUpload.ReportedSkips | apps/web/app/components/MediaUpload.tsx:45 | alerts and other events leave the last reported values unchanged |
| MediaUpload.ReportedAfterPair | apps/web/app/components/MediaUpload.tsx:58-64 | after the pair of change callbacks, the parent was last told each kind's value |
| MediaUpload.MediaPicker.constructor | apps/web/app/components/MediaUpload.tsx:24-30 | a video value makes a video preview, else an image value an image preview |
| MediaUpload.MediaPicker.FileChange | apps/web/app/components/MediaUpload.tsx:36-68 | no file: nothing; another type: only the alert; else the preview, the kind and the name change, the kind is reported with the other cleared, and `onFileSelect` is called; the parent's values always agree with the preview |
| MediaUpload.MediaPicker.Remove | apps/web/app/components/MediaUpload.tsx:70-83 | an object-URL preview is revoked, the picker is emptied, both values are reported as "" and `onFileSelect(null, 'video')` is called |
| VideoUpload.LastReportedAfter | apps/web/app/components/VideoUpload.tsx:41-50 | a report followed by non-reports stays the last one |
| VideoUpload.LastReportedSkips | apps/web/app/components/VideoUpload.tsx:31 | an alert leaves the last report unchanged |
| VideoUpload.VideoPicker.constructor | apps/web/app/components/VideoUpload.tsx:18-19 | the preview is the value when it is not empty |
| VideoUpload.VideoPicker.FileChange | apps/web/app/components/VideoUpload.tsx:25-42 | no file: nothing; a non-video: only the alert; a video becomes the preview and is reported; the parent's value agrees with the preview |
| VideoUpload.VideoPicker.Remove | apps/web/app/components/VideoUpload.tsx:44-54 | an object-URL preview is revoked, the picker is emptied and "" is reported |
| GoogleMaps.ScanToken | apps/web/app/components/GoogleMapsInput.tsx:20 | a coordinate read from an index ends after it and within the text; its grammar is stated in `ScanTokenGrammar` |
| GoogleMaps.ScanTokenGrammar | apps/web/app/components/GoogleMapsInput.tsx:20 | the scanner reads exactly the longest text that is `-?\d+\.?\d*` (an optional minus, a digit, then only digits and at most one dot), and finds nothing exactly when no such text starts there |
| GoogleMaps.ScanTokenFollowsGrammar | apps/web/app/components/GoogleMapsInput.tsx:20 | what the scanner reads follows the grammar |
| GoogleMaps.ScanTokenLongest | apps/web/app/components/GoogleMapsInput.tsx:20 | no longer text from the same index follows the grammar (the greedy quantifiers) |
| GoogleMaps.ScanTokenNoneMeans | apps/web/app/components/GoogleMapsInput.tsx:20 | where the scanner finds nothing, no text from that index follows the grammar |
| GoogleMaps.IsTokenGrammar | apps/web/app/components/GoogleMapsInput.tsx:20 | a whole token as the parser reads it is exactly a text following the grammar |
| GoogleMaps.ScanTokenMeans | apps/web/app/components/GoogleMapsInput.tsx:20 | a coordinate starts exactly where a digit follows the optional minus sign, and no digit follows where it ends |
| GoogleMaps.ScanTokenInside | apps/web/app/components/GoogleMapsInput.tsx:20 | a whole token inside a text, followed by something that cannot continue it, is read there in full |
| GoogleMaps.TokenIsolated | apps/web/app/components/GoogleMapsInput.tsx:20 | a token read inside a text is a whole token on its own |
| GoogleMaps.Search | apps/web/app/components/GoogleMapsInput.tsx:20-53 | a match is found exactly when some start index matches |
| GoogleMaps.SearchIsLeftmost | apps/web/app/components/GoogleMapsInput.tsx:20-53 | the match found is the one at the leftmost start that matches |
| GoogleMaps.Extract | apps/web/app/components/GoogleMapsInput.tsx:16-56 | no link gives none; otherwise the shapes are tried in the order @, place, q, ll, the first that matches anywhere gives the result, and none matching gives none |
| GoogleMaps.PlaceImpliesAt | apps/web/app/components/GoogleMapsInput.tsx:20-38 | every `place/…/@lat,lng` match contains an `@lat,lng` match |
| GoogleMaps.PlaceNeverDecides | apps/web/app/components/GoogleMapsInput.tsx:20-38 | the second shape never decides the result |
| GoogleMaps.PairAtYieldsTokens | apps/web/app/components/GoogleMapsInput.tsx:20 | each coordinate read is a whole token |
| GoogleMaps.MapsLinkRoundTrip | apps/web/app/components/GoogleMapsInput.tsx:16-72 | a link written from plain-decimal coordinates reads back as the same two texts |
| GoogleMaps.SyncLink | apps/web/app/components/GoogleMapsInput.tsx:65-72 | three cases: with both coordinates non-zero and an empty link, the link is written from them; with both coordinates 0, the link is cleared, even one the user typed; otherwise it is kept |
| GoogleMaps.SyncLinkSettles | apps/web/app/components/GoogleMapsInput.tsx:65-72 | running the effect again changes nothing |
| GoogleMaps.SyncLinkReadsBack | apps/web/app/components/GoogleMapsInput.tsx:16-72 | a written link reads back as the renderings of the stored coordinates |
| GoogleMaps.UrlChanged | apps/web/app/components/GoogleMapsInput.tsx:74-81 | the new text, no error, marked as edited |
| GoogleMaps.Confirm | apps/web/app/components/GoogleMapsInput.tsx:83-97 | without a handler, link or composition nothing changes; a resolved call clears the edited mark; a rejected one shows its message or the default; never left confirming |
| WarehouseFetcher.ValidateInput | apps/web/app/components/WarehouseDataFetcher.tsx:22-37 | required exactly for blank text, not-a-number for NaN, not-positive below zero, none otherwise |
| WarehouseFetcher.ZeroAccepted | apps/web/app/components/WarehouseDataFetcher.tsx:33-35 | zero is accepted |
| WarehouseFetcher.FriendlyMessage | apps/web/app/components/WarehouseDataFetcher.tsx:73-85 | the user-facing wording of a fetch error; its rules are stated by `WarehouseFetcher.FriendlyMessageRules` |
| WarehouseFetcher.ButtonDisabled | apps/web/app/components/WarehouseDataFetcher.tsx:93 | the button is disabled when told so, while fetching, or when the trimmed ID is empty |
| WarehouseFetcher.FriendlyMessageRules | apps/web/app/components/WarehouseDataFetcher.tsx:73-85 | each rewording applies only when no earlier one matched; an unmatched message is kept |
| WarehouseFetcher.NotFoundStatusReadsAsMissing | apps/web/app/components/WarehouseDataFetcher.tsx:76-77 | a 404 status error from the client always reads as a missing warehouse |
| WarehouseFetcher.NetworkErrorShownAsIs | apps/web/app/components/WarehouseDataFetcher.tsx:82-83 | the client's network error is shown word for word |
| WarehouseFetcher.ErrorText | apps/web/app/components/WarehouseDataFetcher.tsx:69 | an Error's message, else "Unknown error occurred" |
| WarehouseFetcher.EnabledButtonPassesRequired | apps/web/app/components/WarehouseDataFetcher.tsx:93 | an enabled button never meets the "required" complaint |
| WarehouseFetcher.InputChanged | apps/web/app/components/WarehouseDataFetcher.tsx:39-47 | the new text and no validation error |
| WarehouseFetcher.FetchClicked | apps/web/app/components/WarehouseDataFetcher.tsx:49-91 | a failed check shows its complaint and reports nothing; otherwise the data or the reworded error is reported and fetching ends |
| WarehouseFetcher.FetchOnlyWhenValid | apps/web/app/components/WarehouseDataFetcher.tsx:49-91 | something is reported exactly when the check passes |
| Schemata.AudioMetaMeans | packages/shared/src/schemata.ts:18-22 | accepted narration metadata has a positive length and a URL that passes the URL check |
| Schemata.Without | packages/shared/src/schemata.ts:29 | the object without one key, other keys unchanged |
| Schemata.AudioMeta | packages/shared/src/schemata.ts:18-22 | narration metadata: a media URL, a positive length and a transcript |
| Schemata.SatDrone | packages/shared/src/schemata.ts:27-33 | the first section: a location, an optional drone video and narration |
| Schemata.LocationHighlight | packages/shared/src/schemata.ts:38-51 | the second section: nearby points, an optional approach-road video and narration |
| Schemata.InternalStorage | packages/shared/src/schemata.ts:56-75 | the third section: wide-shot and internal-dock videos, specs, utilities and narration |
| Schemata.ExternalDocking | packages/shared/src/schemata.ts:80-86 | the fourth section: a dock-pan video, an optional whole dock count and narration |
| Schemata.Compliance | packages/shared/src/schemata.ts:91-99 | the fifth section: a fire-safety video, safety features and narration |
| Schemata.Composition | packages/shared/src/schemata.ts:104-116 | a composition: the meta block and all five sections |
| Schemata.DroneVideoOptional | packages/shared/src/schemata.ts:27-33 | the drone video may be left out of a valid first section |
| Schemata.ApproachRoadVideoOptional | packages/shared/src/schemata.ts:38-51 | the approach-road video may be left out |
| Schemata.RackingTypeOptional | packages/shared/src/schemata.ts:58-64 | the racking type may be left out |
| Schemata.StorageVideosRequired | packages/shared/src/schemata.ts:56-75 | without the wide-shot or internal-dock video the third section is refused |
| Schemata.UtilitiesVideoRequired | packages/shared/src/schemata.ts:66-71 | the utilities video is required |
| Schemata.DockAndFireVideosRequired | packages/shared/src/schemata.ts:80-99 | the dock-pan and fire-safety videos are required |
| Schemata.DockCountWhole | packages/shared/src/schemata.ts:82 | a dock count, when given, is a whole number; 2.5 is refused and 2 accepted in its place |
| Schemata.NearbyPointsCapped | packages/shared/src/schemata.ts:39-45 | at most four nearby points; a fifth is refused |
| Schemata.EnumsRestricted | packages/shared/src/schemata.ts:42-95 | point types, features and safety features come from their lists |
| Schemata.DurationRuleEnforcedOnValid | packages/shared/src/schemata.ts:18-116 | in a valid composition every section's narration is positive, so the section-duration rule is always in force |

## Left out

- The Remotion player and the video timeline (the `remotion/` components) are not part of this model. The code present has no timeline engine beyond what renders the five sections.
- Rendering: JSX, styling, accordions, toasts and the confirmation modal. Only the decisions the components make are modelled.
- Canvas pixel work (strokes, `toDataURL`, decoding an image onto the canvas) is passed in as inputs. Pen ink is "a pixel with non-zero alpha".
- Timing and concurrency: the retry waits are returned as values, not slept. `Promise.all` is modelled as one result per request in order, each with its own PUT outcomes.
- Network calls: `fetch`, `getBatchPresignedUrls` and the PUT are inputs to the functions that use them.
- `getWarehouseById` is not part of this model; its outcome is an input to `WarehouseFetcher.FetchClicked`.
- JavaScript numbers: `Number(…)`, `parseFloat`, `toFixed` and number rendering are parameters or decimal texts. Arithmetic on lengths is exact `real` arithmetic, without float rounding.
- zod internals: `.url()` is a parameter predicate `urlOk`. Other checks are stated directly over JSON values, and the error messages zod produces are not modelled.
- Case mapping covers ASCII letters only.
- AnnotationCanvas.AnnotationEditor: whether the canvas is mounted is fixed for the editor's lifetime (`canvasMounted` is a constant). The source mounts it after a `requestAnimationFrame`, so it can change between handler calls.
- Thrown values that are not `Error`s: `Upload` models strings and Errors. `WarehouseFetcher.ErrorText` treats anything else as "Unknown error occurred".
- Api.Headers: a `Headers` instance, or a content-type key in another letter case, is not modelled. Caller headers are a plain map.
- Api.FetchRequest: a JSON parse failure of an OK response is not modelled, because the `return result.json()` inside the `try` is not awaited.
- AnnotationLayerList.DragEnd requires both ids to be in the list. The handler only ever receives ids of listed layers, and a missing id would make `arrayMove` work on index -1.
- The annotation layer type is taken from how the components use it: id, name, order, colour, drawing and an optional narration.
- SchemaForm.RenderWidget: for an array whose object element sits under a wrapper, clicking "Add" throws when it reads the element's shape; the model gives that case `ItemlessArrayEditor` and `AddItem` is not modelled for it.
- `fileInputRef` clearing and the hidden file input are not modelled.
- VideoUpload ignores the `onFileSelect` it is given by the form generator, so its picker has no file-selection event.
- Upload.RetryWaits: the code comment promises 1 s, 2 s and 4 s waits, but only 1000 ms and 2000 ms happen with three attempts. The model follows the code.
- GoogleMaps.Extract returns the matched coordinate texts. `parseFloat` of them is not modelled.
