# agosuirpa-frontend: coordinate picking, screenshot variability and the experiment store

This project models, in Dafny, the logic of the AGOSUIRPA web front end that
is more than rendering:

- **Element selector** (`GUIComponentsCoordenates.tsx`).
  - A press and a release on a screenshot, shown at display size, become a
    rectangle in the screenshot's own pixels. Negative offsets are clamped,
    the two points become top-left and bottom-right corners, and each axis
    is rescaled with `Math.round(to * x / from)`.
  - Named rectangles are collected in a table that behaves like a
    JavaScript object: names in insertion order, an overwrite keeps the
    name's place, `delete` removes one name. Each entry is drawn back as an
    overlay.
- **Screenshot variability** (`ScreenshotVariability.tsx`).
  - A walk over the wizard's element table. `onEvent` shows the first
    element not yet processed. `saveElements` marks it processed with the
    chosen variability function. `removeElement` deletes it.
  - Once the count of selections reaches zero, each event hands the table
    back to the wizard store once per element.
- **Experiment store** (`slice.ts`).
  - The reducers.
  - `loadExperiments`, which appends a page without repeated ids.
  - `addExperiment` and `setExperimentDetail`.
  - `saveExperiment`, which strips the seed log and the launch flag from
    the form, saves, reads the experiment back, optionally launches it,
    and then updates the list.
- **Experiment repository** (`experiment.ts`).
  - The request each call issues.
  - The file name a download is saved under, taken from
    `Content-Disposition` by a regular expression.
- **Change-password form** (`ChangePasswordForm.tsx`): which errors
  `validateForm` registers and when `formSubmit` hands the data on.
- **Experiment detail screen** (`Details.tsx`).
  - Where the shown experiment comes from: the store's detail, the cached
    list, or a request.
  - The back path and the public link.
  - Navigation after a save, and the publish switch.
  - Which panels are rendered in which state.

The model is in these modules:

- `Options`: the Option and Result types.
- `JsText`: the JavaScript built-ins the core relies on: `trim`,
  `parseInt(s, 10)`, printing a number, and ASCII case folding.
- `ElementTable`: a JavaScript object used as an ordered table.
- `Forms`: `FormData`, with `get`, `set` and `delete`.
- `GuiCoordinates`: geometry, and the classes `CoordinatePicker` and
  `DragRect`.
- `ScreenshotVariability`: the class `VariabilityWalk`.
- `ExperimentModel`: experiment records and id lookups.
- `ExperimentRepository`: the repository's requests and the download file
  name.
- `ExperimentSlice`: the class `ExperimentStore`.
- `ChangePassword`: the password form's validation.
- `Details`: the detail screen, including the class `DetailsView`.

Component state that handlers update step by step is modelled as classes.
Their methods state the new state against functions, and the lemmas prove
properties of those functions.

Some inputs stand in for code or effects outside the model:

- The server's answers are method parameters, as a Result.
- So are display sizes, natural image sizes and random colours.
- The converted DTO is a parameter too, since the conversion helper is
  not part of this model.
- The helper `csvLogToJSON` and the blank test of the validation helpers
  are function parameters.
- A request is returned as a value: its verb, its path and its page
  parameter.

Where the intended behaviour and the code differ, the model follows the
code:

- **Zero display size.** A display of zero extent is meant to map every
  point to the origin. The code divides by the extent, so every scaling
  member requires positive extents.
- **One rectangle per name.** A name is meant to be able to hold several
  regions. The code keeps one rectangle per name and overwrites it.
- **Round-trip error.** A point in image pixels, drawn on the display and
  read back (`toReference(toDisplay(p))`), is meant to come back within one
  pixel on each axis for any non-zero sizes.
  - `ReferenceRoundTrip` proves that round trip exact when the display is
    at least as large as the image.
  - When the display is smaller than the image, which is the usual case
    for a screenshot shown in a page, the error grows with the ratio of the
    sizes. `ReferenceRoundTripLoss` shows an image 1000 pixels wide shown
    100 pixels wide taking image pixel 4 to display pixel 0 and back to 0,
    4 pixels off.
  - `ResizeRectRoundTrip` proves the general fact: a coordinate on the
    shorter of two axes, taken to the longer and back, is unchanged. With
    the display the shorter axis, that is a display point captured and
    drawn back.

## Model

| member | source | states |
|---|---|---|
| `GuiCoordinates.RoundQuotient` | src/features/experiment/wizard/GUIComponentsCoordenates.tsx:145 | `Math.round(p / q)` is the integer `r` with `2qr - q <= 2p < 2qr + q`, i.e. the nearest integer, halves rounded up |
| `GuiCoordinates.RoundQuotientUnique` | src/features/experiment/wizard/GUIComponentsCoordenates.tsx:145 | that characterisation has exactly one solution |
| `GuiCoordinates.RoundQuotientMonotone` | src/features/experiment/wizard/GUIComponentsCoordenates.tsx:145 | rounding a larger quotient never gives a smaller integer |
| `GuiCoordinates.ResizeRect` | src/features/experiment/wizard/GUIComponentsCoordenates.tsx:144-146 | `resizeRect(x, to, from)` is the integer nearest to `x * to / from`, halves rounded up |
| `GuiCoordinates.ResizeRectIdentity` | src/features/experiment/wizard/GUIComponentsCoordenates.tsx:144-146 | `resizeRect` between axes of equal length changes nothing |
| `GuiCoordinates.ResizeRectMonotone` | src/features/experiment/wizard/GUIComponentsCoordenates.tsx:144-146 | `resizeRect` keeps the order of two coordinates |
| `GuiCoordinates.ResizeRectNonNegative` | src/features/experiment/wizard/GUIComponentsCoordenates.tsx:144-146 | `resizeRect` keeps a coordinate non-negative |
| `GuiCoordinates.ResizeRectRoundTrip` | src/features/experiment/wizard/GUIComponentsCoordenates.tsx:144-146 | a coordinate on the shorter axis, rescaled to the longer axis and back, is the same coordinate |
| `GuiCoordinates.ReferenceRoundTrip` | src/features/experiment/wizard/GUIComponentsCoordenates.tsx:293-296 | an image pixel drawn on the display (as by the overlays) and read back (as on capture at :77-80) is the same image pixel when the display is at least as large as the image |
| `GuiCoordinates.ReferenceRoundTripLoss` | src/features/experiment/wizard/GUIComponentsCoordenates.tsx:293-296 | with a display smaller than the image, image to display to image can be off by more than one pixel (4 becomes 0 at a ratio of 10) |
| `GuiCoordinates.PressOffset` | src/features/experiment/wizard/GUIComponentsCoordenates.tsx:94-95 | the press offset is never negative: a negative offset becomes 1 and a non-negative one is kept |
| `GuiCoordinates.ReleaseOffset` | src/features/experiment/wizard/GUIComponentsCoordenates.tsx:105-106 | the release offset is at least 1: an offset of 0 or less becomes 1 and a positive one is kept |
| `GuiCoordinates.Normalize` | src/features/experiment/wizard/GUIComponentsCoordenates.tsx:108-127 | the corners are ordered and are the two points' coordinates, on each axis |
| `GuiCoordinates.NormalizeSymmetric` | src/features/experiment/wizard/GUIComponentsCoordenates.tsx:108-127 | dragging either way selects the same rectangle |
| `GuiCoordinates.ToReference` | src/features/experiment/wizard/GUIComponentsCoordenates.tsx:76-80 | rescaling to image pixels keeps corners ordered and non-negative, and is the identity when the sizes agree |
| `GuiCoordinates.CaptureRect` | src/features/experiment/wizard/GUIComponentsCoordenates.tsx:103-134 | from a non-negative anchor, a release always commits an ordered rectangle in the first quadrant |
| `GuiCoordinates.CaptureExample` | src/features/experiment/wizard/GUIComponentsCoordenates.tsx:103-134 | an 800x600 image shown at 400x300, dragged from (100,150) to (50,50), gives (100,100)-(200,300) |
| `GuiCoordinates.Overlay` | src/features/experiment/wizard/GUIComponentsCoordenates.tsx:293-296 | an ordered rectangle's overlay has non-negative width and height, and is the rectangle itself when the sizes agree |
| `GuiCoordinates.DragRect.constructor` | src/features/experiment/wizard/GUIComponentsCoordenates.tsx:128-133 | the `list` object holds the normalised corners |
| `GuiCoordinates.CoordinatePicker.constructor` | src/features/experiment/wizard/GUIComponentsCoordenates.tsx:22-33 | zero coordinates, an empty table, zero sizes |
| `GuiCoordinates.CoordinatePicker.OnImageLoad` | src/features/experiment/wizard/GUIComponentsCoordenates.tsx:54-71 | the display size and the size a fresh image reports are stored; nothing else changes |
| `GuiCoordinates.CoordinatePicker.OnNaturalSize` | src/features/experiment/wizard/GUIComponentsCoordenates.tsx:58-63 | only the image resolution of the current coordinates changes |
| `GuiCoordinates.CoordinatePicker.OnResize` | src/features/experiment/wizard/GUIComponentsCoordenates.tsx:36-45 | the new display size is stored |
| `GuiCoordinates.CoordinatePicker.HandleMouseDown` | src/features/experiment/wizard/GUIComponentsCoordenates.tsx:92-101 | the clamped offset becomes the anchor; the rest of the coordinates is kept |
| `GuiCoordinates.CoordinatePicker.HandleMouseUp` | src/features/experiment/wizard/GUIComponentsCoordenates.tsx:103-134 | the stored corners are `CaptureRect` of the anchor and the release, always ordered, with the new colour and the old image resolution |
| `GuiCoordinates.CoordinatePicker.SetCoordinatesByResolution` | src/features/experiment/wizard/GUIComponentsCoordenates.tsx:73-90 | `list` is rescaled in place to image pixels and copied into the coordinates with the colour |
| `GuiCoordinates.CoordinatePicker.AddElementToTable` | src/features/experiment/wizard/GUIComponentsCoordenates.tsx:47-52 | the coordinates are stored under the trimmed name, replacing any entry of that name |
| `GuiCoordinates.CoordinatePicker.RemoveElement` | src/features/experiment/wizard/GUIComponentsCoordenates.tsx:136-142 | exactly the entry under `key` is deleted |
| `GuiCoordinates.CoordinatePicker.ElementOverlay` | src/features/experiment/wizard/GUIComponentsCoordenates.tsx:288-301 | a stored ordered rectangle is drawn with non-negative width and height |
| `ElementTable.Empty` | src/features/experiment/wizard/GUIComponentsCoordenates.tsx:22 | the empty object has no names |
| `ElementTable.Put` | src/features/experiment/wizard/GUIComponentsCoordenates.tsx:48-51 | `{...t, [k]: v}`: `k` maps to `v`, other names keep their entries, an existing name keeps its place and a new one is listed last |
| `ElementTable.RemoveKey` | src/features/experiment/wizard/GUIComponentsCoordenates.tsx:137-138 | the other names, once each, in their order |
| `ElementTable.RemoveKeyAt` | src/features/experiment/wizard/GUIComponentsCoordenates.tsx:137-138 | deleting a name listed at position `i` closes the gap at `i` |
| `ElementTable.Delete` | src/features/experiment/wizard/GUIComponentsCoordenates.tsx:137-138 | `delete t[k]`: exactly `k` goes, the rest is kept, an absent `k` changes nothing |
| `ElementTable.RemoveKeyLength` | src/features/experiment/wizard/GUIComponentsCoordenates.tsx:137-138 | deleting a present name lists one name fewer |
| `ElementTable.PutThenDelete` | src/features/experiment/wizard/GUIComponentsCoordenates.tsx:136-142 | adding a new name and deleting it gives back the table |
| `ElementTable.PutTwice` | src/features/experiment/wizard/GUIComponentsCoordenates.tsx:47-52 | the last assignment to a name wins |
| `JsText.Trim` | src/features/experiment/wizard/GUIComponentsCoordenates.tsx:50 | `trim()` removes white space from both ends only |
| `JsText.TrimIdempotent` | src/features/experiment/wizard/GUIComponentsCoordenates.tsx:50 | trimming twice is trimming once |
| `JsText.IntToString` | src/infrastructure/repositories/experiment.ts:48 | a number prints as an optional minus sign and decimal digits |
| `JsText.ParseInt` | src/features/experiment/Details.tsx:65 | `parseInt(s, 10)` is `NaN` exactly when no digit follows the leading white space and an optional sign; the result is negative only after a `-` sign |
| `JsText.ParseIntOfIntToString` | src/features/experiment/Details.tsx:65 | `parseInt` reads back a printed integer, whatever non-digit text follows it |
| `ScreenshotVariability.FindParam` | src/features/experiment/wizard/ScreenshotVariability.tsx:27-44 | finds the parameter of an id, or shows there is none |
| `ScreenshotVariability.CatalogueClosed` | src/features/experiment/wizard/ScreenshotVariability.tsx:12-44 | every parameter a catalogue function names is in the parameter list |
| `ScreenshotVariability.Mark` | src/features/experiment/wizard/ScreenshotVariability.tsx:124-128 | the element is marked processed with the chosen function and the fixed params; rectangle, resolution and colour are kept |
| `ScreenshotVariability.FirstPendingIn` | src/features/experiment/wizard/ScreenshotVariability.tsx:75-86 | the name found is listed and pending; none found means none is pending |
| `ScreenshotVariability.FirstPendingInIff` | src/features/experiment/wizard/ScreenshotVariability.tsx:75-86 | the name found is exactly the one at the first pending position |
| `ScreenshotVariability.FirstPendingNoneIff` | src/features/experiment/wizard/ScreenshotVariability.tsx:73-89 | the walk finds nothing exactly when no element is pending |
| `ScreenshotVariability.SaveRemovesFromPending` | src/features/experiment/wizard/ScreenshotVariability.tsx:123-134 | a saved element is never selected again and the pending names lose exactly it |
| `ScreenshotVariability.DeleteRemovesFromPending` | src/features/experiment/wizard/ScreenshotVariability.tsx:104-112 | a deleted element is never selected again and the pending names lose exactly it |
| `ScreenshotVariability.Repeat` | src/features/experiment/wizard/ScreenshotVariability.tsx:75-77 | one dispatched table per turn of the loop, each of them the table itself |
| `ScreenshotVariability.NextView` | src/features/experiment/wizard/ScreenshotVariability.tsx:73-89 | with a non-zero count, the first pending element becomes current and the count drops by one; otherwise the view stays |
| `ScreenshotVariability.Dispatches` | src/features/experiment/wizard/ScreenshotVariability.tsx:75-77 | the table is dispatched once per name when the count is zero, never otherwise |
| `ScreenshotVariability.FirstPendingAtSelects` | src/features/experiment/wizard/ScreenshotVariability.tsx:79-85 | the loop's break at the first pending position selects the same name as the specification |
| `ScreenshotVariability.NoPendingFound` | src/features/experiment/wizard/ScreenshotVariability.tsx:75-88 | a loop that finds no pending element agrees with the specification |
| `ScreenshotVariability.NextViewCount` | src/features/experiment/wizard/ScreenshotVariability.tsx:83-84 | the count drops by one exactly when an element is selected |
| `ScreenshotVariability.VariabilityWalk.constructor` | src/features/experiment/wizard/ScreenshotVariability.tsx:49-60 | a copy of the store's table, a zero element, and a count of one per element |
| `ScreenshotVariability.VariabilityWalk.OnEvent` | src/features/experiment/wizard/ScreenshotVariability.tsx:73-89 | the loop with its break leaves the view `NextView` gives and dispatches what `Dispatches` gives |
| `ScreenshotVariability.VariabilityWalk.OnLoadImage` | src/features/experiment/wizard/ScreenshotVariability.tsx:68-71 | the display size is stored, then `onEvent` |
| `ScreenshotVariability.VariabilityWalk.SelectFunction` | src/features/experiment/wizard/ScreenshotVariability.tsx:118-121 | the chosen function id is stored |
| `ScreenshotVariability.VariabilityWalk.SaveElements` | src/features/experiment/wizard/ScreenshotVariability.tsx:123-134 | the marked element is stored under the current name, then `onEvent` runs on the updated table |
| `ScreenshotVariability.VariabilityWalk.RemoveElement` | src/features/experiment/wizard/ScreenshotVariability.tsx:104-112 | the current name is deleted, then `onEvent` runs on the updated table |
| `ScreenshotVariability.VariabilityWalk.CurrentOverlay` | src/features/experiment/wizard/ScreenshotVariability.tsx:164-167 | an ordered current element is drawn with non-negative width and height |
| `ExperimentModel.FindIndexById` | src/features/experiment/slice.ts:54 | `findIndex`: the first position with the id, or -1 exactly when there is none |
| `ExperimentModel.SomeWithId` | src/features/experiment/slice.ts:118 | `some`: true exactly when an experiment has the id |
| `ExperimentModel.FindById` | src/features/experiment/Details.tsx:72 | `find`: the experiment at the first position with the id, present exactly when `some` holds |
| `ExperimentModel.UniqueIdsFindIndex` | src/features/experiment/slice.ts:101 | with unique ids every experiment is the first with its id |
| `Forms.Lookup` | src/features/experiment/slice.ts:137 | `get`: null exactly when no entry has the name, else the value of an entry with it |
| `Forms.LookupIsFirst` | src/features/experiment/slice.ts:137 | `get` answers the value of the first entry under the name, whatever later entries under it hold |
| `Forms.Without` | src/features/experiment/slice.ts:141 | `delete`: exactly the entries with other names remain |
| `Forms.SetEntry` | src/features/experiment/slice.ts:153 | `set`: the entry with the new value is present, and the entries under other names are kept in their order |
| `Forms.SetEntryNamesOnce` | src/features/experiment/slice.ts:153 | after `set`, exactly one entry carries the name |
| `Forms.WithoutTwice` | src/features/experiment/slice.ts:141 | deleting a name twice is deleting it once |
| `Forms.LookupWithout` | src/features/experiment/slice.ts:141-145 | after `delete(name)` nothing is found under `name` and other names answer as before |
| `Forms.LookupSetEntry` | src/features/experiment/slice.ts:153-154 | after `set(name, v)`, `get(name)` is `v` and other names answer as before |
| `Forms.FormData.Delete` | src/features/experiment/slice.ts:141 | the entries become `Without` of the old ones, and `get` finds nothing |
| `Forms.FormData.Set` | src/features/experiment/slice.ts:153 | the entries become `SetEntry` of the old ones, and `get` gives the value |
| `ExperimentRepository.ListRequest` | src/infrastructure/repositories/experiment.ts:6-17 | GET `/experiments/`, with the page parameter exactly when the page is positive |
| `ExperimentRepository.GetRequest` | src/infrastructure/repositories/experiment.ts:20-28 | GET `/experiments/<id>/` |
| `ExperimentRepository.SaveRequest` | src/infrastructure/repositories/experiment.ts:30-42 | PUT to `/experiments/<id>/` exactly when the form has an id, POST to `/experiments/` otherwise |
| `ExperimentRepository.DownloadRequest` | src/infrastructure/repositories/experiment.ts:46-50 | GET `/experiments/download/<id>/` |
| `ExperimentRepository.LastLineStart` | src/infrastructure/repositories/experiment.ts:55 | the position after the last line terminator, with none after it |
| `ExperimentRepository.LastUsable` | src/infrastructure/repositories/experiment.ts:55 | greedy `.*` takes the last position where `filename="` can start a match |
| `ExperimentRepository.FilenameFromHeader` | src/infrastructure/repositories/experiment.ts:55 | `replace(/.*filename="(.*)"$/i, '$1')`: the header unchanged without a match, else the text before the last line plus the captured name |
| `ExperimentRepository.DownloadFilename` | src/infrastructure/repositories/experiment.ts:52-56 | `experiment_<id>.zip` without the header, the extracted name with it |
| `ExperimentRepository.FilenameRoundTrip` | src/infrastructure/repositories/experiment.ts:55 | a one-line header `<prefix>filename="<name>"` gives back `name` when the name holds no quote |
| `ExperimentRepository.NoLaterTag` | src/infrastructure/repositories/experiment.ts:55 | no match can start between the tag and the closing quote |
| `ExperimentRepository.LastUsableIsLast` | src/infrastructure/repositories/experiment.ts:55 | the last usable position is the one found |
| `ExperimentRepository.FilenameWithoutClosingQuote` | src/infrastructure/repositories/experiment.ts:55 | a header that does not end in a quote is returned unchanged |
| `ExperimentSlice.ReplaceById` | src/features/experiment/slice.ts:53-61 | the first experiment with the id is replaced, every other position is kept, and with no such id nothing changes |
| `ExperimentSlice.ReplaceByIdKeepsUnique` | src/features/experiment/slice.ts:53-61 | replacing in place keeps ids unique |
| `ExperimentSlice.KeepFirsts` | src/features/experiment/slice.ts:101 | what the filter keeps of a prefix has unique ids, each kept experiment being the first with its id |
| `ExperimentSlice.KeepFirstsInOrder` | src/features/experiment/slice.ts:101 | what the filter keeps stands in the order of the positions it came from |
| `ExperimentSlice.DedupById` | src/features/experiment/slice.ts:101 | the filtered page has unique ids, each kept experiment is the first one of the page with its id, and the page's order is kept |
| `ExperimentSlice.KeepFirstsKeepsIds` | src/features/experiment/slice.ts:101 | no id of the prefix is lost by the filter |
| `ExperimentSlice.DedupByIdKeepsIds` | src/features/experiment/slice.ts:101 | every id of the page is still there after the filter |
| `ExperimentSlice.KeepFirstsOfUnique` | src/features/experiment/slice.ts:101 | a prefix with unique ids passes the filter untouched |
| `ExperimentSlice.DedupByIdOfUnique` | src/features/experiment/slice.ts:101 | a page with unique ids passes the filter untouched |
| `ExperimentSlice.NextPagination` | src/features/experiment/slice.ts:102-106 | the page moves on by one exactly when there is a next page; the total is the server's count |
| `ExperimentSlice.AddIfAbsent` | src/features/experiment/slice.ts:116-124 | the id is listed afterwards; an already listed id changes nothing, else the experiment is appended; unique ids stay unique |
| `ExperimentSlice.FirstSaveForm` | src/features/experiment/slice.ts:140-145 | `seedLog` and `execute_mode` are gone from the form and every other name answers as before |
| `ExperimentSlice.Launching` | src/features/experiment/slice.ts:144-152 | a launch is asked for only when the form holds `execute_mode` = `true`; a form without `execute_mode` is not launched |
| `ExperimentSlice.LaunchForm` | src/features/experiment/slice.ts:153-154 | the launching form holds the saved id and `execute_mode` = `true`, and every other field as before |
| `ExperimentSlice.LaunchIsPut` | src/features/experiment/slice.ts:152-154 | the launching save is a PUT to the saved experiment's path with `execute_mode` set to `true` |
| `ExperimentSlice.SavedIdText` | src/features/experiment/slice.ts:149 | the id the read-back uses: a missing or zero response id falls back to the form's, printed as `null` when that is missing too |
| `ExperimentSlice.SavedExperiment` | src/features/experiment/slice.ts:150-157 | the stored experiment is the one read back, marked as being created when launched |
| `ExperimentSlice.SavedStatus` | src/features/experiment/slice.ts:152-158 | a launch forces the status `LAUNCHED`, else the server's status is kept |
| `ExperimentSlice.ListAfterSave` | src/features/experiment/slice.ts:174-183 | an experiment that had an id is replaced in the list, a new one is put first |
| `ExperimentSlice.PreSaved` | src/features/experiment/slice.ts:164 | the wizard is opened exactly when the answer has an id, its status is `PRE_SAVED`, and no launch was asked for (a launch forces `LAUNCHED`) |
| `ExperimentSlice.SeedConfOfSetEntry` | src/features/experiment/slice.ts:165 | the configuration read from `seedLog` and `special_colnames` is unchanged by setting any other field of the form |
| `ExperimentSlice.DetailInList` | src/features/experiment/slice.ts:57-59 | the detail after `setExperimentInList`: the payload exactly when the payload's id is listed and the detail has that id, else the old detail |
| `ExperimentSlice.ExperimentStore.constructor` | src/features/experiment/slice.ts:15-26 | no experiments, page 1 of 0 with a next page, no detail, no seed log, not loading, no error |
| `ExperimentSlice.ExperimentStore.SetLoading` | src/features/experiment/slice.ts:32-34 | the loading flag is the payload |
| `ExperimentSlice.ExperimentStore.AddExperiments` | src/features/experiment/slice.ts:35-43 | the batch is appended and the pagination replaced |
| `ExperimentSlice.ExperimentStore.SetExperiments` | src/features/experiment/slice.ts:44-52 | list and pagination are replaced |
| `ExperimentSlice.ExperimentStore.SetExperimentInList` | src/features/experiment/slice.ts:53-61 | the list becomes `ReplaceById`; the detail becomes `DetailInList`: the payload only when the id is listed and the detail has it |
| `ExperimentSlice.ExperimentStore.SetExperiment` | src/features/experiment/slice.ts:62-68 | detail and seed log are replaced |
| `ExperimentSlice.ExperimentStore.SetError` | src/features/experiment/slice.ts:69-71 | the error is recorded |
| `ExperimentSlice.ExperimentStore.LoadExperiments` | src/features/experiment/slice.ts:91-114 | asks for the current page; a failure is recorded; a count equal to the number held changes nothing; otherwise the filtered page is appended and the pagination moves on; loading ends false. The repository rethrows a failure unchanged after logging it (experiment.ts:13-16), so the recorded error is the request's own |
| `ExperimentSlice.ExperimentStore.AddExperiment` | src/features/experiment/slice.ts:116-124 | the list becomes `AddIfAbsent` and the pagination is kept |
| `ExperimentSlice.ExperimentStore.SetExperimentDetail` | src/features/experiment/slice.ts:126-132 | the detail is the experiment and the seed log is cleared |
| `ExperimentSlice.ExperimentStore.StripForm` | src/features/experiment/slice.ts:137-145 | notes whether the form had an id, takes out the seed log and the launch flag, and reports whether a launch was asked for |
| `ExperimentSlice.ExperimentStore.Launch` | src/features/experiment/slice.ts:152-154 | the saved id and `execute_mode` go back on the form, which is saved again |
| `ExperimentSlice.ExperimentStore.ApplySaved` | src/features/experiment/slice.ts:152-183 | status, list, the extra launch request; for a pre-saved answer with an id, the detail is the read-back experiment and the seed log and the wizard configuration come from `csvLogToJSON` of the log and `special_colnames`; otherwise the seed log is kept and the detail follows `setExperimentInList` or is kept |
| `ExperimentSlice.ExperimentStore.SaveStripped` | src/features/experiment/slice.ts:147-194 | on the stripped form: the save and read-back requests, the launch request when asked; a failed save issues one request and a failed read-back two, the second reading back the saved id; a failure of either request is recorded and changes nothing else, the seed log and the form included; a success gives the status, list, detail, seed log and wizard configuration of `ApplySaved` |
| `ExperimentSlice.ExperimentStore.SaveExperiment` | src/features/experiment/slice.ts:135-195 | the requests issued in order; a failed save issues only the save, a failed read-back only the save and the read of the saved id; a failure of either request is recorded and leaves list, pagination and detail unchanged; a failure also leaves the stripped form and the seed log; the failure is the repository's own, rethrown unchanged (experiment.ts:37-41); a success gives the status, list, detail, seed log and wizard configuration of `ApplySaved`, in terms of the form as it was passed |
| `ChangePassword.ValidateForm` | src/features/user/ChangePasswordForm.tsx:22-36 | each field gets the error its rule names (blank, shorter than 9, different from the password); the form is valid exactly when no error is registered, exactly when every rule holds |
| `ChangePassword.FormSubmit` | src/features/user/ChangePasswordForm.tsx:38-44 | the data is handed on, unchanged, exactly when every rule holds |
| `Details.ChooseSource` | src/features/experiment/Details.tsx:65-79 | the store's detail when it has the route id, else the first listed experiment with that id, else a request |
| `Details.IdText` | src/features/experiment/Details.tsx:75 | the id in the request path reads back as the parsed route id, and is `NaN` when there is none |
| `Details.SecondLoadIsCached` | src/features/experiment/Details.tsx:69-70 | once a fetched experiment is the store's detail, loading its id again needs no request |
| `Details.BackPath` | src/features/experiment/Details.tsx:88 | `public` exactly when the experiment is missing or not the user's, else empty |
| `Details.PublicLink` | src/features/experiment/Details.tsx:35 | the configured part, then `/experiment/`, then the id |
| `Details.PublicLinkNamesId` | src/features/experiment/Details.tsx:35 | the public link's tail reads back as the experiment's id |
| `Details.AfterSave` | src/features/experiment/Details.tsx:114-130 | no navigation on an error; home for a launched experiment; else the wizard step of the variability mode, or none for another mode |
| `Details.SubmitEditIsPut` | src/features/experiment/Details.tsx:112 | the edit form's save is a PUT to the route id's path, and setting the id does not change whether a launch is asked for |
| `Details.BoolText` | src/features/experiment/Details.tsx:152 | a boolean is stored as `true` or `false` |
| `Details.Toggled` | src/features/experiment/Details.tsx:162-165 | only `isPublic` differs, and it is flipped |
| `Details.TogglePublishSendsNewValue` | src/features/experiment/Details.tsx:150-153 | the saved form holds the new value under `public` |
| `Details.VisiblePanels` | src/features/experiment/Details.tsx:97-300 | the edit form for a not launched experiment and the card otherwise, never both; switch, link and scenario download inside the card by owner, public flag and scenario count; progress while creating, results download once created, never both |
| `Details.DetailsView.constructor` | src/features/experiment/Details.tsx:57-58 | no experiment, not loading, no navigation |
| `Details.DetailsView.LoadDetail` | src/features/experiment/Details.tsx:62-86 | a request is issued exactly when `ChooseSource` says so; a cached or listed experiment is shown; a fetched one is shown and becomes the store's detail; a failed fetch shows nothing; loading ends false |
| `Details.DetailsView.SaveEdit` | src/features/experiment/Details.tsx:112-114 | with the route id set, the save is a PUT to that id; a failure is recorded, leaves the store's list, detail and seed log, and gives no wizard configuration; a success updates the experiment in the list in place and sets the detail as `saveExperiment` does; a pre-saved answer sets the seed log and returns the wizard configuration from `csvLogToJSON` of the form's `seedLog` and `special_colnames`, any other answer keeps the seed log and gives none |
| `Details.DetailsView.SubmitEdit` | src/features/experiment/Details.tsx:110-131 | the save is a PUT to the route id; the history gets what `AfterSave` gives for the outcome and the form's mode, which is home for a launching save; a failure is recorded, leaves the store's list, detail and seed log, and gives no wizard configuration; a success updates the experiment in the list in place, and a pre-saved answer sets the seed log and returns the wizard configuration from the form's `seedLog` and `special_colnames`, any other answer keeps the seed log and gives none |
| `Details.DetailsView.TogglePublish` | src/features/experiment/Details.tsx:149-168 | the form is saved with the flipped `public`, and the shown experiment is flipped whatever the outcome; a failure is recorded, leaves the store's list, detail and seed log, and gives no wizard configuration; a success updates the list and the detail as `saveExperiment` does, and a pre-saved answer sets the seed log and returns the wizard configuration from the form's `seedLog` and `special_colnames`, any other answer keeps the seed log and gives none |

## Left out

- Rendering, styling and the DOM are not modelled. This covers MUI, i18n
  `t(...)`, `document.getElementById`, and the overlay style strings of the
  unused helpers `startDrag`, `drawRightBottomCorner` and
  `updateRectangleTMP`. Display sizes are parameters.
- Asynchronous image loading is not modelled. The fresh `Image`'s size and
  its later natural size are separate inputs: `OnImageLoad` and
  `OnNaturalSize`.
- `Math.random` colours are not modelled: the colour is an input.
- Floating point is not modelled. `Math.round(to * x / from)` is exact
  rational rounding, halves up, so a quotient that floating point rounds
  differently is not captured.
- GuiCoordinates.ToReference: requires positive display sizes. With a zero
  size the source produces NaN or Infinity, which has no integer model.
- GuiCoordinates.Overlay: requires a positive image size, for the same
  reason.
- GuiCoordinates.CoordinatePicker.HandleMouseUp: requires a positive
  display size, for the same reason.
- GuiCoordinates.CaptureRect: requires a positive display size, for the
  same reason.
- GuiCoordinates.CoordinatePicker.SetCoordinatesByResolution: requires a
  positive display size, for the same reason.
- GuiCoordinates.CoordinatePicker.ElementOverlay: requires a positive image
  size, for the same reason.
- ScreenshotVariability.VariabilityWalk.CurrentOverlay: requires a positive
  image size, for the same reason.
- JavaScript objects list integer-like keys first, in numeric order. The
  table keeps plain insertion order for every name.
- React batching and stale closures are not modelled. Handlers are
  sequential state transitions, and state setters take effect after the
  handler. In the variability screen, `saveElements` and `removeElement`
  change the table object in place before `onEvent` reads it, and the
  model keeps that order.
- ScreenshotVariability.VariabilityWalk.SaveElements: the current element
  and the stored entry are one object in the source. The model stores a
  copy, so a later change through one name is not seen through the other.
- `Validations.isBlank`, `objectToFormData`, `experimentDTOToExperimentType`,
  `experimentToFormData`, `csvLogToJSON` and `ExperimentStatusChecker` are
  not part of this model. They are parameters or inputs.
- ChangePassword.ValidateForm: the source measures the password length in
  UTF-16 code units; the model counts characters.
- ChangePassword.ValidateForm: returns the error messages as their
  translation keys.
- The HTTP client is not modelled: headers, tokens, `Http.buildURL` query
  encoding and blobs. A request is its verb, path and page. `downloadFile`,
  `downloadJson`, `copyTextToClipboard` and `history.push` are outputs or
  left out.
- The repository's `delete()` does nothing and is not modelled.
- The launching second save in `saveExperiment` is not awaited. Its
  request is listed, but its failure cannot reach the caller, and the
  model does not represent it.
- The conversion of a thrown `Response` into an `Error` with a status
  message is not modelled. A failure is its message string.
- The wizard store actions `setVariabilityConfiguration` and
  `setScenarioConfiguration` are not modelled: the configuration handed to
  them is returned instead, by `SaveStripped`, `SaveExperiment`,
  `SaveEdit`, `SubmitEdit` and `TogglePublish`.
- The publish switch's success notification and its `setTimeout` are not
  modelled: the local update happens at the end of the handler.
- Details.DetailsView.LoadDetail: the loading flag's intermediate `true` is
  not observable after the effect and is not stated.
- The `downloadJson` of the scenario and variability configurations is
  not modelled. Neither are the date, author and description fields of
  the card, which are display only.
