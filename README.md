# Alterpic client core, modelled in Dafny

Alterpic's web client is an Angular application. Users upload images, choose transformations for
the server to apply, download the results and browse their transformation history. Almost all the
work happens on the server. What the client decides for itself is the bookkeeping modelled here:

- **Upload page** (`Upload`): accepts or rejects dropped files by type, and flips the selection flag
  of each image. After the selected images are uploaded, it picks batch or individual mode.
- **Transform page** (`Transform`, with the list operations in `TransformSelection`): edits a
  transformation selection within a five-slot budget. The output format always takes one slot. In
  batch mode there is one shared selection; in individual mode each image has its own configuration.
  The page validates the selection, writes the failure message, and builds the request it sends.
- **Image service** (`Images`): the file-type check, the split of dropped files, and the upload and
  transformation flags. It also covers the simulated progress record, the stored batch, and the
  download link and file name.
- **History service** (`History`): classifies a record's parameter text, enriches fetched records,
  replaces the list on fetch, filters it on delete, and keeps the error, loading and selection flags.
- **History detail helpers** (`HistoryDetail`): how parsed parameters are shown, whether they have
  scalar entries, and the list of those entries.
- **Registration form** (`Register`): the field validators, the password-match validator, and the
  submit gate. The gate lets a form through when it is valid, or when it has no password mismatch
  and one of name, email or password is invalid.

Supporting modules give JavaScript's behaviour a precise form:

- `JsValues`: a JSON value datatype, JavaScript truthiness, `typeof v === 'object'`, `Object.keys`
  and `Object.entries` order, and `String(v)`.
- `Text`: `trim`, ASCII lower-casing, the text after the last dot, and `join`.
- `OrderedMaps`: a `Map` that keeps insertion order.
- `Http`: an HTTP outcome, either a delivered body (possibly null) or a thrown error.

Code that keeps state is modelled as classes: the services and the components. Their fields are the
source's signals and fields, and their methods say, in `modifies` and `ensures`, exactly what they
change. Computed signals and pure helpers are functions, and the promises about them are lemmas.

Inputs the client does not control are parameters:

- an HTTP response;
- the number of progress-timer callbacks that fire before a response arrives;
- `JSON.parse` (partial), `JSON.stringify`, and the locale date formatter;
- Angular's email pattern;
- the result of the registration call;
- the random ids given to accepted files.

Navigation is recorded as the last route the component asked for.

Two facts about the code shape the model:

- The output format always takes one of the five slots: the code offers JPG, PNG and TIF and
  counts `length + 1` in both modes.
- The history list is never grouped or sorted. The only list operation is the filter on delete.

## Model

| member | source | states |
|---|---|---|
| Images.FileTypeIgnoresCase | src/app/features/images/services/image.service.ts:35-41 | the file-type check (MIME type in four, or '.' plus the lower-cased text after the last dot in six extensions) does not depend on case: lower-casing the file name never changes the verdict |
| Images.FileTypeUsesLastExtension | src/app/features/images/services/image.service.ts:39 | only the text after the last dot counts: any prefix ending in a dot is irrelevant |
| Images.DotlessNameIsItsOwnExtension | src/app/features/images/services/image.service.ts:39 | a name without a dot is its own extension, and a file named "JPG" is accepted |
| Images.AfterLastDotLower | src/app/features/images/services/image.service.ts:39 | taking the text after the last dot commutes with lower-casing |
| Images.LowerIdempotent | src/app/features/images/services/image.service.ts:39 | lower-casing twice is lower-casing once |
| Images.ValidFileTypeMeaning | src/app/features/images/services/image.service.ts:35-41 | a file is accepted iff its MIME type is one of the four or the lower-cased text after the last dot of its name is jpg, jpeg, png, tif, tiff or zip |
| Images.IncludesIsMembership | src/app/features/images/services/image.service.ts:40 | `includes` is list membership |
| Images.DottedExtension | src/app/features/images/services/image.service.ts:37-40 | "." followed by a text is an accepted extension iff the text is one without the dot |
| Images.AcceptedImages | src/app/features/images/services/image.service.ts:44-75 | no more accepted images than files |
| Images.RejectedNames | src/app/features/images/services/image.service.ts:69-71 | no more rejected names than files |
| Images.AcceptedAreNewImages | src/app/features/images/services/image.service.ts:49-57 | every accepted entry is a selected image copying the name, size and type of an accepted input file |
| Images.RejectedAreInvalidNames | src/app/features/images/services/image.service.ts:69-71 | every rejected name is the name of an input file the check refused |
| Images.PartitionSizes | src/app/features/images/services/image.service.ts:44-75 | accepted plus rejected is exactly the number of files |
| Images.AcceptedAppend | src/app/features/images/services/image.service.ts:48 | the accepted list follows input order: the split distributes over concatenation |
| Images.RejectedAppend | src/app/features/images/services/image.service.ts:48 | the rejected list follows input order as well |
| Images.ImageService.ProcessFiles | src/app/features/images/services/image.service.ts:44-75 | the loop returns exactly the accepted images and the rejected names, and changes no state |
| Images.SelectedOnly | src/app/features/images/components/upload/upload.component.ts:225 | the filtered list holds exactly the selected images |
| Images.SelectedOnlyAppend | src/app/features/images/components/upload/upload.component.ts:225 | the filter keeps the list order of the selected images: it distributes over concatenation |
| Images.AnySelectedIffSelectedOnly | src/app/features/images/components/upload/upload.component.ts:217-219 | some image is selected iff the filtered list is not empty |
| Images.StartProgress | src/app/features/images/services/image.service.ts:111-116 | the start record is valid, at zero, processing; its total is 1 for a batch, else the number of configurations (0 when absent) |
| Images.CompletedProgress | src/app/features/images/services/image.service.ts:150-155 | a completed record is valid and at 100 %, with total and processed both equal to the number of images |
| Images.RoundedPercentage | src/app/features/images/services/image.service.ts:130-134 | the percentage is 100·processed/total rounded to the nearest integer, halves up; at most 100, and exactly 100 at the total |
| Images.RoundingBounds | src/app/features/images/services/image.service.ts:134 | the integer quotient brackets the exact value, which gives the bounds above |
| Images.Tick | src/app/features/images/services/image.service.ts:126-139 | a tick does nothing at the total; otherwise it adds one and recomputes the percentage; it keeps processed ≤ total and percentage ≤ 100 |
| Images.Ticks | src/app/features/images/services/image.service.ts:126-139 | any number of ticks keeps total, status and validity |
| Images.TicksReachTotal | src/app/features/images/services/image.service.ts:128-135 | enough ticks reach the total at exactly 100 % |
| Images.TicksStayPut | src/app/features/images/services/image.service.ts:136-137 | once at the total, further ticks change nothing |
| Images.TicksSplit | src/app/features/images/services/image.service.ts:126-139 | k+1 ticks are one tick after k ticks |
| Images.ImageService.ProgressTick | src/app/features/images/services/image.service.ts:126-139 | the timer callback replaces the progress by one tick of it and touches nothing else |
| Images.ImageService.ApplyTransformations | src/app/features/images/services/image.service.ts:108-180 | starts the progress and clears the error; a batch answer is stored and completes the progress; an empty answer leaves the ticked progress; an error keeps the previous batch, marks the ticked progress as failed and sets the error; loading ends false |
| Images.ImageService.UploadImages | src/app/features/images/services/image.service.ts:78-105 | success iff the body says so; the error is set only when the request throws; loading ends false; nothing else changes |
| Images.ImageService.SetCurrentBatch | src/app/features/images/services/image.service.ts:240-249 | stores the batch with a completed progress, after which a processed batch is reported |
| Images.ImageService.Reset | src/app/features/images/services/image.service.ts:252-264 | empties the images, drops the batch, idles the progress, clears the error, keeps mode, configuration and loading; afterwards no processed batch is reported |
| Images.ImageService.constructor | src/app/features/images/services/image.service.ts:17-30 | the initial state: no images, no configuration, batch mode, idle progress, no batch |
| Images.DownloadTargetsDistinct | src/app/features/images/services/image.service.ts:187-199 | different batch ids give different URLs and different file names; the zip and the single-file download of a batch differ in URL and in file name (.zip against .jpg) |
| Upload.FlipSelected | src/app/features/images/components/upload/upload.component.ts:204-209 | same length; only `selected` can change, and it changes exactly on the images with the given id |
| Upload.FlipSelectedTwice | src/app/features/images/components/upload/upload.component.ts:204-209 | toggling the same image twice restores the list |
| Upload.UploadComponent.HasSelectedImages | src/app/features/images/components/upload/upload.component.ts:217-219 | there is something to upload iff the filtered list of selected images is not empty |
| Upload.UploadSucceededMeaning | src/app/features/images/services/image.service.ts:98 | an upload succeeds only on a delivered body with success set; a thrown request, a null body or success false all fail |
| Upload.UploadComponent.ProcessFiles | src/app/features/images/components/upload/upload.component.ts:194-202 | accepted images are appended after the existing ones; the rejected names replace the previous ones |
| Upload.UploadComponent.ToggleImageSelection | src/app/features/images/components/upload/upload.component.ts:204-209 | the image list becomes its flipped version |
| Upload.UploadComponent.ClearSelection | src/app/features/images/components/upload/upload.component.ts:211-215 | images and rejected names emptied, apply-to-all reset |
| Upload.UploadComponent.ContinueToTransform | src/app/features/images/components/upload/upload.component.ts:221-249 | with nothing selected nothing happens; otherwise exactly the selected images are uploaded, the error is cleared unless the request throws; a failed upload leaves mode and configuration; a successful one sets batch mode iff apply-to-all, an empty JPG configuration, and the configure route |
| TransformSelection.WithoutId | src/app/features/images/components/transform/transform.component.ts:374 | keeps exactly the entries with another id; shorter when the id was there, unchanged when it was not |
| TransformSelection.WithoutIdAppend | src/app/features/images/components/transform/transform.component.ts:374 | the filter keeps order: it distributes over concatenation |
| TransformSelection.WithoutIdUnique | src/app/features/images/components/transform/transform.component.ts:374 | filtering keeps ids distinct |
| TransformSelection.WithoutIdKeepsOthers | src/app/features/images/components/transform/transform.component.ts:374 | no other id changes membership |
| TransformSelection.WithoutIdTwice | src/app/features/images/components/transform/transform.component.ts:374 | filtering twice by the same id removes nothing more |
| TransformSelection.Toggled | src/app/features/images/components/transform/transform.component.ts:371-381 | afterwards the id is selected iff it was not and there was room; an added one is appended at the end; a full list is left as it is; the entries with other ids keep their contents and order; a selection within budget (distinct ids, at most 4) stays within budget |
| TransformSelection.ToggleTwiceRestores | src/app/features/images/components/transform/transform.component.ts:371-381 | toggling an unselected transformation twice, with room for it, restores the list |
| TransformSelection.ToggleTwiceMovesToEnd | src/app/features/images/components/transform/transform.component.ts:371-381 | toggling a selected one twice moves it to the end, since the first toggle frees a slot |
| TransformSelection.FindById | src/app/features/images/components/transform/transform.component.ts:494 | finds something iff the id is present, and then the first entry with it |
| TransformSelection.SetParam | src/app/features/images/components/transform/transform.component.ts:511 | the named parameter reads back as written, other parameters and the identity are kept |
| TransformSelection.WithParam | src/app/features/images/components/transform/transform.component.ts:509-513 | same length, ids, names and kinds; entries with another id unchanged |
| TransformSelection.WithParamAbsent | src/app/features/images/components/transform/transform.component.ts:509-513 | an unselected id changes nothing |
| TransformSelection.WithParamKeepsSelection | src/app/features/images/components/transform/transform.component.ts:509-513 | the selection and its budget are unchanged |
| TransformSelection.ParamReadBack | src/app/features/images/components/transform/transform.component.ts:492-528 | after writing, reading the parameter of a selected transformation gives the written value |
| TransformSelection.ParamOthersKept | src/app/features/images/components/transform/transform.component.ts:492-528 | every other (id, parameter) pair reads as before |
| TransformSelection.CatalogueIdsDistinct | src/app/features/images/components/transform/transform.component.ts:313-326 | the offered filters and adjustments have distinct ids |
| Transform.WithTransformations | src/app/features/images/components/transform/transform.component.ts:383-400 | the current image's configuration gets the new list and keeps its id and format; every other configuration is unchanged; keys and order kept; no configuration, no change; budgets preserved |
| Transform.HasErrorsMeaning | src/app/features/images/components/transform/transform.component.ts:289-297 | blocked in batch mode iff nothing is selected; in individual mode iff some configuration in the map has no transformation |
| Transform.IncompleteAppend | src/app/features/images/components/transform/transform.component.ts:303-305 | the images named in the message keep the selection order: the filter distributes over concatenation |
| Transform.IncompleteMembers | src/app/features/images/components/transform/transform.component.ts:303-305 | the images named in the message are exactly the selected ones whose configuration is missing or empty |
| Transform.MessageShape | src/app/features/images/components/transform/transform.component.ts:299-308 | the individual-mode message starts with "Faltan configuraciones en: "; with nothing missing that is all of it; with one image missing its name follows |
| Transform.ValidationAgrees | src/app/features/images/components/transform/transform.component.ts:289-308 | when the configurations are keyed by the selected images, the page is blocked iff the message names some image |
| Transform.InitialConfigs | src/app/features/images/components/transform/transform.component.ts:337-347 | one configuration per selected image id and no other, each empty with format JPG |
| Transform.BuildInitialConfigs | src/app/features/images/components/transform/transform.component.ts:338-345 | the `forEach` loop builds exactly the initial configurations |
| Transform.InitialConfigsStep | src/app/features/images/components/transform/transform.component.ts:339-345 | each iteration adds one image's configuration |
| Transform.InitialConfigsWithinBudget | src/app/features/images/components/transform/transform.component.ts:337-347 | fresh configurations are within budget |
| Transform.InitialConfigsAllIncomplete | src/app/features/images/components/transform/transform.component.ts:303-305 | freshly initialised, every selected image is incomplete |
| Transform.InitialConfigsBlock | src/app/features/images/components/transform/transform.component.ts:289-308 | freshly initialised, the page is blocked iff an image is selected, and the message names all of them |
| Transform.RequestWhenProceeding | src/app/features/images/components/transform/transform.component.ts:446-464 | an unblocked request carries the selected ids; a batch one has 1 to 4 transformations and the format; an individual one carries every configuration in the map's order, each with 1 to 4; the progress counts 1 or one per configuration |
| Transform.WithParamFacts | src/app/features/images/components/transform/transform.component.ts:503-528 | on the edited list: the written parameter of a selected transformation reads back, every other parameter reads as before, the budget is kept, an unselected id changes nothing |
| Transform.FindImage | src/app/features/images/components/transform/transform.component.ts:274 | finds the first image with the id, and nothing only when no image has it |
| Transform.CurrentImageName | src/app/features/images/components/transform/transform.component.ts:273-276 | the first selected image with the current id gives its name; when no image has the id, or its name is empty, the prompt "Selecciona una imagen" |
| Transform.TransformComponent.BuildRequest | src/app/features/images/components/transform/transform.component.ts:446-464 | the request carries apply-to-all as the mode and the selected ids; in batch mode the selection and the format and no configurations; in individual mode every configuration in the map's order and no selection or format |
| Transform.TransformComponent.constructor | src/app/features/images/components/transform/transform.component.ts:264-267 | empty selection, JPG, no current image, no configurations |
| Transform.TransformComponent.OnInit | src/app/features/images/components/transform/transform.component.ts:330-335 | in individual mode with images, the first becomes current and the configurations are initialised, blocking the page with every name in the message; otherwise nothing changes |
| Transform.TransformComponent.InitializeIndividualConfigs | src/app/features/images/components/transform/transform.component.ts:337-347 | the component's configurations become exactly the initial ones for the selected images |
| Transform.TransformComponent.SetCurrentImage | src/app/features/images/components/transform/transform.component.ts:349-351 | the current image becomes the given id |
| Transform.TransformComponent.ToggleTransformation | src/app/features/images/components/transform/transform.component.ts:363-400 | toggles the batch selection, or the current image's list only; the list being edited becomes its toggled version; budgets kept |
| Transform.TransformComponent.RemoveTransformation | src/app/features/images/components/transform/transform.component.ts:402-416 | filters the batch selection, or the current image's list only; afterwards the id is not selected |
| Transform.TransformComponent.UpdateOutputFormat | src/app/features/images/components/transform/transform.component.ts:418-429 | sets the format; in individual mode every configuration takes it, keys and lists unchanged |
| Transform.TransformComponent.UpdateParam | src/app/features/images/components/transform/transform.component.ts:503-528 | the written parameter of a selected transformation reads back, every other parameter reads as before |
| Transform.TransformComponent.ApplyTransformations | src/app/features/images/components/transform/transform.component.ts:446-487 | a blocked page sends nothing and changes nothing; otherwise the built request is sent, the service keeps its images, mode and configuration and ends not loading; a batch answer completes the progress and leads to the download route with a processed batch; an empty answer leaves the ticked progress, an error marks it failed, both keep the previous batch and set the page's error text |
| Transform.TransformComponent.GoBack | src/app/features/images/components/transform/transform.component.ts:488-490 | the upload route |
| History.ParseParameters | src/app/features/history/services/history.service.ts:148-167 | never null nor an empty object or array; always the text, a placeholder, or the parsed value; blank text gives "Sin parámetros"; a parsed object or array without keys gives "Configuración predeterminada" |
| History.ParsedValueKept | src/app/features/history/services/history.service.ts:154-161 | a parsed value with content is returned as it is |
| History.UnparsedTextKept | src/app/features/history/services/history.service.ts:153-166 | unparseable text, and text that parses to null, comes back unchanged |
| History.Enrich | src/app/features/history/services/history.service.ts:38-42 | a record keeps its fields and gains the formatted date and the parsed parameters |
| History.EnrichAll | src/app/features/history/services/history.service.ts:38-42 | same records, same order and count, each enriched |
| History.WithoutRecord | src/app/features/history/services/history.service.ts:116 | never longer than the list, and no record with the deleted id survives |
| History.WithoutRecordMembers | src/app/features/history/services/history.service.ts:116 | the filter keeps exactly the records with another id |
| History.WithoutRecordAppend | src/app/features/history/services/history.service.ts:116 | the filter keeps order |
| History.WithoutRecordIdempotent | src/app/features/history/services/history.service.ts:116 | deleting the same id twice removes nothing more |
| History.WithoutAbsentRecord | src/app/features/history/services/history.service.ts:116 | deleting an absent id leaves the list unchanged |
| History.HistoryService.constructor | src/app/features/history/services/history.service.ts:11-14 | not loading, no error, empty list, no selection |
| History.HistoryService.GetHistory | src/app/features/history/services/history.service.ts:19-57 | on success the list becomes the enriched records and is returned; otherwise [] is returned, the list kept, the error set; loading ends false |
| History.HistoryService.GetHistoryDetail | src/app/features/history/services/history.service.ts:60-104 | the enriched record on success; otherwise none with the error set; loading ends false |
| History.HistoryService.DeleteHistory | src/app/features/history/services/history.service.ts:107-128 | on success the records with the id are filtered out; otherwise the list is kept and the error set; loading untouched |
| History.HistoryService.SelectHistory | src/app/features/history/services/history.service.ts:170-172 | the record becomes the selection |
| History.HistoryService.ClearSelection | src/app/features/history/services/history.service.ts:175-177 | no selection |
| History.HistoryService.Reset | src/app/features/history/services/history.service.ts:180-184 | list, selection and error cleared |
| HistoryDetail.FormatParameters | src/app/features/history/components/history-detail/history-detail.component.ts:290-304 | falsy values and key-less objects give the "no parameters" text; a non-empty string is shown as it is; anything else is serialised |
| HistoryDetail.ScalarDetails | src/app/features/history/components/history-detail/history-detail.component.ts:316-321 | every row comes from an entry whose value is not an object, with that value as text |
| HistoryDetail.ScalarDetailsNonEmpty | src/app/features/history/components/history-detail/history-detail.component.ts:308-321 | there are rows iff some entry is scalar |
| HistoryDetail.ScalarDetailsAppend | src/app/features/history/components/history-detail/history-detail.component.ts:316-321 | rows follow key order |
| HistoryDetail.ScalarEntryListed | src/app/features/history/components/history-detail/history-detail.component.ts:316-321 | every scalar entry gets its row |
| HistoryDetail.DetailsConsistent | src/app/features/history/components/history-detail/history-detail.component.ts:306-322 | `hasDetailedParameters` holds iff `getParameterDetails` is not empty |
| HistoryDetail.ParameterDetailsListScalars | src/app/features/history/components/history-detail/history-detail.component.ts:306-322 | no table for a value that is not an object or array; for one that is, a row for each scalar entry and no row from anywhere else |
| HistoryDetail.BlankParametersShowPlaceholder | src/app/features/history/services/history.service.ts:149-151 | blank parameter text is shown as the service's placeholder, with no rows |
| HistoryDetail.FalsyParsedShowsNoParameters | src/app/features/history/components/history-detail/history-detail.component.ts:291-293 | text parsing to false, 0 or "" reaches the page as that value, which it reports as having no parameters |
| HistoryDetail.ParsedObjectsHaveKeys | src/app/features/history/services/history.service.ts:157-159 | parsed parameters of object type always have keys (the service replaced key-less ones) |
| Register.Utf16Length | src/app/features/auth/components/register/register.component.ts:139-141 | a JavaScript string length: between one and two units per character, zero only when empty |
| Register.FieldValidators | src/app/features/auth/components/register/register.component.ts:139-142 | a value of at least n characters meets minLength(n); a non-empty one of fewer than n UTF-16 units does not; the empty string fails only required |
| Register.FormValidMeaning | src/app/features/auth/components/register/register.component.ts:123-143 | the form is valid iff the name has at least 2 units, the email is non-empty and matches the pattern, the password has at least 6 units and the confirmation equals it |
| Register.MinorErrorsExcludeValid | src/app/features/auth/components/register/register.component.ts:166-177 | a valid form never has "minor" errors, and every form the gate lets through that is invalid has them |
| Register.SubmitGate | src/app/features/auth/components/register/register.component.ts:148 | the gate passes iff there is no mismatch and the confirmation is filled in or name, email or password is invalid |
| Register.MismatchBlocks | src/app/features/auth/components/register/register.component.ts:127-136 | a mismatch always blocks; an empty password or confirmation never mismatches |
| Register.EmptyFormPasses | src/app/features/auth/components/register/register.component.ts:138-148 | the all-empty form is invalid yet passes the gate |
| Register.ShortNamePasses | src/app/features/auth/components/register/register.component.ts:166-177 | a one-unit name is invalid and lets any form without a mismatch through |
| Register.RegisterComponent.MarkFormGroupTouched | src/app/features/auth/components/register/register.component.ts:159-164 | every control is touched |
| Register.RegisterComponent.OnSubmit | src/app/features/auth/components/register/register.component.ts:145-157 | all controls touched; a payload without the confirmation is sent iff the gate passes; the home route only after a successful registration |
| Text.TrimEmptyIff | src/app/features/history/services/history.service.ts:149 | trimming gives "" iff every character is JavaScript whitespace |

## Left out

- Network, storage and authentication plumbing. HTTP calls, tokens and `FormData` are not modelled;
  each method takes the response, or the thrown error, as an input.
- Endpoint lookup. `history.service.ts:65` and `:109` read `environment.endpoints.history.detail`
  and `.delete`, which `src/enviroments/enviroment.ts:21-24` does not define. As written, both
  calls fail before any request is sent. `History.HistoryService.GetHistoryDetail` and
  `History.HistoryService.DeleteHistory` model them as if the endpoints existed. No URL is modelled
  except the download link.
- Timers. `setInterval` is modelled as a number of tick callbacks before the response arrives.
  After an error the code does not clear the interval, so ticks may continue; the model stops at the
  response. The 100 ms `setTimeout` before navigating to the download page is modelled as an
  immediate navigation.
- Images.RoundedPercentage: computed on exact rationals. JavaScript's floating point can round
  differently on a half, e.g. 29/200·100 is 14.499999999999998 and rounds to 14, not 15.
- Images.IsValidFileType: `toLowerCase` is modelled on ASCII only. Outside ASCII, only U+212A and
  U+0130 lower-case into ASCII letters, and neither can complete one of the six extensions.
- Random ids, file previews (`FileReader`), download anchors, `confirm` dialogs and router internals.
  Ids are inputs; navigation is the recorded route.
- `HistoryDetailComponent`'s `loadHistoryDetail` and `deleteItem`, the route-parameter
  subscription, `downloadSingleImage`, and the presentation-only components.
- `formatDate`'s locale formatting is a function parameter. Its `'Fecha no disponible'` fallback is
  not modelled because `toLocaleDateString` does not throw on a date.
- `JSON.parse` and `JSON.stringify` are function parameters. `formatParameters`' fallback for a
  serialiser error is not modelled, because the modelled values cannot make it throw.
- JsValues.Json: numbers are integers. `JSON.parse` can produce fractional or exponent numbers,
  which `String(v)` writes as "1.5" or "1e+21"; such parameter values are not modelled, so
  HistoryDetail.ScalarDetails and HistoryDetail.FormatParameters are stated for integer values only.
- JSON objects are lists of members. `Object.keys` is taken to list each member once, which the
  object produced by `JSON.parse` guarantees.
- Transform.TransformComponent.UpdateParam: takes the value the input event carries. Reading it
  from the DOM element (`parseInt` for range inputs) is not modelled, so a `NaN` value cannot be
  written.
- The spread copy `{ ...transformation }` and the in-place mutation of configuration objects shared
  between the old and new `Map`: the model works on values, so aliasing between the two maps is not
  represented. The resulting state is the same.
- Register.RegisterComponent.OnSubmit: `authService.register` is an input boolean; its errors are not modelled.
