# Dataset tag persistence

This is a model of the dataset tag persistence of the character-studio web client (`src/models/dataset.js`). A dataset is a directory of images. Each image carries its tags grouped by category, plus a free-text extra prompt. The project also carries a training-tag taxonomy. The module keeps these in files of the dataset directory:

- **Tag file names.** Each image name becomes a `.txt` file name and a `.ctf` file name. The final `.` plus the non-empty, dot-free suffix is replaced.
- **Legacy export.** Each image gets a comma-separated `.txt` file: every tag of every configured category in key order, then the extra prompt. Nothing is written when every configured category is a defined, empty list and there is no prompt; an `undefined` category counts as one empty field, so its file is still written. A batch save does this for every image in turn and stops at the first failure.
- **Structured store.** Each image gets a `.ctf` record with its categories and an `extra_text` member. The load is meant never to fail: it reconciles the record with the configured tag structure, or falls back to a fresh copy of that structure and `""`. A batch load fills the dataset's tag and prompt arrays index by index. As written, a file that exists but does not parse never settles the load, so the batch load stops at that image (see "## Findings").
- **Training-tag file.** The taxonomy is saved to and loaded from `ct_training_tags.ctf`. Loading is meant to fall back to the configured structure. As written, it never settles on a file that does not parse.
- **Tag count.** The number of training tags is the sum of the list lengths.

Modules, one per concern:

- `Wrappers` (`wrappers.dfy`): the `Option` type.
- `Storage` (`storage.dfy`): the directory is a class whose `files` map is updated by `Write`. Sets of unreadable and unwritable names stand for I/O faults.
- `Tags` (`tags.dfy`): categories, image tags, training tags and the configured structure (`Schema`). It also holds the order-independent sum of list lengths.
- `Datasets` (`dataset.dfy`): the dataset with its three index-aligned arrays and the training tags.
- `FileNames` (`filenames.dfy`): the extension replacement.
- `LegacyExport` (`legacy.dfy`): the `.txt` export and the batch save.
- `CtfStore` (`ctf.dfy`): the `.ctf` save, load and batch load.
- `TrainingTagsStore` (`training.dfy`): the training-tag file and the count.

Representation choices:

- `config.tag_structure` is a parameter, `schema`. It holds the category names in key order and their default lists. `config.json` is not part of this model.
- An image's tags map each category to `Option<seq<Tag>>`. `None` is JavaScript `undefined`, which the load produces for a configured category that the file lacks.
- A file holds `Text`, a `Record` (a parsed JSON object of string lists plus an optional `extra_text`), or `Corrupt`.
- A failed read is `None`. A failed write is `Fail(IoError(name))` and leaves the files unchanged.
- What a `FileReader` promise does is a `Settlement`: `Rejected` when the file is missing or unreadable, `Resolved` with a record, or `Pending` for a file that does not parse, because the parse throws inside `onload` and neither resolve nor reject is ever called.

Each stateful method is tied to a specification function of its inputs and old state. The properties the source promises are lemmas about those functions.

## Model

| member | source | states |
|---|---|---|
| FileNames.LastDot | src/models/dataset.js:6 | Finds the last dot of the name: it is `None` exactly when the name has no dot, and otherwise a position holding `.` with no dot after it. The pattern `\.[^.]+$` can only start there (see `FileNames.MatchIsLastDot`), and matches when the dot is not the final character. |
| FileNames.MatchIsLastDot | src/models/dataset.js:6 | A position where `\.[^.]+$` matches (a `.` followed by a non-empty, dot-free rest) is the last dot, and the name then has an extension. |
| FileNames.ReplaceExtensionMatches | src/models/dataset.js:5-11 | When the pattern matches at k, the result is the name up to k followed by the new extension; when it matches nowhere, the name is returned unchanged. |
| FileNames.TraditionalTagFileNameSpec | src/models/dataset.js:5-7 | The `.txt` name is the part before the matched extension plus `.txt`, or the image name when nothing matches. Deriving it again changes nothing, and it has an extension exactly when the image name has one. |
| FileNames.CtFileNameSpec | src/models/dataset.js:9-11 | The `.ctf` name is the part before the matched extension plus `.ctf`, or the image name when nothing matches. Deriving it again changes nothing, and it has an extension exactly when the image name has one. |
| FileNames.ReplaceExtensionOfSplit | src/models/dataset.js:5-11 | A name `base + "." + suffix` with a non-empty, dot-free suffix has an extension, and the replacement gives `base + ext`. |
| FileNames.HasExtensionSplits | src/models/dataset.js:5-11 | Every name with an extension splits at its last dot into a base, `.` and a non-empty, dot-free suffix. |
| FileNames.ReplaceExtensionWithout | src/models/dataset.js:5-11 | A name with no dot, or with a trailing dot, has no extension and is returned unchanged. |
| FileNames.NoExtensionCases | src/models/dataset.js:5-11 | Conversely, a name without an extension has no dot or ends in a dot. |
| FileNames.ReplaceExtensionIdempotent | src/models/dataset.js:5-11 | Replacing with an extension of the form `.` + dot-free text twice equals replacing once, and the replacement has an extension exactly when the name had one. |
| FileNames.TagFileNamesCollide | src/models/dataset.js:5-11 | The `.txt` and `.ctf` names are equal exactly when the image name has no extension, and then both are the image name. |
| FileNames.SharedTagFileNames | src/models/dataset.js:5-11 | Images that differ only in their extension, such as `cat.png` and `cat.jpg`, get the same `.txt` and `.ctf` names (`cat.txt`, `cat.ctf`), so they share their tag files. |
| Storage.Directory.Write | src/models/dataset.js:40-42 | Fails with an error naming the file exactly when the file cannot be written. On success the file is created or overwritten with the content and nothing else changes; on failure nothing changes. |
| Storage.ReadAfterWrite | src/models/dataset.js:40-42 | After a write that passed, a readable read of that name gives the written content, and a read of any other name gives what it gave before. |
| LegacyExport.CollectTags | src/models/dataset.js:22-26 | The loop over the configured categories collects `SchemaTags`: each category's tags in key order, with one `undefined` element for an `undefined` category. |
| LegacyExport.SaveImageTagsToTraditionalTxtFile | src/models/dataset.js:19-44 | Collects the configured categories' tags in key order, then skips the write or writes `LegacyContent` to the image's `.txt` name. The outcome and new files are those of `ExportStep` on `PlannedExport`. |
| LegacyExport.AllTagsEmpty | src/models/dataset.js:24-28 | The collected list is empty exactly when every configured category is a defined, empty list. |
| LegacyExport.LegacyNoOp | src/models/dataset.js:28-29 | Nothing is written exactly when the prompt is `""` and every configured category is a defined, empty list. |
| LegacyExport.LegacyUndefinedCategoryWritesEmptyFile | src/models/dataset.js:25-31 | When one configured category is `undefined`, every other is a defined, empty list and there is no prompt, an empty file is written instead of none. |
| LegacyExport.LegacyUndefinedCategoriesWriteCommas | src/models/dataset.js:25-31 | Each `undefined` category is one empty field: with every configured category `undefined` and no prompt, the file holds one `,` fewer than there are categories. |
| LegacyExport.Join | src/models/dataset.js:31 | `String` of the collected list is `""` exactly when the list is empty or its only element shows as `""`. |
| LegacyExport.LegacyText | src/models/dataset.js:28-38 | No text exactly when there are no tags and the prompt is `""`. Otherwise the text starts with the joined tags and ends with the prompt, and when both are non-empty they are separated by one `,`, which is the only character between them. |
| LegacyExport.AllTagsDefined | src/models/dataset.js:24-26 | With every category defined, the collected list is the concatenation of the category lists in key order. |
| LegacyExport.Split | src/models/dataset.js:31-37 | The source never splits the file. `Split` is the reader-side inverse used to state the join rule: splitting at commas always gives at least one field. |
| LegacyExport.SplitWithoutComma | src/models/dataset.js:31 | Text with no comma is one field. |
| LegacyExport.SplitAfterField | src/models/dataset.js:31-35 | A comma-free field followed by `,` splits off as the first field. |
| LegacyExport.SplitJoin | src/models/dataset.js:31 | `String` of a non-empty list of comma-free tags, split at commas, gives back the tags. |
| LegacyExport.SplitJoinThen | src/models/dataset.js:31-37 | The joined tags followed by `,` and a comma-free prompt split into the tags and then the prompt. |
| LegacyExport.LegacyContentSplits | src/models/dataset.js:19-40 | With defined categories, non-empty comma-free tags and a comma-free prompt, a file is written exactly when there is a tag or a prompt. Split at commas, the file lists every tag in key and list order, followed by the prompt when it is not `""`. |
| LegacyExport.LegacyExample | src/models/dataset.js:24-38 | Categories `["red","blue"]` and `[]` with prompt `soft light` give `red,blue,soft light`. |
| LegacyExport.ExampleAllTags | src/models/dataset.js:24-26 | The example's collected list is `red`, `blue`. |
| LegacyExport.ExampleJoin | src/models/dataset.js:31 | `String(["red","blue"])` is `red,blue`. |
| LegacyExport.LegacyBatch | src/models/dataset.js:14-16 | A failed batch names a file that cannot be written. The batch only adds or overwrites files: every file present before is still present. |
| LegacyExport.LegacyBatchFailureSticks | src/models/dataset.js:14-16 | Once an image fails, no later image is processed: the outcome and files stay as they were at the failure. |
| LegacyExport.LegacyBatchFailure | src/models/dataset.js:14-16 | A failed batch failed at some image i whose `.txt` file had content and could not be written. The error names that file, and the files are those left by images 0..i-1. |
| LegacyExport.LegacyBatchPasses | src/models/dataset.js:14-16 | A batch passes exactly when no image with content to write has an unwritable `.txt` name. |
| LegacyExport.LegacyBatchFrame | src/models/dataset.js:14-44 | A file that is no processed image's `.txt` name is untouched by the batch. |
| LegacyExport.LegacyBatchWrites | src/models/dataset.js:14-44 | After a passing batch, each image's `.txt` file holds that image's legacy content, when the file names are distinct and the image had something to write. |
| LegacyExport.LegacyBatchLastWriteWins | src/models/dataset.js:14-16 | Images that share a `.txt` name overwrite each other: after a passing batch, the file holds the content of the last such image that had something to write. |
| LegacyExport.LegacyBatchNext | src/models/dataset.js:14-16 | Processing image i after a passing prefix extends the batch by one step. A failure there is the batch's final result. |
| LegacyExport.SaveImageAt | src/models/dataset.js:15 | One iteration of the batch loop: the batch prefix grows from i to i+1 images. |
| LegacyExport.SaveAllImageTagsToTraditionalTxtFiles | src/models/dataset.js:13-17 | The outcome and new files are those of the batch of all images, in index order, stopping at the first failure. |
| CtfStore.SaveImageTagsToCtFile | src/models/dataset.js:129-139 | Writes to the image's `.ctf` name a record with the defined categories, and with `extra_text` set to the prompt. Only that file changes, and only when the write succeeds. |
| CtfStore.CtfRecord | src/models/dataset.js:131-132 | The saved record carries the prompt as `extra_text`, and it has each other category's value, with `undefined` categories absent. |
| CtfStore.LoadedExtraText | src/models/dataset.js:118-120 | The loaded prompt is non-empty exactly when `extra_text` is present and truthy, and it is then that value; otherwise it is `""`. |
| CtfStore.OverwriteCategories | src/models/dataset.js:114-116 | The per-category loop sets every configured category to the file's value, `undefined` when the file lacks it. The result is `Reconcile` of the record. |
| CtfStore.LoadImageTagsFromCtFile | src/models/dataset.js:103-127 | The intended load. It returns `LoadedImageTags` of what reading the image's `.ctf` name gives: the reconciled categories and the extra text for a parsed record, otherwise the fallback. |
| CtfStore.LoadedShape | src/models/dataset.js:107-116 | The loaded tags always have exactly the configured categories. |
| CtfStore.LoadedFallback | src/models/dataset.js:107-126 | In the intended load, a missing, unreadable or unparsable file gives a fresh copy of the structure and `""`. |
| CtfStore.LoadedReconciles | src/models/dataset.js:114-120 | A configured category gets the file's list, or `undefined` when the file lacks it. File categories that are not configured are dropped. The extra text is `extra_text` when present, else `""`. The record is required to hold no category named `extra_text` beside the prompt. |
| CtfStore.CtfRoundTrip | src/models/dataset.js:114-133 | Saving and then loading gives each configured category's saved value (`undefined` stays `undefined`) and the saved prompt, provided no category is named `extra_text`. |
| CtfStore.CtfFileRoundTrip | src/models/dataset.js:103-139 | The same round trip through the directory: a save that passed, then a readable load of the same image name. |
| CtfStore.CtfSaveWritesEvenWhenEmpty | src/models/dataset.js:129-138 | With no defined category and an empty prompt, the save still writes the record `{extra_text: ""}`. |
| CtfStore.LoadedImageTagsAsWritten | src/models/dataset.js:141-156 | The load as written settles, with the intended result, unless the file exists and is readable but is no record. For such a file the promise stays pending and the load gives nothing. |
| CtfStore.ExtensionlessImageNeverLoads | src/models/dataset.js:103-112 | An image name without an extension is its own `.ctf` name, so the load reads the file under the image's own name. When that file is readable and is no record (the image itself or legacy text, rather than a structured save), the load as written never settles, while the intended load falls back. |
| CtfStore.LoadImageAt | src/models/dataset.js:96-99 | One step of the batch load: index i of the tag and prompt arrays gets the load of image i, the arrays grow to at least i+1, and no other element changes. |
| CtfStore.LoadAllImageTagsFromCtFile | src/models/dataset.js:93-101 | The intended batch load. For every image index i, the tags and prompt at i become the load result for image i's name. Elements beyond the images, the images and the training tags are unchanged. The arrays grow to at least the image count, and index alignment is preserved. |
| CtfStore.LoadedCount | src/models/dataset.js:93-101 | The number of images the batch load gets through from index i: no image before it stalls, and the image at it stalls unless it is the image count. |
| CtfStore.LoadAllImageTagsFromCtFileAsWritten | src/models/dataset.js:93-101 | The batch load as written settles exactly when no image stalls. Indices below the point where it stops are loaded, and later elements, the images and the training tags are unchanged. |
| CtfStore.CorruptSecondFileStopsBatchLoad | src/models/dataset.js:93-101 | With three images, a first image that does not stall and a second `.ctf` file that is readable but corrupt, the batch load as written gets through only the first image and never reaches the third. |
| TrainingTagsStore.SaveTrainingTagsToFile | src/models/dataset.js:46-51 | Writes the training tags to `ct_training_tags.ctf`. Only that file changes, and only when the write succeeds. |
| TrainingTagsStore.LoadTrainingTagsFromFile | src/models/dataset.js:53-91 | The intended load. It returns the parsed record's lists when reading `ct_training_tags.ctf` gives a record, otherwise the configured structure. |
| TrainingTagsStore.LoadedTrainingTagsFallback | src/models/dataset.js:56-57 | In the intended load, a missing, unreadable or unparsable file gives the configured structure. |
| TrainingTagsStore.LoadedTrainingTagsAsWritten | src/models/dataset.js:69-91 | The load as written settles, with the intended result, unless the file exists and is readable but is no record; then it gives nothing. |
| TrainingTagsStore.UnparsableTrainingTagsNeverLoad | src/models/dataset.js:53-91 | A readable `ct_training_tags.ctf` holding text that does not parse makes the load as written never settle, while the intended load gives the configured structure. |
| TrainingTagsStore.TrainingTagsRoundTrip | src/models/dataset.js:46-59 | Saving the training tags and then loading them, readable, gives them back. |
| TrainingTagsStore.NumOfTrainingTags | src/models/dataset.js:61-67 | The result is the sum of the list lengths over the map's keys. |
| TrainingTagsStore.FallbackCountsNothing | src/models/dataset.js:56-67 | The fallback for an all-empty structure counts zero tags. |
| Tags.SumLengthsRemove | src/models/dataset.js:63-65 | The sum does not depend on the order of the keys: any category may be counted first. |
| Tags.SumLengthsAllEmpty | src/models/dataset.js:61-67 | A map of empty lists counts zero tags. |
| Tags.SumLengthsAddTag | src/models/dataset.js:61-67 | Adding one tag to one category adds exactly one to the count. |

## Findings

| source | as written | input that shows it | evidently intended | confidence | as-written member | corrected member |
|---|---|---|---|---|---|---|
| src/models/dataset.js:147-149 | `JSON.parse` runs inside the `onload` callback, so a parse error throws there and the promise of `readCtFile` is neither resolved nor rejected. The `catch` at line 122 is never reached, `loadImageTagsFromCtFile` never returns, and `loadAllImageTagsFromCtFile` stops at that image. | Three images where the second image's `.ctf` file exists, is readable, and holds text that is not JSON. Also any image whose name has no extension, since its `.ctf` name is the image file itself. | An unparsable file takes the fallback like a missing one, and the batch load reaches every image. | high; not executed | CtfStore.LoadAllImageTagsFromCtFileAsWritten | CtfStore.LoadAllImageTagsFromCtFile |
| src/models/dataset.js:77-79 | The same pattern in `readTrainingTagsFile`: a parse error in `onload` leaves the promise pending, so the `catch` at line 56 never returns the configured structure. | A readable `ct_training_tags.ctf` that holds text that is not JSON. | The load returns the configured structure. | high; not executed | TrainingTagsStore.LoadedTrainingTagsAsWritten | TrainingTagsStore.LoadTrainingTagsFromFile |

## Left out

- The `FileReader`, `Promise` and `async` plumbing of `readCtFile` and `readTrainingTagsFile`. Each call is awaited in sequence, so each operation is one sequential step. Reading is one function of the file map, and what becomes of the promise is `Storage.ReadRecord`. A promise that never settles is a `Pending` settlement, and the as-written batch load returns `false` at that point instead of waiting forever.
- `writer.close()`, which is not awaited. Whether a written file is flushed is not modelled: a write that passes is taken as complete.
- A write that fails after `getFileHandle(..., {create: true})` has created the file: the model leaves the files unchanged on a failed write.
- The `console.log` on a failed load.
- The JSON text encoding. `JSON.stringify` and `JSON.parse` are modelled as storing and returning a `Record`. Text that is not such an object is `Corrupt`, and `Storage.ReadRecord` treats `Text` and `Corrupt` alike, as text that does not parse. A legacy text that happens to be valid JSON (a number, a list, an object of other member types), or a `.ctf` file whose members are not string lists, is not modelled.
- The order of keys in records, in the training tags and in what JavaScript gives for integer-like keys. Only the configured structure's key order matters to the legacy export, and it is kept in `schema.names`. The count does not depend on it (`Tags.SumLengthsRemove`).
- A category literally named `extra_text`: the save overwrites it with the prompt (`CtfStore.CtfRecord` drops it), and the round-trip lemmas assume there is none.
- TrainingTagsStore.LoadedTrainingTags: a training-tag file that also carries `extra_text` returns it as a member in the source. The model returns the string-list members only.
- LegacyExport.SaveAllImageTagsToTraditionalTxtFiles: requires the tag and prompt arrays to be as long as the images. In the source, a missing tag entry makes the lookup throw, and a missing prompt would be appended as the text `undefined`.
- CtfStore.LoadedExtraText: a string `extra_text` is taken when truthy. `extra_text` members that are not strings are not modelled: a record of string lists with a list named `extra_text` gives `""` in the model (and `CtfStore.LoadedReconciles` states so), whereas the source would take a non-empty array there as the prompt. The program itself never writes such a file, since `CtfStore.CtfRecord` always makes `extra_text` the prompt string.
- `config.json`: the configured tag structure is the `schema` parameter.
- The rest of the repository: the HTTP client and API wrappers, the UI stores and the router hold no tag-persistence logic.
