# Demo-request form: a verified model of its state and submission logic

The repository is a marketing site's "request a demo" form, in two React
components: `DemoForm` and `DemoFormWithFileUpload`. Both collect contact
fields, consent checkboxes and selected files, keep the in-progress record in
local storage, and hand a flat template-variable map to the EmailJS browser
library. This project models the data transformations inside those components
and proves what they promise:

- the single-key record update driven by an input event;
- the append-only file list and remove-by-id;
- the `emailData` payload of each component;
- the status-code-to-message classifier;
- the file-upload component's attachment loop: a 5 MiB threshold
  (5,242,880 bytes), data-URL header stripping, and skipping of failed reads;
- the two components as classes, with the local-storage write-through and the
  submit/reset life cycle.

Modules, one per file:

| file | module | what it holds |
|---|---|---|
| `wrappers.dfy` | `Wrappers` | `Option` (JavaScript `undefined` / a rejected read) |
| `strings.dfy` | `Strings` | `split` on one character and `join`, with round-trip and layout lemmas |
| `form_model.dfy` | `FormModel` | the record, its keys, input events, the file list operations |
| `payload.dfy` | `Payload` | placeholders, consent tokens, the file summary, both `emailData` maps |
| `notices.dfy` | `Notices` | delivery outcome, success notice, the failure classifier and messages |
| `attachments.dfy` | `Attachments` | the attachment loop and its specification |
| `demo_form.dfy` | `DemoFormComponent` | class `DemoForm` |
| `upload_form.dfy` | `UploadFormComponent` | class `DemoFormWithFileUpload` |

The outside world enters only as parameters:
- Local storage is a `map<string, FormRecord>` field. JSON encoding is not modelled.
- `formatFileSize` is an abstract `formatSize: nat -> string`.
- Reading a file as a data URL is an abstract `convert: FileHandle -> Option<string>`, where `None` is a failed read.
- File ids are given as a sequence of naturals, one per selected file.
- The EmailJS answer is a `SendOutcome`: delivered, or rejected with an optional status.

A submission is split at the `await` on the delivery call; the upload
component's earlier per-file reads (`convertToBase64`) happen inside its `BeginSubmit`. `BeginSubmit`
raises `isSubmitting` and builds the payload. `FinishSubmit` takes the outcome,
resets or explains, and lowers the flag. React's effect on `[formData]` is the
method `PersistFormData`. It is called wherever the component sets `formData`.

## Model

| member | source | states |
|---|---|---|
| `Strings.Split` | src/DemoFormWithFileUpload.js:119 | `split(',')` gives at least one part; the first part is the text before the first comma; no part contains a comma |
| `Strings.JoinSplit` | src/DemoFormWithFileUpload.js:119 | joining the parts of a split with the same separator gives back the original string |
| `Strings.Join` | src/DemoForm.js:93 | `join(sep)` of no parts is empty; otherwise it starts with the first part and is at least the parts' separators long; `JoinLayout` and `JoinSplit` give the full layout |
| `Strings.JoinLayout` | src/DemoForm.js:93 | in `join(sep)` each part sits at its offset, `sep` follows every part but the last, and the last part ends the string |
| `FormModel.FieldNamed` | src/DemoForm.js:41-44 | an input's `name` selects the record key with exactly that name, and no key when none has it |
| `FormModel.FieldNameRoundTrip` | src/DemoForm.js:41-44 | every key's input name selects that key again |
| `FormModel.Set` | src/DemoForm.js:42-45 | `{...prev, [name]: v}` gives key `name` the value `v` and leaves every other key as it was |
| `FormModel.RecordsEqual` | src/DemoForm.js:12-24 | two records that agree on all eleven keys are the same record |
| `FormModel.DefaultRecord` | src/DemoForm.js:12-24 | the default record has every text key empty and every consent flag false |
| `FormModel.ApplyInput` | src/DemoForm.js:40-46 | a checkbox event stores `checked`, any other stores `value` verbatim, under the event's key; all other keys are unchanged |
| `FormModel.ApplyInputIdempotent` | src/DemoForm.js:40-46 | replaying an input event leaves the record as one application did |
| `FormModel.ApplyInputLastWins` | src/DemoForm.js:40-46 | of two events on the same key only the later one shows in the record |
| `FormModel.SetCommutes` | src/DemoForm.js:42-45 | updates of different keys can be applied in either order |
| `FormModel.ApplyInputCommutes` | src/DemoForm.js:40-46 | input events on different keys commute |
| `FormModel.NewRecords` | src/DemoForm.js:49-55 | one record per selected file, in selection order, copying name, size and the file, with the given id |
| `FormModel.AppendSelected` | src/DemoForm.js:48-57 | the new records follow the untouched existing list; the length grows by the number selected, with no de-duplication |
| `FormModel.WithoutId` | src/DemoForm.js:59-61 | no kept record has the removed id, the list never grows, and it is returned unchanged when the id is absent |
| `FormModel.WithoutIdMembers` | src/DemoForm.js:59-61 | a record is kept exactly when it was in the list and its id differs from the removed one |
| `FormModel.WithoutIdConcat` | src/DemoForm.js:59-61 | removal works piecewise over a concatenation, so the kept records keep their order |
| `FormModel.WithoutIdIdempotent` | src/DemoForm.js:59-61 | removing an id twice is the same as removing it once |
| `FormModel.UploadThenRemove` | src/DemoForm.js:48-61 | selecting one file under a new id and then removing that id restores the previous list |
| `Payload.YesNo` | src/DemoForm.js:95-97 | a consent flag is sent as `예` exactly when set and as `아니요` exactly when clear |
| `Payload.Description` | src/DemoForm.js:91 | the description is `projectInfo` when non-empty, else the fixed placeholder; it is never empty |
| `Payload.FullName` | src/DemoForm.js:85 | `from_name` is the first name, one space, then the last name |
| `Payload.Entry` | src/DemoForm.js:93 | a file's entry is its name, then ` (`, then exactly `formatFileSize` of its size, then `)` |
| `Payload.Entries` | src/DemoForm.js:93 | one `name (size)` entry per file, in list order |
| `Payload.FilesInfo` | src/DemoForm.js:92-94 | `files_info` is the placeholder for no files and otherwise starts with the first file's entry; `FilesInfoLayout` and `FilesInfoEmptyIff` give the rest |
| `Payload.FilesInfoLayout` | src/DemoForm.js:92-94 | every file's entry appears in `files_info` in list order, separated by `, `, the last entry ending the text |
| `Payload.FilesInfoEmptyIff` | src/DemoForm.js:92-94 | `files_info` is the no-attachments placeholder exactly when the file list is empty |
| `Payload.DemoEmailData` | src/DemoForm.js:84-102 | the payload has exactly the fourteen template variables; `from_email` and `reply_to` are the business email; `project_description` and `message` are the description; each consent variable is its token |
| `Payload.UploadEmailData` | src/DemoFormWithFileUpload.js:129-145 | the upload component's payload has the same variables minus `to_name`, `reply_to` and `message` |
| `Payload.UploadPayloadAgrees` | src/DemoFormWithFileUpload.js:129-145 | on every variable the two payloads share they hold the same value |
| `Notices.Classify` | src/DemoForm.js:147-155 | status 400, 401 and 422 each select their own kind, and every other status (or none) the generic one |
| `Notices.FailureMessage` | src/DemoForm.js:146-155 | the failure notice starts with `Failed to submit demo request. ` followed by exactly the explanation of the status's kind |
| `Notices.Explanation` | src/DemoForm.js:148-154 | every explanation is non-empty; the three specific ones end with a full stop and the generic one ends with the contact address; `ExplanationsDiffer` shows the four are distinct |
| `Notices.ExplanationsDiffer` | src/DemoForm.js:147-155 | the four explanations are pairwise different |
| `Notices.FailureMessageDeterminesKind` | src/DemoForm.js:146-155 | two statuses get the same notice exactly when they fall in the same kind |
| `Notices.GenericIsUnclassified` | src/DemoFormWithFileUpload.js:176 | the upload component's only failure notice equals the plain component's notice for an unclassified status |
| `Notices.UnauthorizedIsSpecific` | src/DemoForm.js:149-150 | status 401 gets the authentication explanation, not the generic notice |
| `Attachments.DataUrlBody` | src/DemoFormWithFileUpload.js:119 | the content is undefined exactly when the data URL has no comma; otherwise it is the second comma-separated segment: the text between the first and the second comma, or to the end when there is no second comma |
| `Attachments.DataUrlBodyStripsHeader` | src/DemoFormWithFileUpload.js:119 | for `header,payload` the content is exactly `payload` |
| `Attachments.Inlined` | src/DemoFormWithFileUpload.js:113-125 | a file contributes at most one attachment, exactly when it is under 5 MiB and its read succeeds, and that attachment carries its name, stripped content and MIME type |
| `Attachments.SelectAttachments` | src/DemoFormWithFileUpload.js:112-126 | never more attachments than files, and every attachment carries the name and MIME type of some selected file; `SelectConcat`, `SkippedFileDropsOut` and `SelectAll` give order and content |
| `Attachments.SelectConcat` | src/DemoFormWithFileUpload.js:112-126 | each file is handled on its own, so the attachments keep the relative order of the files |
| `Attachments.SkippedFileDropsOut` | src/DemoFormWithFileUpload.js:113-125 | a file of 5,242,880 bytes or more, or one whose read fails, is dropped and nothing else changes |
| `Attachments.SelectLength` | src/DemoFormWithFileUpload.js:112-126 | there are never more attachments than files, and as many exactly when every file is under the limit and readable |
| `Attachments.SelectAll` | src/DemoFormWithFileUpload.js:113-121 | when every file is small and readable, attachment `k` carries file `k`'s name, stripped content and MIME type |
| `Attachments.PrepareAttachments` | src/DemoFormWithFileUpload.js:112-126 | the loop's result is the specified attachment list, never longer than the file list |
| `DemoFormComponent.DemoForm.constructor` | src/DemoForm.js:10-30 | starts from the stored record if present, else the default; no files; not submitting; the store then mirrors the record |
| `DemoFormComponent.DemoForm.PersistFormData` | src/DemoForm.js:28-30 | writes the record under `demo-formData`, leaving other keys alone |
| `DemoFormComponent.DemoForm.HandleInputChange` | src/DemoForm.js:40-46 | the record becomes `ApplyInput` of the old one, and the store mirrors it |
| `DemoFormComponent.DemoForm.HandleFileUpload` | src/DemoForm.js:48-57 | the file list becomes the old list with the selection appended |
| `DemoFormComponent.DemoForm.RemoveFile` | src/DemoForm.js:59-61 | the file list loses exactly the records with that id |
| `DemoFormComponent.DemoForm.BeginSubmit` | src/DemoForm.js:71-102 | raises the in-flight flag and returns the payload of the current record and files |
| `DemoFormComponent.DemoForm.FinishSubmit` | src/DemoForm.js:114-160 | on success: default record, no files, store holding the default record; on failure: nothing changes and the notice explains the status; the flag is lowered either way |
| `UploadFormComponent.DemoFormWithFileUpload.constructor` | src/DemoFormWithFileUpload.js:11-31 | starts from the stored record if present, else the default; no files or links; the store then mirrors the record |
| `UploadFormComponent.DemoFormWithFileUpload.PersistFormData` | src/DemoFormWithFileUpload.js:29-31 | writes the record under `demo-formData`, leaving other keys alone |
| `UploadFormComponent.DemoFormWithFileUpload.HandleInputChange` | src/DemoFormWithFileUpload.js:38-44 | the record becomes `ApplyInput` of the old one, and the store mirrors it |
| `UploadFormComponent.DemoFormWithFileUpload.HandleFileUpload` | src/DemoFormWithFileUpload.js:68-82 | the file list becomes the old list with the selection appended |
| `UploadFormComponent.DemoFormWithFileUpload.RemoveFile` | src/DemoFormWithFileUpload.js:84-86 | the file list loses exactly the records with that id |
| `UploadFormComponent.DemoFormWithFileUpload.BeginSubmit` | src/DemoFormWithFileUpload.js:106-145 | raises the flag, returns the specified attachments and the payload, whose `files_info` lists all uploaded files, including those excluded from the attachments |
| `UploadFormComponent.DemoFormWithFileUpload.FinishSubmit` | src/DemoFormWithFileUpload.js:154-179 | on success: default record, no files, no links, store holding the default record; on failure: nothing changes and the notice is the generic one; the flag is lowered either way |

## Left out

- Rendering: the JSX, the conditional display of the identity fields while files are attached, and the disabled submit button. These are presentation only.
- Browser validation: the `required` attributes on the inputs (src/DemoForm.js:224-295) stop the browser from firing submit while a required field is empty. That check happens before the handler runs, so `BeginSubmit` accepts any record.
- `formatFileSize` uses `Math.log`, `Math.pow`, `toFixed` and `parseFloat`, which are floating point. It is an abstract parameter of the file summary, so no concrete rendering such as 1024 bytes → `1 KB` is proved.
- `emailjs.init` and `emailjs.send` are a foreign network library. Only their outcome is modelled. The service, template and key literals are configuration and are not modelled.
- `FileReader` and base64 encoding are a browser API. They are the abstract `convert`. It is a function, so the same file always reads the same way within one model run.
- The external upload helper `uploadToCloudinary` is network I/O that nothing calls.
- Ids built from `Date.now() + Math.random()` use the clock and randomness. They are caller-supplied naturals, and nothing assumes they are distinct.
- Local storage is a map from key to record. JSON serialisation, a stored empty string read as "absent", and storage failures are not modelled.
- Logging, `alert` (the notice is returned instead), React's batching of state updates, and the interleaving of other events with an in-flight submission.
- Re-entry: `BeginSubmit` does not require `!isSubmitting`. The component relies on the disabled button for that, and so does the model.
- `FormModel.ApplyInput`: an event whose `name` is not a record key, or whose type does not match the key's kind, is excluded by `Wired`. The rendered form never produces one. JavaScript would add a stray key or store a value of the other type.
- `Attachments.PrepareAttachments`: the attachments are built but not sent. The component leaves them out of its payload (the line that adds them is commented out), and the model does the same.
