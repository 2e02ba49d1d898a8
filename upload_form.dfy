/**
 * The demo-request component that also prepares inline attachments. Its
 * handlers match the plain component's; its submission reads every small
 * file before building the payload, and any delivery failure gets the one
 * generic notice.
 */
module UploadFormComponent {
  import opened Wrappers
  import opened FormModel
  import opened Payload
  import opened Notices
  import opened Attachments

  class DemoFormWithFileUpload {
    var formData: FormRecord
    var uploadedFiles: seq<AttachmentRecord>
    var isSubmitting: bool
    /** Links of externally uploaded files; nothing in the component ever adds one. */
    var fileUrls: seq<string>
    /** The browser's local storage; the record is kept under `StorageKey`. */
    var store: map<string, FormRecord>

    /** The stored record mirrors `formData`. */
    ghost predicate Persisted()
      reads this
    {
      StorageKey in store && store[StorageKey] == formData
    }

    /** Start from the stored record if there is one, else from the default record. */
    constructor (saved: map<string, FormRecord>)
      ensures formData == (if StorageKey in saved then saved[StorageKey] else DefaultRecord())
      ensures uploadedFiles == [] && fileUrls == [] && !isSubmitting
      ensures store == saved[StorageKey := formData]
      ensures Persisted()
    {
      formData := if StorageKey in saved then saved[StorageKey] else DefaultRecord();
      uploadedFiles := [];
      fileUrls := [];
      isSubmitting := false;
      store := saved;
      new;
      PersistFormData();
    }

    /** The effect that runs whenever `formData` changes: write the whole record. */
    method PersistFormData()
      modifies this`store
      ensures store == old(store)[StorageKey := formData]
      ensures Persisted()
    {
      store := store[StorageKey := formData];
    }

    /** `handleInputChange`, followed by the write-through it triggers. */
    method HandleInputChange(e: InputEvent)
      requires Wired(e)
      modifies this`formData, this`store
      ensures formData == ApplyInput(old(formData), e)
      ensures store == old(store)[StorageKey := formData]
      ensures Persisted()
    {
      formData := ApplyInput(formData, e);
      PersistFormData();
    }

    /** `handleFileUpload` (its external upload is commented out in the component). */
    method HandleFileUpload(selected: seq<FileHandle>, ids: seq<Id>)
      requires |ids| == |selected|
      modifies this`uploadedFiles
      ensures uploadedFiles == AppendSelected(old(uploadedFiles), selected, ids)
    {
      uploadedFiles := AppendSelected(uploadedFiles, selected, ids);
    }

    /** `removeFile`. */
    method RemoveFile(fileId: Id)
      modifies this`uploadedFiles
      ensures uploadedFiles == WithoutId(old(uploadedFiles), fileId)
    {
      uploadedFiles := WithoutId(uploadedFiles, fileId);
    }

    /**
     * `handleSubmit` up to the delivery call: raise the flag, read the small
     * files into `attachments`, and build the payload. The payload's file
     * summary lists every uploaded file, whether or not it became an
     * attachment, and the attachments themselves are not part of the payload.
     */
    method BeginSubmit(convert: FileHandle -> Option<string>, formatSize: nat -> string)
      returns (attachments: seq<Attachment>, emailData: map<string, string>)
      modifies this`isSubmitting
      ensures isSubmitting
      ensures attachments == SelectAttachments(uploadedFiles, convert)
      ensures emailData == UploadEmailData(formData, uploadedFiles, formatSize)
      ensures emailData["files_info"] == FilesInfo(uploadedFiles, formatSize)
    {
      isSubmitting := true;
      attachments := PrepareAttachments(uploadedFiles, convert);
      emailData := UploadEmailData(formData, uploadedFiles, formatSize);
    }

    /**
     * `handleSubmit` after the delivery call: on success drop the stored record
     * and reset the form, the file list and the links (the write-through then
     * stores the default record); on failure keep everything and show the
     * generic notice. Either way the flag is lowered.
     */
    method FinishSubmit(outcome: SendOutcome) returns (notice: string)
      modifies this`formData, this`uploadedFiles, this`fileUrls, this`isSubmitting, this`store
      ensures !isSubmitting
      ensures outcome.Delivered? ==>
        && notice == SuccessNotice
        && formData == DefaultRecord()
        && uploadedFiles == [] && fileUrls == []
        && store == old(store)[StorageKey := DefaultRecord()]
      ensures outcome.Rejected? ==>
        && notice == GenericFailureMessage
        && formData == old(formData)
        && uploadedFiles == old(uploadedFiles) && fileUrls == old(fileUrls)
        && store == old(store)
      ensures old(Persisted()) || outcome.Delivered? ==> Persisted()
    {
      match outcome {
        case Delivered =>
          notice := SuccessNotice;
          store := store - {StorageKey};
          formData := DefaultRecord();
          uploadedFiles := [];
          fileUrls := [];
        case Rejected(_) =>
          notice := GenericFailureMessage;
      }
      isSubmitting := false;
      if outcome.Delivered? {
        PersistFormData();
      }
    }
  }
}
