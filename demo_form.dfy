/**
 * The plain demo-request component: its state fields, the local-storage
 * write-through, the input and file handlers, and the two halves of a
 * submission (before and after the single delivery attempt is awaited).
 */
module DemoFormComponent {
  import opened FormModel
  import opened Payload
  import opened Notices

  class DemoForm {
    var formData: FormRecord
    var uploadedFiles: seq<AttachmentRecord>
    var isSubmitting: bool
    /** The browser's local storage; the record is kept under `StorageKey`. */
    var store: map<string, FormRecord>

    /** The stored record mirrors `formData`. */
    ghost predicate Persisted()
      reads this
    {
      StorageKey in store && store[StorageKey] == formData
    }

    /** Start from the stored record if there is one, else from the default record. */
    constructor (saved: map<string, FormRecord>)
      ensures formData == (if StorageKey in saved then saved[StorageKey] else DefaultRecord())
      ensures uploadedFiles == [] && !isSubmitting
      ensures store == saved[StorageKey := formData]
      ensures Persisted()
    {
      formData := if StorageKey in saved then saved[StorageKey] else DefaultRecord();
      uploadedFiles := [];
      isSubmitting := false;
      store := saved;
      new;
      PersistFormData();
    }

    /** The effect that runs whenever `formData` changes: write the whole record. */
    method PersistFormData()
      modifies this`store
      ensures store == old(store)[StorageKey := formData]
      ensures Persisted()
    {
      store := store[StorageKey := formData];
    }

    /** `handleInputChange`, followed by the write-through it triggers. */
    method HandleInputChange(e: InputEvent)
      requires Wired(e)
      modifies this`formData, this`store
      ensures formData == ApplyInput(old(formData), e)
      ensures store == old(store)[StorageKey := formData]
      ensures Persisted()
    {
      formData := ApplyInput(formData, e);
      PersistFormData();
    }

    /** `handleFileUpload`: `ids` stands for the ids drawn for the selected files. */
    method HandleFileUpload(selected: seq<FileHandle>, ids: seq<Id>)
      requires |ids| == |selected|
      modifies this`uploadedFiles
      ensures uploadedFiles == AppendSelected(old(uploadedFiles), selected, ids)
    {
      uploadedFiles := AppendSelected(uploadedFiles, selected, ids);
    }

    /** `removeFile`. */
    method RemoveFile(fileId: Id)
      modifies this`uploadedFiles
      ensures uploadedFiles == WithoutId(old(uploadedFiles), fileId)
    {
      uploadedFiles := WithoutId(uploadedFiles, fileId);
    }

    /** `handleSubmit` up to the delivery call: raise the flag and build the payload. */
    method BeginSubmit(formatSize: nat -> string) returns (emailData: map<string, string>)
      modifies this`isSubmitting
      ensures isSubmitting
      ensures emailData == DemoEmailData(formData, uploadedFiles, formatSize)
    {
      isSubmitting := true;
      emailData := DemoEmailData(formData, uploadedFiles, formatSize);
    }

    /**
     * `handleSubmit` after the delivery call: on success drop the stored record,
     * reset the form and the file list (the write-through then stores the default
     * record); on failure keep everything and explain the status. Either way the
     * flag is lowered.
     */
    method FinishSubmit(outcome: SendOutcome) returns (notice: string)
      modifies this`formData, this`uploadedFiles, this`isSubmitting, this`store
      ensures !isSubmitting
      ensures outcome.Delivered? ==>
        && notice == SuccessNotice
        && formData == DefaultRecord()
        && uploadedFiles == []
        && store == old(store)[StorageKey := DefaultRecord()]
      ensures outcome.Rejected? ==>
        && notice == FailureMessage(outcome.status)
        && formData == old(formData)
        && uploadedFiles == old(uploadedFiles)
        && store == old(store)
      ensures old(Persisted()) || outcome.Delivered? ==> Persisted()
    {
      match outcome {
        case Delivered =>
          notice := SuccessNotice;
          store := store - {StorageKey};
          formData := DefaultRecord();
          uploadedFiles := [];
        case Rejected(status) =>
          notice := FailureMessage(status);
      }
      isSubmitting := false;
      if outcome.Delivered? {
        PersistFormData();
      }
    }
  }
}
