/**
 * The file-upload component's attachment preparation: every selected file
 * under 5 MiB is read as a data URL and kept as an inline attachment with the
 * data-URL header stripped; larger files and files that fail to read are
 * skipped without an error. Reading a file is the abstract `convert`, whose
 * `None` stands for a rejected read.
 */
module Attachments {
  import opened Wrappers
  import opened FormModel
  import Strings

  /** `5 * 1024 * 1024` bytes. */
  const MaxInlineBytes: nat := 5 * 1024 * 1024

  /** An inline attachment: name, base64 content (undefined when the URL had no comma), MIME type. */
  datatype Attachment = Attachment(name: string, content: Option<string>, mimeType: string)

  /**
   * `dataUrl.split(',')[1]`: the second comma-separated segment, that is the
   * text between the first and the second comma (or the end), if there is a comma.
   */
  function DataUrlBody(dataUrl: string): (body: Option<string>)
    ensures body.None? <==> ',' !in dataUrl
    ensures body.Some? ==>
      var rest := dataUrl[Strings.IndexOf(dataUrl, ',') + 1..];
      body.value == rest[..Strings.IndexOf(rest, ',')]
  {
    var parts := Strings.Split(dataUrl, ',');
    if |parts| > 1 then
      var rest := dataUrl[Strings.IndexOf(dataUrl, ',') + 1..];
      assert parts[1] == Strings.Split(rest, ',')[0];
      Some(parts[1])
    else None
  }

  /** For a well-formed data URL (`header,payload`, commas in neither) the body is the payload. */
  lemma DataUrlBodyStripsHeader(header: string, payload: string)
    requires ',' !in header && ',' !in payload
    ensures DataUrlBody(header + "," + payload) == Some(payload)
  {
    var url := header + "," + payload;
    Strings.IndexOfAt(url, ',', |header|);
    assert url[|header| + 1..] == payload;
    Strings.SplitWithout(payload, ',');
  }

  /** What one uploaded file contributes to `attachments`: nothing, or one entry. */
  function Inlined(f: AttachmentRecord, convert: FileHandle -> Option<string>): (r: seq<Attachment>)
    ensures |r| <= 1
    ensures |r| == 1 <==> f.file.size < MaxInlineBytes && convert(f.file).Some?
    ensures |r| == 1 ==> r[0] == Attachment(f.name, DataUrlBody(convert(f.file).value), f.file.mimeType)
  {
    if f.file.size < MaxInlineBytes then
      match convert(f.file)
      case Some(dataUrl) => [Attachment(f.name, DataUrlBody(dataUrl), f.file.mimeType)]
      case None => []
    else []
  }

  /** The attachments made from a list of uploaded files, file by file in list order. */
  function SelectAttachments(files: seq<AttachmentRecord>, convert: FileHandle -> Option<string>)
    : (r: seq<Attachment>)
    ensures |r| <= |files|
    ensures forall a :: a in r ==> exists f :: f in files && a.name == f.name && a.mimeType == f.file.mimeType
  {
    if |files| == 0 then [] else Inlined(files[0], convert) + SelectAttachments(files[1..], convert)
  }

  /** Each file is handled on its own: selecting from a concatenation concatenates the selections. */
  lemma {:induction false} SelectConcat(a: seq<AttachmentRecord>, b: seq<AttachmentRecord>,
                                        convert: FileHandle -> Option<string>)
    ensures SelectAttachments(a + b, convert) == SelectAttachments(a, convert) + SelectAttachments(b, convert)
  {
    if |a| == 0 {
      assert a + b == b;
    } else {
      assert (a + b)[1..] == a[1..] + b;
      SelectConcat(a[1..], b, convert);
    }
  }

  /** A file that is too large, or whose read fails, is dropped and nothing else changes. */
  lemma SkippedFileDropsOut(a: seq<AttachmentRecord>, f: AttachmentRecord, b: seq<AttachmentRecord>,
                            convert: FileHandle -> Option<string>)
    requires f.file.size >= MaxInlineBytes || convert(f.file).None?
    ensures SelectAttachments(a + [f] + b, convert) == SelectAttachments(a + b, convert)
  {
    SelectConcat(a + [f], b, convert);
    SelectConcat(a, [f], convert);
    SelectConcat(a, b, convert);
    assert SelectAttachments([f], convert) == Inlined(f, convert) + SelectAttachments([], convert);
  }

  /** Never more attachments than files; as many exactly when every file is small and readable. */
  lemma {:induction false} SelectLength(files: seq<AttachmentRecord>, convert: FileHandle -> Option<string>)
    ensures |SelectAttachments(files, convert)| <= |files|
    ensures |SelectAttachments(files, convert)| == |files| <==>
      forall k :: 0 <= k < |files| ==> files[k].file.size < MaxInlineBytes && convert(files[k].file).Some?
  {
    if |files| > 0 {
      SelectLength(files[1..], convert);
      assert forall k :: 1 <= k < |files| ==> files[k] == files[1..][k - 1];
    }
  }

  /** When every file is small and readable, attachment `k` is made from file `k`. */
  lemma {:induction false} SelectAll(files: seq<AttachmentRecord>, convert: FileHandle -> Option<string>, k: nat)
    requires forall j :: 0 <= j < |files| ==> files[j].file.size < MaxInlineBytes && convert(files[j].file).Some?
    requires k < |files|
    ensures |SelectAttachments(files, convert)| == |files|
    ensures SelectAttachments(files, convert)[k]
      == Attachment(files[k].name, DataUrlBody(convert(files[k].file).value), files[k].file.mimeType)
  {
    SelectLength(files, convert);
    assert |Inlined(files[0], convert)| == 1;
    if k > 0 {
      SelectAll(files[1..], convert, k - 1);
    }
  }

  /**
   * The `for` loop of `handleSubmit` that fills `attachments`: each file under
   * the limit is read in turn and a failed read only skips that file.
   */
  method PrepareAttachments(uploadedFiles: seq<AttachmentRecord>, convert: FileHandle -> Option<string>)
    returns (attachments: seq<Attachment>)
    ensures attachments == SelectAttachments(uploadedFiles, convert)
    ensures |attachments| <= |uploadedFiles|
  {
    attachments := [];
    for i := 0 to |uploadedFiles|
      invariant attachments == SelectAttachments(uploadedFiles[..i], convert)
    {
      var fileObj := uploadedFiles[i];
      if fileObj.file.size < MaxInlineBytes {
        var read := convert(fileObj.file);
        match read {
          case Some(base64) =>
            attachments := attachments + [Attachment(fileObj.name, DataUrlBody(base64), fileObj.file.mimeType)];
          case None =>
        }
      }
      SelectConcat(uploadedFiles[..i], [fileObj], convert);
      assert uploadedFiles[..i + 1] == uploadedFiles[..i] + [fileObj];
    }
    assert uploadedFiles[..|uploadedFiles|] == uploadedFiles;
    SelectLength(uploadedFiles, convert);
  }
}
