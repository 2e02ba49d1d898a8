/**
 * The flat template-variable map (`emailData`) each component hands to the
 * email-delivery library, built from the form record and the selected files.
 * File sizes are rendered by an abstract `formatSize` (the source's
 * floating-point `formatFileSize`).
 */
module Payload {
  import opened FormModel
  import Strings

  const NoDescription := "프로젝트 설명이 제공되지 않았습니다."
  const NoFiles := "첨부파일이 없습니다."
  const Yes := "예"
  const No := "아니요"
  const Recipient := "VMS Holdings"
  const EntrySeparator := ", "

  /** The consent token: `flag ? '예' : '아니요'`. */
  function YesNo(flag: bool): (t: string)
    ensures t == Yes <==> flag
    ensures t == No <==> !flag
  {
    if flag then Yes else No
  }

  /** `projectInfo || placeholder`: the description is never empty. */
  function Description(info: string): (d: string)
    ensures d != ""
    ensures info != "" ==> d == info
    ensures info == "" ==> d == NoDescription
  {
    if info != "" then info else NoDescription
  }

  /** `${firstName} ${lastName}`. */
  function FullName(r: FormRecord): (n: string)
    ensures |n| == |r.firstName| + 1 + |r.lastName|
    ensures n[..|r.firstName|] == r.firstName
    ensures n[|r.firstName|] == ' '
    ensures n[|r.firstName| + 1..] == r.lastName
  {
    r.firstName + " " + r.lastName
  }

  /** One file's line in the summary: `${name} (${formatSize(size)})`. */
  function Entry(file: AttachmentRecord, formatSize: nat -> string): (e: string)
    ensures |e| == |file.name| + |formatSize(file.size)| + 3
    ensures file.name <= e
    ensures e[|file.name|..|file.name| + 2] == " ("
    ensures e[|file.name| + 2..|e| - 1] == formatSize(file.size)
    ensures e[|e| - 1] == ')'
  {
    file.name + " (" + formatSize(file.size) + ")"
  }

  function Entries(files: seq<AttachmentRecord>, formatSize: nat -> string): (es: seq<string>)
    ensures |es| == |files|
    ensures forall k :: 0 <= k < |files| ==> es[k] == Entry(files[k], formatSize)
  {
    seq(|files|, k requires 0 <= k < |files| => Entry(files[k], formatSize))
  }

  /** `files_info`: the entries joined by ", ", or the placeholder when there are none. */
  function FilesInfo(files: seq<AttachmentRecord>, formatSize: nat -> string): (info: string)
    ensures |files| == 0 ==> info == NoFiles
    ensures |files| > 0 ==> Entry(files[0], formatSize) <= info
  {
    if |files| > 0 then Strings.Join(Entries(files, formatSize), EntrySeparator) else NoFiles
  }

  /**
   * Every selected file has its entry in the summary, in list order: entry `k`
   * starts at `Offset(.., k)`, ", " follows each entry but the last, and the
   * last entry ends the summary.
   */
  lemma FilesInfoLayout(files: seq<AttachmentRecord>, formatSize: nat -> string, k: nat)
    requires k < |files|
    ensures var info, es := FilesInfo(files, formatSize), Entries(files, formatSize);
      var off, e := Strings.Offset(es, EntrySeparator, k), Entry(files[k], formatSize);
      && off + |e| <= |info|
      && info[off..off + |e|] == e
      && (k + 1 < |files| ==>
            && Strings.Offset(es, EntrySeparator, k + 1) == off + |e| + 2
            && off + |e| + 2 <= |info|
            && info[off + |e|..off + |e| + 2] == EntrySeparator)
      && (k + 1 == |files| ==> |info| == off + |e|)
  {
    Strings.JoinLayout(Entries(files, formatSize), EntrySeparator, k);
  }

  /** The summary is the placeholder exactly when no file is selected. */
  lemma FilesInfoEmptyIff(files: seq<AttachmentRecord>, formatSize: nat -> string)
    ensures FilesInfo(files, formatSize) == NoFiles <==> |files| == 0
  {
    if |files| > 0 {
      var es := Entries(files, formatSize);
      var last := |es| - 1;
      var info := Strings.Join(es, EntrySeparator);
      var e := es[last];
      var off := Strings.Offset(es, EntrySeparator, last);
      Strings.JoinPart(es, EntrySeparator, last);
      Strings.JoinEnd(es, EntrySeparator);
      assert e[|e| - 1] == ')';
      assert info[off..off + |e|][|e| - 1] == info[|info| - 1];
      assert NoFiles[|NoFiles| - 1] == '.';
    }
  }

  /** The variable names the plain component's template receives. */
  const DemoFormKeys: set<string> := {
    "from_name", "from_email", "phone", "company", "country", "job_title",
    "project_description", "files_info", "opt_product_updates", "opt_sales_outreach",
    "opt_events", "to_name", "reply_to", "message"}

  /** The variable names the file-upload component's template receives. */
  const UploadFormKeys: set<string> := {
    "from_name", "from_email", "phone", "company", "country", "job_title",
    "project_description", "files_info", "opt_product_updates", "opt_sales_outreach",
    "opt_events"}

  /** The plain component's `emailData`. */
  function DemoEmailData(r: FormRecord, files: seq<AttachmentRecord>, formatSize: nat -> string)
    : (p: map<string, string>)
    ensures p.Keys == DemoFormKeys
    ensures p["from_name"] == FullName(r)
    ensures p["from_email"] == p["reply_to"] == r.businessEmail
    ensures p["phone"] == r.phoneNumber && p["company"] == r.enterprise
    ensures p["country"] == r.country && p["job_title"] == r.jobTitle
    ensures p["project_description"] == p["message"] == Description(r.projectInfo)
    ensures p["files_info"] == FilesInfo(files, formatSize)
    ensures p["opt_product_updates"] == YesNo(r.optInProductUpdates)
    ensures p["opt_sales_outreach"] == YesNo(r.optInSalesOutreach)
    ensures p["opt_events"] == YesNo(r.optInEvents)
    ensures p["to_name"] == Recipient
  {
    map[
      "from_name" := FullName(r),
      "from_email" := r.businessEmail,
      "phone" := r.phoneNumber,
      "company" := r.enterprise,
      "country" := r.country,
      "job_title" := r.jobTitle,
      "project_description" := Description(r.projectInfo),
      "files_info" := FilesInfo(files, formatSize),
      "opt_product_updates" := YesNo(r.optInProductUpdates),
      "opt_sales_outreach" := YesNo(r.optInSalesOutreach),
      "opt_events" := YesNo(r.optInEvents),
      "to_name" := Recipient,
      "reply_to" := r.businessEmail,
      "message" := Description(r.projectInfo)]
  }

  /** The file-upload component's `emailData`: the same variables without the last three. */
  function UploadEmailData(r: FormRecord, files: seq<AttachmentRecord>, formatSize: nat -> string)
    : (p: map<string, string>)
    ensures p.Keys == UploadFormKeys
    ensures p.Keys == DemoFormKeys - {"to_name", "reply_to", "message"}
  {
    map[
      "from_name" := FullName(r),
      "from_email" := r.businessEmail,
      "phone" := r.phoneNumber,
      "company" := r.enterprise,
      "country" := r.country,
      "job_title" := r.jobTitle,
      "project_description" := Description(r.projectInfo),
      "files_info" := FilesInfo(files, formatSize),
      "opt_product_updates" := YesNo(r.optInProductUpdates),
      "opt_sales_outreach" := YesNo(r.optInSalesOutreach),
      "opt_events" := YesNo(r.optInEvents)]
  }

  /** On every variable they share, the two components send the same value. */
  lemma UploadPayloadAgrees(r: FormRecord, files: seq<AttachmentRecord>, formatSize: nat -> string)
    ensures forall key :: key in UploadFormKeys ==>
      UploadEmailData(r, files, formatSize)[key] == DemoEmailData(r, files, formatSize)[key]
  {
  }
}
