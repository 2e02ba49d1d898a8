/**
 * The state pieces shared by both demo-request components: the form record
 * with its eleven keys, the single-field update driven by an input event,
 * and the list of selected files with append and remove-by-id.
 */
module FormModel {
  import opened Wrappers

  /** The local-storage key under which the record is kept between visits. */
  const StorageKey := "demo-formData"

  /** The keys of the form record; each is the `name` of one rendered input. */
  datatype Field =
    | FirstName | LastName | BusinessEmail | PhoneNumber | JobTitle | Enterprise | Country | ProjectInfo
    | OptInProductUpdates | OptInSalesOutreach | OptInEvents
  {
    /** The three consent keys hold booleans; the other eight hold text. */
    predicate IsFlag() {
      OptInProductUpdates? || OptInSalesOutreach? || OptInEvents?
    }

    /** The `name` attribute of the input bound to this key. */
    function Name(): string {
      match this
      case FirstName => "firstName"
      case LastName => "lastName"
      case BusinessEmail => "businessEmail"
      case PhoneNumber => "phoneNumber"
      case JobTitle => "jobTitle"
      case Enterprise => "enterprise"
      case Country => "country"
      case ProjectInfo => "projectInfo"
      case OptInProductUpdates => "optInProductUpdates"
      case OptInSalesOutreach => "optInSalesOutreach"
      case OptInEvents => "optInEvents"
    }
  }

  /** The key an input `name` attribute refers to, if it is one of the record's. */
  function FieldNamed(name: string): (f: Option<Field>)
    ensures f.Some? ==> f.value.Name() == name
    ensures f.None? ==> forall g: Field :: g.Name() != name
  {
    if name == "firstName" then Some(FirstName)
    else if name == "lastName" then Some(LastName)
    else if name == "businessEmail" then Some(BusinessEmail)
    else if name == "phoneNumber" then Some(PhoneNumber)
    else if name == "jobTitle" then Some(JobTitle)
    else if name == "enterprise" then Some(Enterprise)
    else if name == "country" then Some(Country)
    else if name == "projectInfo" then Some(ProjectInfo)
    else if name == "optInProductUpdates" then Some(OptInProductUpdates)
    else if name == "optInSalesOutreach" then Some(OptInSalesOutreach)
    else if name == "optInEvents" then Some(OptInEvents)
    else None
  }

  /** Every key's input name leads back to that key. */
  lemma FieldNameRoundTrip(f: Field)
    ensures FieldNamed(f.Name()) == Some(f)
  {
  }

  /** What one key of the record holds. */
  datatype FieldValue = Text(text: string) | Flag(on: bool)

  /** The form record (`formData`). */
  datatype FormRecord = FormRecord(
    firstName: string,
    lastName: string,
    businessEmail: string,
    phoneNumber: string,
    jobTitle: string,
    enterprise: string,
    country: string,
    projectInfo: string,
    optInProductUpdates: bool,
    optInSalesOutreach: bool,
    optInEvents: bool)

  /** The value `record[f.Name()]`. */
  function Get(r: FormRecord, f: Field): (v: FieldValue)
    ensures v.Flag? <==> f.IsFlag()
  {
    match f
    case FirstName => Text(r.firstName)
    case LastName => Text(r.lastName)
    case BusinessEmail => Text(r.businessEmail)
    case PhoneNumber => Text(r.phoneNumber)
    case JobTitle => Text(r.jobTitle)
    case Enterprise => Text(r.enterprise)
    case Country => Text(r.country)
    case ProjectInfo => Text(r.projectInfo)
    case OptInProductUpdates => Flag(r.optInProductUpdates)
    case OptInSalesOutreach => Flag(r.optInSalesOutreach)
    case OptInEvents => Flag(r.optInEvents)
  }

  /** `{...r, [f.Name()]: v}` for a value of the key's kind. */
  function Set(r: FormRecord, f: Field, v: FieldValue): (s: FormRecord)
    requires v.Flag? <==> f.IsFlag()
    ensures Get(s, f) == v
    ensures forall g :: g != f ==> Get(s, g) == Get(r, g)
  {
    match f
    case FirstName => r.(firstName := v.text)
    case LastName => r.(lastName := v.text)
    case BusinessEmail => r.(businessEmail := v.text)
    case PhoneNumber => r.(phoneNumber := v.text)
    case JobTitle => r.(jobTitle := v.text)
    case Enterprise => r.(enterprise := v.text)
    case Country => r.(country := v.text)
    case ProjectInfo => r.(projectInfo := v.text)
    case OptInProductUpdates => r.(optInProductUpdates := v.on)
    case OptInSalesOutreach => r.(optInSalesOutreach := v.on)
    case OptInEvents => r.(optInEvents := v.on)
  }

  /** Two records are the same exactly when they agree on every key. */
  lemma {:induction false} RecordsEqual(a: FormRecord, b: FormRecord)
    requires forall f :: Get(a, f) == Get(b, f)
    ensures a == b
  {
    assert Get(a, FirstName) == Get(b, FirstName);
    assert Get(a, LastName) == Get(b, LastName);
    assert Get(a, BusinessEmail) == Get(b, BusinessEmail);
    assert Get(a, PhoneNumber) == Get(b, PhoneNumber);
    assert Get(a, JobTitle) == Get(b, JobTitle);
    assert Get(a, Enterprise) == Get(b, Enterprise);
    assert Get(a, Country) == Get(b, Country);
    assert Get(a, ProjectInfo) == Get(b, ProjectInfo);
    assert Get(a, OptInProductUpdates) == Get(b, OptInProductUpdates);
    assert Get(a, OptInSalesOutreach) == Get(b, OptInSalesOutreach);
    assert Get(a, OptInEvents) == Get(b, OptInEvents);
  }

  /** The record a fresh form starts from, and the one a successful submit restores. */
  function DefaultRecord(): (r: FormRecord)
    ensures forall f :: Get(r, f) == if f.IsFlag() then Flag(false) else Text("")
  {
    FormRecord("", "", "", "", "", "", "", "", false, false, false)
  }

  /** The part of a DOM change event the handler reads: `e.target`'s name, value, type and checked. */
  datatype InputEvent = InputEvent(name: string, value: string, inputType: string, checked: bool)

  /**
   * How the rendered form wires its inputs: every input's name is a key of the
   * record, and exactly the three consent inputs are checkboxes.
   */
  predicate Wired(e: InputEvent) {
    && FieldNamed(e.name).Some?
    && (e.inputType == "checkbox" <==> FieldNamed(e.name).value.IsFlag())
  }

  /** `handleInputChange`: store `checked` for a checkbox, the raw `value` otherwise. */
  function ApplyInput(prev: FormRecord, e: InputEvent): (r: FormRecord)
    requires Wired(e)
    ensures var f := FieldNamed(e.name).value;
      && Get(r, f) == (if e.inputType == "checkbox" then Flag(e.checked) else Text(e.value))
      && forall g :: g != f ==> Get(r, g) == Get(prev, g)
  {
    var f := FieldNamed(e.name).value;
    Set(prev, f, if e.inputType == "checkbox" then Flag(e.checked) else Text(e.value))
  }

  /** Replaying the same event changes nothing more. */
  lemma ApplyInputIdempotent(r: FormRecord, e: InputEvent)
    requires Wired(e)
    ensures ApplyInput(ApplyInput(r, e), e) == ApplyInput(r, e)
  {
  }

  /** Of two events on the same key, the later one alone decides the record. */
  lemma {:induction false} ApplyInputLastWins(r: FormRecord, e1: InputEvent, e2: InputEvent)
    requires Wired(e1) && Wired(e2) && e1.name == e2.name
    ensures ApplyInput(ApplyInput(r, e1), e2) == ApplyInput(r, e2)
  {
    var a := ApplyInput(ApplyInput(r, e1), e2);
    var b := ApplyInput(r, e2);
    forall g ensures Get(a, g) == Get(b, g) {
    }
    RecordsEqual(a, b);
  }

  /** Updates of different keys commute. */
  lemma SetCommutes(r: FormRecord, f: Field, v: FieldValue, g: Field, w: FieldValue)
    requires v.Flag? <==> f.IsFlag()
    requires w.Flag? <==> g.IsFlag()
    requires f != g
    ensures Set(Set(r, f, v), g, w) == Set(Set(r, g, w), f, v)
  {
  }

  /** Events on different keys commute. */
  lemma ApplyInputCommutes(r: FormRecord, e1: InputEvent, e2: InputEvent)
    requires Wired(e1) && Wired(e2) && e1.name != e2.name
    ensures ApplyInput(ApplyInput(r, e1), e2) == ApplyInput(ApplyInput(r, e2), e1)
  {
    var f1, f2 := FieldNamed(e1.name).value, FieldNamed(e2.name).value;
    var v1 := if e1.inputType == "checkbox" then Flag(e1.checked) else Text(e1.value);
    var v2 := if e2.inputType == "checkbox" then Flag(e2.checked) else Text(e2.value);
    SetCommutes(r, f1, v1, f2, v2);
  }

  /** An attachment id; the source draws them from the clock and a random number. */
  type Id = nat

  /** A browser `File`: its name, byte size, MIME type and an opaque handle on its content. */
  datatype FileHandle = FileHandle(name: string, size: nat, mimeType: string, content: nat)

  /** One entry of `uploadedFiles`. */
  datatype AttachmentRecord = AttachmentRecord(id: Id, name: string, size: nat, file: FileHandle)

  /** The records `handleFileUpload` makes for one selection, with one given id per file. */
  function NewRecords(selected: seq<FileHandle>, ids: seq<Id>): (r: seq<AttachmentRecord>)
    requires |ids| == |selected|
    ensures |r| == |selected|
    ensures forall k :: 0 <= k < |r| ==>
      r[k] == AttachmentRecord(ids[k], selected[k].name, selected[k].size, selected[k])
  {
    seq(|selected|, k requires 0 <= k < |selected| =>
      AttachmentRecord(ids[k], selected[k].name, selected[k].size, selected[k]))
  }

  /** `[...prev, ...newFiles]`: the selection goes after the existing list, duplicates and all. */
  function AppendSelected(prev: seq<AttachmentRecord>, selected: seq<FileHandle>, ids: seq<Id>)
    : (r: seq<AttachmentRecord>)
    requires |ids| == |selected|
    ensures |r| == |prev| + |selected|
    ensures r[..|prev|] == prev
    ensures forall k :: 0 <= k < |selected| ==>
      r[|prev| + k] == AttachmentRecord(ids[k], selected[k].name, selected[k].size, selected[k])
  {
    prev + NewRecords(selected, ids)
  }

  /** The ids a list holds. */
  function Ids(files: seq<AttachmentRecord>): (ids: set<Id>)
    ensures forall k :: 0 <= k < |files| ==> files[k].id in ids
    ensures forall i :: i in ids ==> exists k :: 0 <= k < |files| && files[k].id == i
  {
    set k | 0 <= k < |files| :: files[k].id
  }

  /** `prev.filter(file => file.id !== fileId)`. */
  function WithoutId(files: seq<AttachmentRecord>, fileId: Id): (r: seq<AttachmentRecord>)
    ensures |r| <= |files|
    ensures forall k :: 0 <= k < |r| ==> r[k].id != fileId
    ensures fileId !in Ids(files) ==> r == files
  {
    if |files| == 0 then []
    else if files[0].id != fileId then [files[0]] + WithoutId(files[1..], fileId)
    else WithoutId(files[1..], fileId)
  }

  /** The filter keeps exactly the records whose id differs. */
  lemma {:induction false} WithoutIdMembers(files: seq<AttachmentRecord>, fileId: Id)
    ensures forall x :: x in WithoutId(files, fileId) <==> x in files && x.id != fileId
  {
    if |files| > 0 {
      WithoutIdMembers(files[1..], fileId);
      assert files == [files[0]] + files[1..];
    }
  }

  /** Filtering works piecewise, so the kept records keep their relative order. */
  lemma {:induction false} WithoutIdConcat(a: seq<AttachmentRecord>, b: seq<AttachmentRecord>, fileId: Id)
    ensures WithoutId(a + b, fileId) == WithoutId(a, fileId) + WithoutId(b, fileId)
  {
    if |a| > 0 {
      assert (a + b)[1..] == a[1..] + b;
      WithoutIdConcat(a[1..], b, fileId);
    } else {
      assert a + b == b;
    }
  }

  /** Removing the same id twice is the same as removing it once. */
  lemma WithoutIdIdempotent(files: seq<AttachmentRecord>, fileId: Id)
    ensures WithoutId(WithoutId(files, fileId), fileId) == WithoutId(files, fileId)
  {
  }

  /** Selecting one file under a new id and then removing that id restores the list. */
  lemma UploadThenRemove(prev: seq<AttachmentRecord>, h: FileHandle, fileId: Id)
    requires fileId !in Ids(prev)
    ensures WithoutId(AppendSelected(prev, [h], [fileId]), fileId) == prev
  {
    var added := AppendSelected(prev, [h], [fileId]);
    assert added == prev + [added[|prev|]];
    WithoutIdConcat(prev, [added[|prev|]], fileId);
    assert WithoutId([added[|prev|]], fileId) == [];
  }
}
