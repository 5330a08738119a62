/**
  The record list of the category management page: deleting, editing and
  adding procedure records, the edit form's defaults, and clearing the
  records cache after every successful write. Database writes become an
  outcome parameter.
*/
module CategoryManagement {
  import opened Wrappers
  import opened Text
  import opened Sequences
  import opened QtktCache
  import opened Configuration

  /** A record as loaded from the database: its id and whatever fields its document has. */
  datatype DocRecord = DocRecord(id: string, fields: map<string, string>)

  /** The edit form: the four editable fields. */
  datatype FormData = FormData(qdbanhanh: string, chuyenkhoa: string, tenqtkt: string, chuanqtkt: string)

  /** The standard a form starts with when nothing better is known. */
  const DefaultStandard := "Thông thường"

  const DeletedMessage := "✅ Đã xóa bản ghi"
  const UpdatedMessage := "✅ Đã cập nhật bản ghi"
  const AddedMessage := "✅ Đã thêm bản ghi mới"
  const NameRequiredMessage := "❌ Vui lòng nhập tên QTKT"

  /** `record[key] || fallback`: a missing or empty field reads as the fallback. */
  function FieldOr(fields: map<string, string>, key: string, fallback: string): (v: string)
    ensures key in fields && fields[key] != "" ==> v == fields[key]
    ensures !(key in fields && fields[key] != "") ==> v == fallback
  {
    if key in fields && fields[key] != "" then fields[key] else fallback
  }

  /** The fields the form writes, under their document keys. */
  function FormFields(form: FormData): (m: map<string, string>)
    ensures m.Keys == {"qdbanhanh", "chuyenkhoa", "tenqtkt", "chuanqtkt"}
    ensures m["qdbanhanh"] == form.qdbanhanh && m["chuyenkhoa"] == form.chuyenkhoa
    ensures m["tenqtkt"] == form.tenqtkt && m["chuanqtkt"] == form.chuanqtkt
  {
    map["qdbanhanh" := form.qdbanhanh, "chuyenkhoa" := form.chuyenkhoa,
        "tenqtkt" := form.tenqtkt, "chuanqtkt" := form.chuanqtkt]
  }

  /** `handleEdit`'s form: each field from the record, empty when missing, the standard defaulted. */
  function EditForm(record: DocRecord): FormData {
    FormData(
      FieldOr(record.fields, "qdbanhanh", ""),
      FieldOr(record.fields, "chuyenkhoa", ""),
      FieldOr(record.fields, "tenqtkt", ""),
      FieldOr(record.fields, "chuanqtkt", DefaultStandard))
  }

  /** `handleAdd`'s form: empty fields and the first standard option, or the default without options. */
  function AddForm(options: seq<ChuanOption>): (f: FormData)
    ensures f.qdbanhanh == "" && f.chuyenkhoa == "" && f.tenqtkt == ""
    ensures |options| > 0 ==> f.chuanqtkt == options[0].value
    ensures |options| == 0 ==> f.chuanqtkt == DefaultStandard
  {
    FormData("", "", "", if |options| > 0 then options[0].value else DefaultStandard)
  }

  /** `{ ...r, ...formData }`: the form's four fields over the record's, the id and other fields kept. */
  function ApplyForm(record: DocRecord, form: FormData): (r: DocRecord)
    ensures r.id == record.id
    ensures r.fields.Keys == record.fields.Keys + FormFields(form).Keys
    ensures forall key :: key in FormFields(form) ==> r.fields[key] == FormFields(form)[key]
    ensures forall key :: key in record.fields && key !in FormFields(form) ==> r.fields[key] == record.fields[key]
  {
    DocRecord(record.id, record.fields + FormFields(form))
  }

  /**
    Opening the editor on a record whose four fields are all filled and
    saving the form untouched leaves the record as it was.
  */
  lemma EditThenSaveUnchanged(record: DocRecord)
    requires forall key :: key in {"qdbanhanh", "chuyenkhoa", "tenqtkt", "chuanqtkt"} ==>
      key in record.fields && record.fields[key] != ""
    ensures ApplyForm(record, EditForm(record)) == record
  {
    var r := ApplyForm(record, EditForm(record));
    assert "qdbanhanh" in {"qdbanhanh", "chuyenkhoa", "tenqtkt", "chuanqtkt"};
    assert "chuyenkhoa" in {"qdbanhanh", "chuyenkhoa", "tenqtkt", "chuanqtkt"};
    assert "tenqtkt" in {"qdbanhanh", "chuyenkhoa", "tenqtkt", "chuanqtkt"};
    assert "chuanqtkt" in {"qdbanhanh", "chuyenkhoa", "tenqtkt", "chuanqtkt"};
    assert r.fields == record.fields;
  }

  /** Saving an edit form fills every missing or empty field: the text fields with "", the standard with the default. */
  lemma EditFormDefaults(record: DocRecord)
    ensures var f := ApplyForm(record, EditForm(record)).fields;
      f["chuanqtkt"] != "" &&
      ("chuanqtkt" !in record.fields || record.fields["chuanqtkt"] == "" ==> f["chuanqtkt"] == DefaultStandard) &&
      ("qdbanhanh" !in record.fields ==> f["qdbanhanh"] == "") &&
      ("chuyenkhoa" !in record.fields ==> f["chuyenkhoa"] == "") &&
      ("tenqtkt" !in record.fields ==> f["tenqtkt"] == "")
    ensures var f := ApplyForm(record, EditForm(record)).fields;
      (forall key :: key in {"qdbanhanh", "chuyenkhoa", "tenqtkt"} && key in record.fields ==> f[key] == record.fields[key]) &&
      ("chuanqtkt" in record.fields && record.fields["chuanqtkt"] != "" ==> f["chuanqtkt"] == record.fields["chuanqtkt"])
  {
  }

  /** The list after `handleDelete`: every record with the id removed, the rest in order. */
  function RemoveRecord(records: seq<DocRecord>, id: string): (r: seq<DocRecord>)
    ensures Subseq(r, records)
    ensures forall x :: x in r <==> x in records && x.id != id
    ensures forall x :: multiset(r)[x] == if x.id != id then multiset(records)[x] else 0
  {
    FilterFacts(records, (x: DocRecord) => x.id != id);
    FilterCount(records, (x: DocRecord) => x.id != id);
    Filter(records, (x: DocRecord) => x.id != id)
  }

  /** The list after an update: the form applied to the records with the id, the others kept. */
  function UpdateRecords(records: seq<DocRecord>, id: string, form: FormData): (r: seq<DocRecord>)
    ensures |r| == |records|
    ensures forall k :: 0 <= k < |r| ==> r[k].id == records[k].id
    ensures forall k :: 0 <= k < |r| && records[k].id == id ==> r[k] == ApplyForm(records[k], form)
    ensures forall k :: 0 <= k < |r| && records[k].id != id ==> r[k] == records[k]
  {
    seq(|records|, k requires 0 <= k < |records| =>
      if records[k].id == id then ApplyForm(records[k], form) else records[k])
  }

  /** The list after an add: the new record, with the database's id, at the end. */
  function AppendRecord(records: seq<DocRecord>, id: string, form: FormData): (r: seq<DocRecord>)
    ensures |r| == |records| + 1 && r[..|records|] == records
    ensures r[|records|] == DocRecord(id, FormFields(form))
  {
    records + [DocRecord(id, FormFields(form))]
  }

  /** Deleting a record just added under a fresh id gives back the previous list. */
  lemma AddThenDelete(records: seq<DocRecord>, id: string, form: FormData)
    requires forall k :: 0 <= k < |records| ==> records[k].id != id
    ensures RemoveRecord(AppendRecord(records, id, form), id) == records
  {
    var keep := (x: DocRecord) => x.id != id;
    FilterAll(records, keep);
    FilterSnoc(records, DocRecord(id, FormFields(form)), keep);
  }

  /** Updating a record with an id no record has changes nothing. */
  lemma UpdateMissingId(records: seq<DocRecord>, id: string, form: FormData)
    requires forall k :: 0 <= k < |records| ==> records[k].id != id
    ensures UpdateRecords(records, id, form) == records
  {
  }

  /** The page's state: the loaded records, its message, the form and the record being edited. */
  class CategoryPage {
    var records: seq<DocRecord>
    var message: string
    var editingRecord: Option<DocRecord>
    var showModal: bool
    var formData: FormData
    const cache: CacheStore

    constructor(records: seq<DocRecord>, cache: CacheStore)
      ensures this.records == records && this.cache == cache
      ensures message == "" && editingRecord == None && !showModal
      ensures formData == FormData("", "", "", DefaultStandard)
    {
      this.records := records;
      this.cache := cache;
      message := "";
      editingRecord := None;
      showModal := false;
      formData := FormData("", "", "", DefaultStandard);
    }

    /**
      `handleDelete`: nothing without confirmation; the list changes and the
      cache is cleared only after the delete succeeds.
    */
    method HandleDelete(id: string, confirmed: bool, outcome: WriteOutcome)
      modifies this, cache
      ensures !confirmed ==> records == old(records) && message == old(message) && cache.slot == old(cache.slot)
      ensures confirmed && outcome.Written? ==>
        records == RemoveRecord(old(records), id) && message == DeletedMessage && cache.slot == None
      ensures confirmed && outcome.Failed? ==>
        records == old(records) && message == ErrorMessage(outcome.reason) && cache.slot == old(cache.slot)
      ensures editingRecord == old(editingRecord) && showModal == old(showModal) && formData == old(formData)
    {
      if !confirmed {
        return;
      }
      match outcome
      case Written =>
        records := RemoveRecord(records, id);
        message := DeletedMessage;
        cache.Clear();
      case Failed(reason) =>
        message := ErrorMessage(reason);
    }

    /** `handleEdit`: the record becomes the one edited and the form is filled from it. */
    method HandleEdit(record: DocRecord)
      modifies this
      ensures editingRecord == Some(record) && formData == EditForm(record) && showModal
      ensures records == old(records) && message == old(message)
    {
      editingRecord := Some(record);
      formData := EditForm(record);
      showModal := true;
    }

    /** `handleAdd`: nothing is edited and the form starts empty with the first standard option. */
    method HandleAdd(options: seq<ChuanOption>)
      modifies this
      ensures editingRecord == None && formData == AddForm(options) && showModal
      ensures records == old(records) && message == old(message)
    {
      editingRecord := None;
      formData := AddForm(options);
      showModal := true;
    }

    /**
      `handleSave`: a blank name is refused before any write. Otherwise the
      write's outcome decides: on success the edited record is updated, or
      the new record (with the id the database gave it) appended, the cache
      is cleared and the form closed; on failure only the message changes.
    */
    method HandleSave(outcome: WriteOutcome, newId: string)
      modifies this, cache
      ensures IsBlank(old(formData.tenqtkt)) ==>
        records == old(records) && message == NameRequiredMessage && showModal == old(showModal) &&
        cache.slot == old(cache.slot)
      ensures !IsBlank(old(formData.tenqtkt)) && outcome.Written? && old(editingRecord).Some? ==>
        records == UpdateRecords(old(records), old(editingRecord).value.id, old(formData)) &&
        message == UpdatedMessage
      ensures !IsBlank(old(formData.tenqtkt)) && outcome.Written? && old(editingRecord).None? ==>
        records == AppendRecord(old(records), newId, old(formData)) && message == AddedMessage
      ensures !IsBlank(old(formData.tenqtkt)) && outcome.Written? ==> cache.slot == None && !showModal
      ensures !IsBlank(old(formData.tenqtkt)) && outcome.Failed? ==>
        records == old(records) && message == ErrorMessage(outcome.reason) &&
        showModal == old(showModal) && cache.slot == old(cache.slot)
      ensures editingRecord == old(editingRecord) && formData == old(formData)
    {
      TrimEnds(formData.tenqtkt);
      if Trim(formData.tenqtkt) == "" {
        message := NameRequiredMessage;
        return;
      }
      match outcome
      case Written =>
        if editingRecord.Some? {
          records := UpdateRecords(records, editingRecord.value.id, formData);
          message := UpdatedMessage;
        } else {
          records := AppendRecord(records, newId, formData);
          message := AddedMessage;
        }
        cache.Clear();
        showModal := false;
      case Failed(reason) =>
        message := ErrorMessage(reason);
    }
  }
}
