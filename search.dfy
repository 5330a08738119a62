/**
  The search hook: three query cells and the filtered list derived from them.
  The list is the data narrowed by a standard (chuẩn) filter, a specialty
  (chuyên khoa) filter and a procedure-name search, in that order.
*/
module Search {
  import opened Text
  import opened Sequences
  import opened FuzzySearch

  /** One procedure (QTKT) record, with every field present as a string. */
  datatype QtktRecord = QtktRecord(
    id: string,
    chuanqtkt: string,
    qdbanhanh: string,
    chuyenkhoa: string,
    tenqtkt: string)

  /** The standard filter's value that switches the standard stage off. */
  const AllLabel := "Tất cả"
  /** The one display label that selects the old standard. */
  const OldLabel := "Chuẩn cũ"
  /** The stored standards the display labels stand for. */
  const OldStandard := "QTKT theo chuẩn cũ"
  const NewStandard := "QTKT theo chuẩn mới"

  /** The three query cells. */
  datatype Query = Query(searchQuery: string, chuanFilter: string, chuyenkhoaFilter: string)

  /** The stored standard a display label selects: the old one for its label, the new one for anything else. */
  function StandardValue(shown: string): (v: string)
    ensures v == OldStandard <==> shown == OldLabel
    ensures v == OldStandard || v == NewStandard
  {
    if shown == OldLabel then OldStandard else NewStandard
  }

  /** A text filter is on when it has something other than white space. */
  predicate Active(filter: string) {
    Trim(filter) != ""
  }

  lemma ActiveIffNotBlank(filter: string)
    ensures Active(filter) <==> !IsBlank(filter)
  {
    TrimEnds(filter);
  }

  predicate StandardStage(q: Query, x: QtktRecord) {
    q.chuanFilter == AllLabel || x.chuanqtkt == StandardValue(q.chuanFilter)
  }

  predicate SpecialtyStage(q: Query, x: QtktRecord) {
    !Active(q.chuyenkhoaFilter) || Matches(x.chuyenkhoa, q.chuyenkhoaFilter)
  }

  predicate NameStage(q: Query, x: QtktRecord) {
    !Active(q.searchQuery) || Matches(x.tenqtkt, q.searchQuery)
  }

  /** A record passes the query when it passes every stage that is on. */
  predicate Passes(q: Query, x: QtktRecord) {
    StandardStage(q, x) && SpecialtyStage(q, x) && NameStage(q, x)
  }

  /** The standard stage: skipped for "Tất cả", otherwise keeps records of the selected standard. */
  function ByStandard(s: seq<QtktRecord>, q: Query): (r: seq<QtktRecord>)
    ensures |r| <= |s|
    ensures forall x :: x in r <==> x in s && StandardStage(q, x)
  {
    if q.chuanFilter != AllLabel then
      var value := StandardValue(q.chuanFilter);
      FilterFacts(s, (x: QtktRecord) => x.chuanqtkt == value);
      Filter(s, (x: QtktRecord) => x.chuanqtkt == value)
    else s
  }

  /** The specialty stage: skipped for a blank filter, otherwise a match on the specialty. */
  function BySpecialty(s: seq<QtktRecord>, q: Query): (r: seq<QtktRecord>)
    ensures |r| <= |s|
    ensures forall x :: x in r <==> x in s && SpecialtyStage(q, x)
  {
    if Active(q.chuyenkhoaFilter) then
      FilterFacts(s, (x: QtktRecord) => Matches(x.chuyenkhoa, q.chuyenkhoaFilter));
      Filter(s, (x: QtktRecord) => Matches(x.chuyenkhoa, q.chuyenkhoaFilter))
    else s
  }

  /** The name stage: skipped for a blank search, otherwise a match on the procedure name. */
  function ByName(s: seq<QtktRecord>, q: Query): (r: seq<QtktRecord>)
    ensures |r| <= |s|
    ensures forall x :: x in r <==> x in s && NameStage(q, x)
  {
    if Active(q.searchQuery) then
      FilterFacts(s, (x: QtktRecord) => Matches(x.tenqtkt, q.searchQuery));
      Filter(s, (x: QtktRecord) => Matches(x.tenqtkt, q.searchQuery))
    else s
  }

  /**
    `filteredData`: the standard stage, then the specialty stage, then the
    name stage. The text filters reach the matcher untrimmed.
  */
  function FilteredData(data: seq<QtktRecord>, q: Query): (r: seq<QtktRecord>)
    ensures |r| <= |data|
    ensures forall x :: x in r <==> x in data && Passes(q, x)
  {
    ByName(BySpecialty(ByStandard(data, q), q), q)
  }

  /** A stage that is off keeps everything, so each stage is a filter by its own predicate. */
  lemma StageIsFilter(s: seq<QtktRecord>, stage: QtktRecord -> bool, on: bool, keep: QtktRecord -> bool)
    requires forall x :: stage(x) == (!on || keep(x))
    ensures (if on then Filter(s, keep) else s) == Filter(s, stage)
  {
    if on {
      FilterSame(s, keep, stage);
    } else {
      FilterAll(s, stage);
    }
  }

  lemma ByStandardIsFilter(s: seq<QtktRecord>, q: Query)
    ensures ByStandard(s, q) == Filter(s, x => StandardStage(q, x))
  {
    var value := StandardValue(q.chuanFilter);
    StageIsFilter(s, x => StandardStage(q, x), q.chuanFilter != AllLabel, (x: QtktRecord) => x.chuanqtkt == value);
  }

  lemma BySpecialtyIsFilter(s: seq<QtktRecord>, q: Query)
    ensures BySpecialty(s, q) == Filter(s, x => SpecialtyStage(q, x))
  {
    StageIsFilter(s, x => SpecialtyStage(q, x), Active(q.chuyenkhoaFilter),
      (x: QtktRecord) => Matches(x.chuyenkhoa, q.chuyenkhoaFilter));
  }

  lemma ByNameIsFilter(s: seq<QtktRecord>, q: Query)
    ensures ByName(s, q) == Filter(s, x => NameStage(q, x))
  {
    StageIsFilter(s, x => NameStage(q, x), Active(q.searchQuery), (x: QtktRecord) => Matches(x.tenqtkt, q.searchQuery));
  }

  /**
    The staged pipeline is one stable filter by the conjunction of the stages:
    the output keeps the input order and does not depend on the stage order.
  */
  lemma FilteredDataIsConjunction(data: seq<QtktRecord>, q: Query)
    ensures FilteredData(data, q) == Filter(data, x => Passes(q, x))
    ensures Subseq(FilteredData(data, q), data)
  {
    var r1 := ByStandard(data, q);
    var r2 := BySpecialty(r1, q);
    ByStandardIsFilter(data, q);
    BySpecialtyIsFilter(r1, q);
    ByNameIsFilter(r2, q);
    var s12 := x => StandardStage(q, x) && SpecialtyStage(q, x);
    FilterFilter(data, x => StandardStage(q, x), x => SpecialtyStage(q, x), s12);
    FilterFilter(data, s12, x => NameStage(q, x), x => Passes(q, x));
    FilterFacts(data, x => Passes(q, x));
  }

  /** With the standard filter at "Tất cả" and both text filters blank, the output is the data. */
  lemma AllStagesOff(data: seq<QtktRecord>, q: Query)
    requires q.chuanFilter == AllLabel && IsBlank(q.chuyenkhoaFilter) && IsBlank(q.searchQuery)
    ensures FilteredData(data, q) == data
  {
    ActiveIffNotBlank(q.chuyenkhoaFilter);
    ActiveIffNotBlank(q.searchQuery);
  }

  /** A whitespace-only specialty filter or search acts as an empty one. */
  lemma BlankFilterIsOff(data: seq<QtktRecord>, q: Query)
    ensures IsBlank(q.chuyenkhoaFilter) ==> FilteredData(data, q) == FilteredData(data, q.(chuyenkhoaFilter := ""))
    ensures IsBlank(q.searchQuery) ==> FilteredData(data, q) == FilteredData(data, q.(searchQuery := ""))
  {
    ActiveIffNotBlank(q.chuyenkhoaFilter);
    ActiveIffNotBlank(q.searchQuery);
    ActiveIffNotBlank("");
  }

  /**
    The standard stage in the system's terms: "Tất cả" keeps every standard,
    "Chuẩn cũ" keeps only the old standard, and any other label keeps only the
    new one.
  */
  lemma StandardLabels(data: seq<QtktRecord>, q: Query, x: QtktRecord)
    requires x in data && SpecialtyStage(q, x) && NameStage(q, x)
    ensures q.chuanFilter == AllLabel ==> x in FilteredData(data, q)
    ensures q.chuanFilter == OldLabel ==> (x in FilteredData(data, q) <==> x.chuanqtkt == OldStandard)
    ensures q.chuanFilter != AllLabel && q.chuanFilter != OldLabel ==>
      (x in FilteredData(data, q) <==> x.chuanqtkt == NewStandard)
  {
  }

  /** The hook's query cells, set independently by their setters. */
  class SearchHook {
    var searchQuery: string
    var chuanFilter: string
    var chuyenkhoaFilter: string

    function CurrentQuery(): Query
      reads this
    {
      Query(searchQuery, chuanFilter, chuyenkhoaFilter)
    }

    /** A fresh hook: empty search, standard "Tất cả", empty specialty; it shows all the data. */
    constructor()
      ensures searchQuery == "" && chuanFilter == AllLabel && chuyenkhoaFilter == ""
      ensures forall data :: FilteredData(data, CurrentQuery()) == data
    {
      searchQuery := "";
      chuanFilter := AllLabel;
      chuyenkhoaFilter := "";
      new;
      forall data: seq<QtktRecord> ensures FilteredData(data, CurrentQuery()) == data {
        AllStagesOff(data, CurrentQuery());
      }
    }

    method SetSearchQuery(s: string)
      modifies this
      ensures searchQuery == s
      ensures chuanFilter == old(chuanFilter) && chuyenkhoaFilter == old(chuyenkhoaFilter)
    {
      searchQuery := s;
    }

    method SetChuanFilter(s: string)
      modifies this
      ensures chuanFilter == s
      ensures searchQuery == old(searchQuery) && chuyenkhoaFilter == old(chuyenkhoaFilter)
    {
      chuanFilter := s;
    }

    method SetChuyenkhoaFilter(s: string)
      modifies this
      ensures chuyenkhoaFilter == s
      ensures searchQuery == old(searchQuery) && chuanFilter == old(chuanFilter)
    {
      chuyenkhoaFilter := s;
    }
  }
}
