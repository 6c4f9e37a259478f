/** Sections of a company's catalogue and the endpoints that manage them. Renaming a section moves
    its products along; deleting a section deletes its products. */
module Sections {
  import opened Common
  import Seqs
  import opened PosRecords
  import opened Products

  /** A catalogue section. (`sectionId`, `companyId`) is unique. */
  datatype Section = Section(sectionId: string, companyId: string, sectionColor: string, createdAt: int)

  /** The section schema's required paths. */
  predicate ValidSection(s: Section) {
    Present(s.sectionId) && Present(s.companyId) && Present(s.sectionColor)
  }

  predicate SectionKey(s: Section, sectionId: string, companyId: string) {
    s.sectionId == sectionId && s.companyId == companyId
  }

  /** The unique index on (`section_id`, `company_id`). */
  predicate UniqueSectionKeys(ss: seq<Section>) {
    forall i, j :: 0 <= i < |ss| && 0 <= j < |ss| && i != j ==>
      ss[i].sectionId != ss[j].sectionId || ss[i].companyId != ss[j].companyId
  }

  predicate ValidSections(ss: seq<Section>) {
    UniqueSectionKeys(ss) && forall i :: 0 <= i < |ss| ==> ValidSection(ss[i])
  }

  /** `Section.findOne({ section_id, company_id })`. */
  function FindSection(ss: seq<Section>, sectionId: string, companyId: string): (r: Option<nat>)
    ensures r.Some? ==> r.value < |ss| && SectionKey(ss[r.value], sectionId, companyId)
    ensures r.Some? ==> forall j :: 0 <= j < r.value ==> !SectionKey(ss[j], sectionId, companyId)
    ensures r.None? <==> forall j :: 0 <= j < |ss| ==> !SectionKey(ss[j], sectionId, companyId)
  {
    Seqs.FirstIndex(ss, (s: Section) => SectionKey(s, sectionId, companyId))
  }

  // ---------------------------------------------------------------- add, get, list

  /** An add request's body; the company comes from the token, and an omitted creation date is now. */
  datatype SectionDraft = SectionDraft(sectionId: string, sectionColor: string, createdAt: Option<int>)

  /** `addSection`: 201 when the document passes the schema and its key is new, otherwise 400 and
      nothing stored. The stored section always belongs to the caller. */
  function AddSection(ss: seq<Section>, callerCompany: string, body: SectionDraft, now: int): (r: (int, seq<Section>))
    ensures r.0 == 201 || r.0 == 400
    ensures r.0 == 400 ==> r.1 == ss
    ensures r.0 == 201 <==>
      (&& Present(body.sectionId) && Present(callerCompany) && Present(body.sectionColor)
       && forall j :: 0 <= j < |ss| ==> !SectionKey(ss[j], body.sectionId, callerCompany))
    ensures r.0 == 201 ==> |r.1| == |ss| + 1 && r.1[..|ss|] == ss && r.1[|ss|].companyId == callerCompany
    ensures ValidSections(ss) ==> ValidSections(r.1)
  {
    var s := Section(body.sectionId, callerCompany, body.sectionColor, body.createdAt.GetOr(now));
    if ValidSection(s) && FindSection(ss, s.sectionId, s.companyId).None? then (201, ss + [s])
    else (400, ss)
  }

  /** `getSection`: the caller's section with this id, or 404. */
  function GetSection(ss: seq<Section>, companyId: string, sectionId: string): (r: (int, Option<Section>))
    ensures r.0 == 200 || r.0 == 404
    ensures r.0 == 404 <==> (forall j :: 0 <= j < |ss| ==> !SectionKey(ss[j], sectionId, companyId))
    ensures r.0 == 200 ==> r.1.Some? && r.1.value in ss && SectionKey(r.1.value, sectionId, companyId)
  {
    match FindSection(ss, sectionId, companyId)
    case None => (404, None)
    case Some(i) => (200, Some(ss[i]))
  }

  /** An added section is read back by its id, exactly as it was stored. */
  lemma AddThenGetSection(ss: seq<Section>, callerCompany: string, body: SectionDraft, now: int)
    requires AddSection(ss, callerCompany, body, now).0 == 201
    ensures GetSection(AddSection(ss, callerCompany, body, now).1, callerCompany, body.sectionId) ==
      (200, Some(Section(body.sectionId, callerCompany, body.sectionColor, body.createdAt.GetOr(now))))
  {
    var after := AddSection(ss, callerCompany, body, now).1;
    assert after[|ss|] == Section(body.sectionId, callerCompany, body.sectionColor, body.createdAt.GetOr(now));
    assert forall j :: 0 <= j < |ss| ==> after[j] == ss[j];
  }

  /** `getSectionsByCompanyId` with `skip` and `limit` already numeric (defaults 0 and 20 are applied
      by the caller of this function): the caller's sections, a negative skip refused with 500. */
  function GetSectionsByCompanyId(ss: seq<Section>, companyId: string, skip: int, limit: int): (r: (int, seq<Section>))
    ensures skip < 0 <==> r == (500, [])
    ensures r.0 == 200 ==> forall i :: 0 <= i < |r.1| ==> r.1[i] in ss && r.1[i].companyId == companyId
    ensures r.0 == 200 ==>
      r.1 == Seqs.Page(Seqs.Filter(ss, (s: Section) => s.companyId == companyId), skip, Abs(limit))
  {
    if skip < 0 then (500, [])
    else
      var own := Seqs.Filter(ss, (s: Section) => s.companyId == companyId);
      var shown := Seqs.Page(own, skip, Abs(limit));
      assert forall i :: 0 <= i < |shown| ==> shown[i] in own;
      (200, shown)
  }

  /** Listing page after page misses nothing and repeats nothing: a page followed by the next one
      is the page of twice the size. */
  lemma ConsecutiveSectionPages(ss: seq<Section>, companyId: string, skip: nat, limit: nat)
    requires limit > 0
    ensures GetSectionsByCompanyId(ss, companyId, skip, limit).1 + GetSectionsByCompanyId(ss, companyId, skip + limit, limit).1 ==
      GetSectionsByCompanyId(ss, companyId, skip, 2 * limit).1
  {
    Seqs.PageSplit(Seqs.Filter(ss, (s: Section) => s.companyId == companyId), skip, limit, limit);
  }

  // ---------------------------------------------------------------- rename and recolour

  /** The company's products of section `from`, moved to section `to`; no other product and no other
      field changes. */
  function MoveProducts(ps: seq<Product>, companyId: string, from: string, to: string): (r: seq<Product>)
    ensures |r| == |ps|
    ensures forall i :: 0 <= i < |r| ==> r[i].(sectionId := ps[i].sectionId) == ps[i]
    ensures forall i :: 0 <= i < |r| && InSection(ps[i], companyId, from) ==> r[i].sectionId == to
    ensures forall i :: 0 <= i < |r| && !InSection(ps[i], companyId, from) ==> r[i] == ps[i]
    ensures from != to ==> forall i :: 0 <= i < |r| ==> !InSection(r[i], companyId, from)
  {
    seq(|ps|, i requires 0 <= i < |ps| =>
      if InSection(ps[i], companyId, from) then ps[i].(sectionId := to) else ps[i])
  }

  /** Moving products never touches their keys, so the catalogue stays valid for a non-empty
      target section. */
  lemma MoveKeepsValidity(ps: seq<Product>, companyId: string, from: string, to: string)
    ensures ValidProducts(ps) && Present(to) ==> ValidProducts(MoveProducts(ps, companyId, from, to))
  {
    var r := MoveProducts(ps, companyId, from, to);
    assert forall i :: 0 <= i < |r| ==> r[i].productId == ps[i].productId && r[i].companyId == ps[i].companyId;
  }

  /** The outcome of `updateSection`: the status and both collections afterwards. */
  datatype SectionUpdate = SectionUpdate(status: int, sections: seq<Section>, products: seq<Product>)

  /** `updateSection` (and the `updateSectionId` it delegates to). A non-empty new id different from
      the current one takes the rename path: the section gets the new id (and the colour, when one
      is given) and every product of the old section in the caller's company moves with it; a
      missing section is 404, and a new id that is already taken breaks the unique index (500),
      both with nothing changed. Otherwise only the colour is set (when given). */
  function UpdateSection(ss: seq<Section>, ps: seq<Product>, companyId: string, sectionId: string,
                         newSectionId: Option<string>, color: Option<string>): (r: SectionUpdate)
    ensures r.status in {200, 404, 500}
    ensures r.status != 200 ==> r.sections == ss && r.products == ps
    ensures r.status == 404 <==> forall j :: 0 <= j < |ss| ==> !SectionKey(ss[j], sectionId, companyId)
    ensures r.status == 200 ==>
      var i := FindSection(ss, sectionId, companyId).value;
      && |r.sections| == |ss|
      && (forall j :: 0 <= j < |ss| && j != i ==> r.sections[j] == ss[j])
      && r.sections[i].companyId == companyId
      && r.sections[i].sectionColor == color.GetOr(ss[i].sectionColor)
    ensures r.status == 200 && Renames(sectionId, newSectionId) ==>
      r.sections[FindSection(ss, sectionId, companyId).value].sectionId == newSectionId.value &&
      r.products == MoveProducts(ps, companyId, sectionId, newSectionId.value)
    ensures r.status == 200 && !Renames(sectionId, newSectionId) ==>
      r.sections[FindSection(ss, sectionId, companyId).value].sectionId == sectionId && r.products == ps
    ensures r.status == 500 <==>
      && FindSection(ss, sectionId, companyId).Some? && Renames(sectionId, newSectionId)
      && exists j :: 0 <= j < |ss| && SectionKey(ss[j], newSectionId.value, companyId)
    ensures ValidSections(ss) && ValidProducts(ps) && (color.Some? ==> Present(color.value)) ==>
      ValidSections(r.sections) && ValidProducts(r.products)
  {
    match FindSection(ss, sectionId, companyId)
    case None => SectionUpdate(404, ss, ps)
    case Some(i) =>
      var recoloured := ss[i].(sectionColor := color.GetOr(ss[i].sectionColor));
      if Renames(sectionId, newSectionId) then
        var to := newSectionId.value;
        if FindSection(ss, to, companyId).Some? then SectionUpdate(500, ss, ps)
        else
          MoveKeepsValidity(ps, companyId, sectionId, to);
          SectionUpdate(200, ss[i := recoloured.(sectionId := to)], MoveProducts(ps, companyId, sectionId, to))
      else SectionUpdate(200, ss[i := recoloured], ps)
  }

  /** The rename path is taken for a non-empty new id different from the current one. */
  predicate Renames(sectionId: string, newSectionId: Option<string>) {
    newSectionId.Some? && newSectionId.value != "" && newSectionId.value != sectionId
  }

  /** Another company's products, in order, are exactly what they were after a rename. */
  lemma {:induction false} MoveSparesOthers(ps: seq<Product>, companyId: string, from: string, to: string, other: string)
    requires other != companyId
    ensures Seqs.Filter(MoveProducts(ps, companyId, from, to), OfCompany(other)) == Seqs.Filter(ps, OfCompany(other))
  {
    if |ps| > 0 {
      MoveSparesOthers(ps[1..], companyId, from, to, other);
      assert MoveProducts(ps, companyId, from, to)[1..] == MoveProducts(ps[1..], companyId, from, to);
    }
  }

  /** After a rename the new section holds its former products plus all of the old section's. */
  lemma {:induction false} MoveCounts(ps: seq<Product>, companyId: string, from: string, to: string)
    requires from != to
    ensures |Seqs.Filter(MoveProducts(ps, companyId, from, to), SectionFilter(companyId, to))| ==
      |Seqs.Filter(ps, SectionFilter(companyId, from))| + |Seqs.Filter(ps, SectionFilter(companyId, to))|
  {
    if |ps| > 0 {
      var moved := MoveProducts(ps, companyId, from, to);
      assert moved[1..] == MoveProducts(ps[1..], companyId, from, to);
      MoveCounts(ps[1..], companyId, from, to);
      if InSection(ps[0], companyId, from) {
        assert InSection(moved[0], companyId, to) && !InSection(ps[0], companyId, to);
      } else {
        assert moved[0] == ps[0];
      }
    }
  }

  /** After a rename nothing of the caller's company is left in the old section. */
  lemma MoveEmptiesSource(ps: seq<Product>, companyId: string, from: string, to: string)
    requires from != to
    ensures Seqs.Filter(MoveProducts(ps, companyId, from, to), SectionFilter(companyId, from)) == []
  {
  }

  // ---------------------------------------------------------------- delete

  /** The products `deleteSection` keeps: all but the deleted section's in the caller's company. */
  function OutsideSection(companyId: string, sectionId: string): Product -> bool {
    (p: Product) => !InSection(p, companyId, sectionId)
  }

  /** `deleteSection`: a missing section is 404 with nothing changed; otherwise the section and every
      product of it in the caller's company are deleted. */
  function DeleteSection(ss: seq<Section>, ps: seq<Product>, companyId: string, sectionId: string): (r: SectionUpdate)
    ensures r.status == 200 || r.status == 404
    ensures r.status == 404 <==> forall j :: 0 <= j < |ss| ==> !SectionKey(ss[j], sectionId, companyId)
    ensures r.status == 404 ==> r.sections == ss && r.products == ps
    ensures r.status == 200 ==> |r.sections| == |ss| - 1
    ensures r.status == 200 ==> forall j :: 0 <= j < |ss| && !SectionKey(ss[j], sectionId, companyId) ==> ss[j] in r.sections
    ensures r.status == 200 ==> forall p :: p in r.products <==> p in ps && !InSection(p, companyId, sectionId)
    ensures ValidSections(ss) ==> ValidSections(r.sections)
  {
    match FindSection(ss, sectionId, companyId)
    case None => SectionUpdate(404, ss, ps)
    case Some(i) =>
      var rest := Seqs.RemoveAt(ss, i);
      SectionUpdate(200, rest, Seqs.Filter(ps, OutsideSection(companyId, sectionId)))
  }

  /** Deleting a section leaves another company's products, in order, as they were. */
  lemma {:induction false} DeleteSectionSparesOthers(ps: seq<Product>, companyId: string, sectionId: string, other: string)
    requires other != companyId
    ensures Seqs.Filter(Seqs.Filter(ps, OutsideSection(companyId, sectionId)), OfCompany(other)) ==
      Seqs.Filter(ps, OfCompany(other))
  {
    if |ps| > 0 {
      DeleteSectionSparesOthers(ps[1..], companyId, sectionId, other);
    }
  }
}
