/** The engagement platform's departments: the public listing with its development fallback, the
    single read, creation, update and the soft delete that marks a department inactive. */
module Departments {
  import opened Common
  import Seqs
  import Sorting
  import Text
  import opened ErrorFlow

  datatype Department = Department(deptId: string, name: string, description: Option<string>, active: bool)

  /** The six departments served while developing without a database, all active and in this order. */
  const DefaultDepartments: seq<Department> := [
    Department("dept-1", "ICT", Some("Information and Communication Technology Department"), true),
    Department("dept-2", "HR", Some("Human Resources Department"), true),
    Department("dept-3", "Finance", Some("Finance Department"), true),
    Department("dept-4", "Marketing", Some("Marketing Department"), true),
    Department("dept-5", "Operations", Some("Operations Department"), true),
    Department("dept-6", "Sales", Some("Sales Department"), true)]

  /** `.sort('name')`. */
  function ByName(): (Department, Department) -> bool {
    (a: Department, b: Department) => Text.LexLe(a.name, b.name)
  }

  lemma ByNameIsPreorder()
    ensures Sorting.TotalPreorder(ByName())
  {
    forall a: Department, b: Department
      ensures ByName()(a, b) || ByName()(b, a)
    {
      Text.LexTotal(a.name, b.name);
    }
    forall a: Department, b: Department, c: Department | ByName()(a, b) && ByName()(b, c)
      ensures ByName()(a, c)
    {
      Text.LexTrans(a.name, b.name, c.name);
    }
  }

  function IsActive(d: Department): bool {
    d.active
  }

  datatype ListReply = Listed(count: nat, items: seq<Department>) | ListFailed(err: ErrorObj)

  /** `getDepartments`. In development with no database connection, the built-in list; with a
      connection, the active departments sorted by name; a query without a connection outside
      development fails (500). */
  function GetDepartments(depts: seq<Department>, nodeEnv: string, connected: bool): (r: ListReply)
    ensures nodeEnv == "development" && !connected ==> r == Listed(6, DefaultDepartments)
    ensures r.ListFailed? <==> nodeEnv != "development" && !connected
    ensures r.ListFailed? ==> StatusOf(Failure(r.err)) == 500
    ensures connected ==>
      && r.Listed? && r.count == |r.items|
      && (forall d :: d in r.items <==> d in depts && d.active)
      && multiset(r.items) == multiset(Seqs.Filter(depts, IsActive))
      && Sorting.SortedBy(r.items, ByName())
  {
    if nodeEnv == "development" && !connected then Listed(|DefaultDepartments|, DefaultDepartments)
    else if !connected then ListFailed(RuntimeError("Operation departments.find() buffering timed out"))
    else
      ByNameIsPreorder();
      var items := Sorting.SortBy(Seqs.Filter(depts, IsActive), ByName());
      Sorting.SameElements(items, Seqs.Filter(depts, IsActive));
      Listed(|items|, items)
  }

  /** `findById`: the first department with that id. */
  function FindDepartment(depts: seq<Department>, deptId: string): (r: Option<nat>)
    ensures r.Some? ==> r.value < |depts| && depts[r.value].deptId == deptId
    ensures r.Some? ==> forall j :: 0 <= j < r.value ==> depts[j].deptId != deptId
    ensures r.None? <==> forall j :: 0 <= j < |depts| ==> depts[j].deptId != deptId
  {
    Seqs.FirstIndex(depts, (d: Department) => d.deptId == deptId)
  }

  predicate UniqueDeptIds(depts: seq<Department>) {
    forall i, j :: 0 <= i < |depts| && 0 <= j < |depts| && i != j ==> depts[i].deptId != depts[j].deptId
  }

  /** The unique index on the name. */
  predicate UniqueNames(depts: seq<Department>) {
    forall i, j :: 0 <= i < |depts| && 0 <= j < |depts| && i != j ==> depts[i].name != depts[j].name
  }

  datatype DeptReply = Found(department: Department) | Missing(err: ErrorObj)

  /** `getDepartment`: the department with that id, active or not, or 404. */
  function GetDepartment(depts: seq<Department>, deptId: string): (r: DeptReply)
    ensures r.Missing? <==> forall j :: 0 <= j < |depts| ==> depts[j].deptId != deptId
    ensures r.Missing? ==> r.err.statusCode == Some(404)
    ensures r.Found? ==> r.department in depts && r.department.deptId == deptId
  {
    match FindDepartment(depts, deptId)
    case None => Missing(CreateError(404, "Department not found with id of " + deptId))
    case Some(i) => Found(depts[i])
  }

  /** What the schema accepts for the department at `i` (or a new one when `i` is `|depts|`): a name,
      not used by another department. */
  predicate NameAccepted(depts: seq<Department>, i: nat, name: string) {
    name != "" && forall j :: 0 <= j < |depts| && j != i ==> depts[j].name != name
  }

  /** `createDepartment`: a department with a name no other one has is stored, active unless the
      body says otherwise; otherwise the store error answers 500. */
  function CreateDepartment(depts: seq<Department>, deptId: string, name: string, description: Option<string>,
                            active: Option<bool>): (r: Outcome<seq<Department>>)
    ensures r.reply == Success(201) <==> NameAccepted(depts, |depts|, name)
    ensures r.reply.Failure? ==> StatusOf(r.reply) == 500 && r.store == depts
    ensures r.reply.Success? ==> r.store == depts + [Department(deptId, name, description, active.GetOr(true))]
    ensures UniqueNames(depts) ==> UniqueNames(r.store)
  {
    if !NameAccepted(depts, |depts|, name) then Outcome(Failure(RuntimeError("Department validation failed")), depts)
    else Outcome(Success(201), depts + [Department(deptId, name, description, active.GetOr(true))])
  }

  /** A created department is listed exactly when it was created active, which it is unless the body
      said otherwise. */
  lemma CreatedListed(depts: seq<Department>, deptId: string, name: string, description: Option<string>,
                      active: Option<bool>, nodeEnv: string)
    requires CreateDepartment(depts, deptId, name, description, active).reply.Success?
    ensures var d := Department(deptId, name, description, active.GetOr(true));
            d in GetDepartments(CreateDepartment(depts, deptId, name, description, active).store, nodeEnv, true).items
            <==> active.GetOr(true)
  {
    var after := CreateDepartment(depts, deptId, name, description, active).store;
    assert after[|depts|] == Department(deptId, name, description, active.GetOr(true));
  }

  datatype DeptPatch = DeptPatch(name: Option<string>, description: Option<string>, active: Option<bool>)

  function PatchDepartment(d: Department, patch: DeptPatch): (r: Department)
    ensures r.deptId == d.deptId
    ensures r.name == (if patch.name.Some? then patch.name.value else d.name)
    ensures r.description == (if patch.description.Some? then patch.description else d.description)
    ensures r.active == (if patch.active.Some? then patch.active.value else d.active)
  {
    Department(d.deptId, if patch.name.Some? then patch.name.value else d.name,
               if patch.description.Some? then patch.description else d.description,
               if patch.active.Some? then patch.active.value else d.active)
  }

  /** The empty patch changes nothing, and a patch applied twice changes no more than once. */
  lemma PatchDepartmentLaws(d: Department, patch: DeptPatch)
    ensures PatchDepartment(d, DeptPatch(None, None, None)) == d
    ensures PatchDepartment(PatchDepartment(d, patch), patch) == PatchDepartment(d, patch)
  {
  }

  /** `updateDepartment`: 404 for an unknown id; a rejected name is a store error (500); otherwise
      the department is replaced by its patched copy. */
  function UpdateDepartment(depts: seq<Department>, deptId: string, patch: DeptPatch): (r: Outcome<seq<Department>>)
    ensures FindDepartment(depts, deptId).None? ==>
      r.reply.Failure? && r.reply.err.statusCode == Some(404)
    ensures r.reply == Success(200) <==>
      && FindDepartment(depts, deptId).Some?
      && (patch.name.Some? ==> NameAccepted(depts, FindDepartment(depts, deptId).value, patch.name.value))
    ensures r.reply.Failure? ==> r.store == depts && StatusOf(r.reply) in {404, 500}
    ensures r.reply.Success? ==>
      var i := FindDepartment(depts, deptId).value;
      r.store == depts[i := PatchDepartment(depts[i], patch)]
    ensures UniqueNames(depts) ==> UniqueNames(r.store)
  {
    match FindDepartment(depts, deptId)
    case None => Outcome(Failure(CreateError(404, "Department not found with id of " + deptId)), depts)
    case Some(i) =>
      if patch.name.Some? && !NameAccepted(depts, i, patch.name.value) then
        Outcome(Failure(RuntimeError("Department validation failed")), depts)
      else Outcome(Success(200), depts[i := PatchDepartment(depts[i], patch)])
  }

  /** `deleteDepartment`: 404 for an unknown id; otherwise the department stays stored, marked
      inactive, and nothing else changes. */
  function DeleteDepartment(depts: seq<Department>, deptId: string): (r: Outcome<seq<Department>>)
    ensures r.reply.Failure? <==> FindDepartment(depts, deptId).None?
    ensures r.reply.Failure? ==> r.reply.err.statusCode == Some(404) && r.store == depts
    ensures r.reply.Success? ==>
      var i := FindDepartment(depts, deptId).value;
      && r.reply.status == 200 && |r.store| == |depts|
      && r.store[i] == depts[i].(active := false)
      && forall j :: 0 <= j < |depts| && j != i ==> r.store[j] == depts[j]
  {
    match FindDepartment(depts, deptId)
    case None => Outcome(Failure(CreateError(404, "Department not found with id of " + deptId)), depts)
    case Some(i) => Outcome(Success(200), depts[i := depts[i].(active := false)])
  }

  /** A deleted department can still be read by id but leaves the listing, which otherwise keeps
      every department it had. */
  lemma DeleteHides(depts: seq<Department>, deptId: string, nodeEnv: string)
    requires UniqueDeptIds(depts) && FindDepartment(depts, deptId).Some?
    ensures var after := DeleteDepartment(depts, deptId).store;
      && GetDepartment(after, deptId).Found?
      && !GetDepartment(after, deptId).department.active
      && (forall d :: d in GetDepartments(after, nodeEnv, true).items <==>
            d in GetDepartments(depts, nodeEnv, true).items && d.deptId != deptId)
  {
    var i := FindDepartment(depts, deptId).value;
    var after := DeleteDepartment(depts, deptId).store;
    assert after[i].deptId == deptId;
    forall d ensures d in after && d.active <==> d in depts && d.active && d.deptId != deptId {
      if d in after && d.active {
        var k :| 0 <= k < |after| && after[k] == d;
        assert k != i;
      }
      if d in depts && d.active && d.deptId != deptId {
        var k :| 0 <= k < |depts| && depts[k] == d;
        assert after[k] == d;
      }
    }
  }
}
