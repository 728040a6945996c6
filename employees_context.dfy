/** The session-wide employee store: one list of employee records, each with
    an ordered list of per-date schedule slots, and the operations the pages
    call on it. Records and slots are plain JavaScript objects whose keys the
    operations overlay with object spread; they are modelled as maps from key
    to string, where a missing key reads as `undefined`. */
module EmployeesContext {
  import opened Js

  /** One date of an employee's schedule: `date`, and when a shift is
      assigned `time`, `shift`, `position`, `status` (and whatever else the
      shift object carried, such as a template's `id`). */
  type Slot = map<string, string>

  /** The string-valued keys of an employee record (`id`, `firstName`,
      `lastName`, `position`, `status`, `lastDate`, ...); the `dates` list is
      kept apart. */
  type Fields = m: map<string, string> | "dates" !in m witness map[]

  datatype Employee = Employee(fields: Fields, dates: seq<Slot>)

  /** An object spread over a record: its string keys, and a `dates` list
      if it carries one. */
  datatype Patch = Patch(fields: Fields, dates: Option<seq<Slot>>)

  /** `m[key]`, `undefined` when the key is missing. */
  function Get(m: map<string, string>, key: string): JsString
  {
    if key in m then Some(m[key]) else None
  }

  function IdOf(e: Employee): JsString
  {
    Get(e.fields, "id")
  }

  // ---------------------------------------------------------------------
  // Lookups (`findIndex` with strict equality).
  // ---------------------------------------------------------------------

  /** `employees.findIndex(e => e.id === id)`. */
  function FindIndex(es: seq<Employee>, id: JsString): (k: int)
    ensures -1 <= k < |es|
    ensures k == -1 ==> forall j :: 0 <= j < |es| ==> IdOf(es[j]) != id
    ensures 0 <= k ==> IdOf(es[k]) == id && forall j :: 0 <= j < k ==> IdOf(es[j]) != id
    decreases |es|
  {
    if |es| == 0 then -1
    else if IdOf(es[0]) == id then 0
    else
      var k := FindIndex(es[1..], id);
      if k == -1 then -1 else k + 1
  }

  /** `dates.findIndex(slot => slot.date === date)`. */
  function FindSlot(ds: seq<Slot>, date: JsString): (j: int)
    ensures -1 <= j < |ds|
    ensures j == -1 ==> forall m :: 0 <= m < |ds| ==> Get(ds[m], "date") != date
    ensures 0 <= j ==> Get(ds[j], "date") == date && forall m :: 0 <= m < j ==> Get(ds[m], "date") != date
    decreases |ds|
  {
    if |ds| == 0 then -1
    else if Get(ds[0], "date") == date then 0
    else
      var j := FindSlot(ds[1..], date);
      if j == -1 then -1 else j + 1
  }

  /** Two lists whose records carry the same ids in the same places. */
  predicate SameIds(a: seq<Employee>, b: seq<Employee>)
  {
    |a| == |b| && forall k :: 0 <= k < |a| ==> IdOf(a[k]) == IdOf(b[k])
  }

  /** A lookup by id sees only the ids. */
  lemma FindIndexSameIds(a: seq<Employee>, b: seq<Employee>, id: JsString)
    requires SameIds(a, b)
    ensures FindIndex(a, id) == FindIndex(b, id)
  {
  }

  // ---------------------------------------------------------------------
  // addEmployee and updateEmployee.
  // ---------------------------------------------------------------------

  /** The keys `addEmployee` forces, whatever the input holds. */
  const DefaultedKeys: set<string> := {"status", "startDate", "endDate", "rating"}

  /** The record `addEmployee` appends: the input's keys, then `status`,
      `startDate`, `endDate` (not `lastDate`), `rating` and an empty `dates`
      list on top. */
  function NewEmployee(input: Patch, now: string): (e: Employee)
    ensures e.dates == []
    ensures Get(e.fields, "status") == Some("Active")
    ensures Get(e.fields, "startDate") == Some(now)
    ensures Get(e.fields, "endDate") == Some("")
    ensures Get(e.fields, "rating") == Some("19.5")
    ensures forall k :: k !in DefaultedKeys ==> Get(e.fields, k) == Get(input.fields, k)
  {
    Employee(input.fields + map["status" := "Active", "startDate" := now, "endDate" := "", "rating" := "19.5"], [])
  }

  /** `{...e, ...p}`: the patch's keys win, every other key is kept. */
  function Merge(e: Employee, p: Patch): (m: Employee)
    ensures forall k :: k in p.fields ==> Get(m.fields, k) == Some(p.fields[k])
    ensures forall k :: k !in p.fields ==> Get(m.fields, k) == Get(e.fields, k)
    ensures p.dates.None? ==> m.dates == e.dates
    ensures p.dates.Some? ==> m.dates == p.dates.value
  {
    Employee(e.fields + p.fields, match p.dates case Some(ds) => ds case None => e.dates)
  }

  /** The list after `updateEmployee(id, p)`. An unknown id makes the source
      assign the array property "-1", which is not an element, so the
      records are unchanged. */
  function Updated(es: seq<Employee>, id: JsString, p: Patch): (r: seq<Employee>)
    ensures |r| == |es|
    ensures FindIndex(es, id) == -1 ==> r == es
    ensures forall k :: 0 <= k < |es| && k != FindIndex(es, id) ==> r[k] == es[k]
    ensures FindIndex(es, id) >= 0 ==> r[FindIndex(es, id)] == Merge(es[FindIndex(es, id)], p)
  {
    var i := FindIndex(es, id);
    if i == -1 then es else es[i := Merge(es[i], p)]
  }

  // ---------------------------------------------------------------------
  // addShift and deleteShift.
  // ---------------------------------------------------------------------

  /** `{date, status: 'added', ...shift}`: the shift's keys are written last
      and win. A `date` of `undefined` is modelled as a missing key, which
      every lookup reads the same way. */
  function NewSlot(date: JsString, shift: Slot): (s: Slot)
    ensures forall k :: k in shift ==> Get(s, k) == Some(shift[k])
    ensures "status" !in shift ==> Get(s, "status") == Some("added")
    ensures "date" !in shift ==> Get(s, "date") == date
    ensures forall k :: k !in shift && k != "status" && k != "date" ==> k !in s
  {
    (match date case Some(d) => map["date" := d] case None => map[]) + map["status" := "added"] + shift
  }

  /** `{...slot, ...shift, status: 'edited'}`: keys absent from the shift are
      kept, the shift's keys overwrite, and the status is forced. */
  function EditedSlot(slot: Slot, shift: Slot): (s: Slot)
    ensures Get(s, "status") == Some("edited")
    ensures forall k :: k != "status" && k in shift ==> Get(s, k) == Some(shift[k])
    ensures forall k :: k != "status" && k !in shift ==> Get(s, k) == Get(slot, k)
  {
    slot + shift + map["status" := "edited"]
  }

  /** The list after `addShift(id, date, shift)`: a new slot is appended to
      the employee's dates when no slot has that date, otherwise the first
      slot with that date is edited; nothing else changes. */
  function ShiftAdded(es: seq<Employee>, id: JsString, date: JsString, shift: Slot): (r: seq<Employee>)
    requires FindIndex(es, id) >= 0
    ensures |r| == |es| && SameIds(r, es)
    ensures forall k :: 0 <= k < |es| && k != FindIndex(es, id) ==> r[k] == es[k]
    ensures var i := FindIndex(es, id); r[i].fields == es[i].fields
    ensures var i := FindIndex(es, id); var d := es[i].dates;
      FindSlot(d, date) == -1 ==>
        |r[i].dates| == |d| + 1 && r[i].dates[..|d|] == d && r[i].dates[|d|] == NewSlot(date, shift)
    ensures var i := FindIndex(es, id); var d := es[i].dates; var j := FindSlot(d, date);
      j >= 0 ==>
        |r[i].dates| == |d| && r[i].dates[j] == EditedSlot(d[j], shift)
        && forall m :: 0 <= m < |d| && m != j ==> r[i].dates[m] == d[m]
  {
    var i := FindIndex(es, id);
    var d := es[i].dates;
    var j := FindSlot(d, date);
    es[i := Employee(es[i].fields, if j == -1 then d + [NewSlot(date, shift)] else d[j := EditedSlot(d[j], shift)])]
  }

  lemma NotNumeral(key: string)
    requires |key| > 0 && !('0' <= key[0] <= '9')
    ensures !IsNumeral(key)
  {
    assert key[0] in key;
  }

  /** `{...slot.date}`: spreading the slot's date string gives an object keyed
      by character index, without any of the named slot keys. */
  function ClearedSlot(slot: Slot): (s: Slot)
    ensures forall k :: k in s ==> IsNumeral(k)
    ensures "date" !in s && "time" !in s && "position" !in s && "shift" !in s && "status" !in s
  {
    NotNumeral("date"); NotNumeral("time"); NotNumeral("position"); NotNumeral("shift"); NotNumeral("status");
    match Get(slot, "date")
    case Some(d) => SpreadString(d)
    case None => map[]
  }

  /** The list after `deleteShift(id, date)`: the first slot with that date
      is replaced by the spread of its date string; nothing else changes. */
  function ShiftDeleted(es: seq<Employee>, id: JsString, date: JsString): (r: seq<Employee>)
    requires FindIndex(es, id) >= 0
    requires FindSlot(es[FindIndex(es, id)].dates, date) >= 0
    ensures |r| == |es| && SameIds(r, es)
    ensures forall k :: 0 <= k < |es| && k != FindIndex(es, id) ==> r[k] == es[k]
    ensures var i := FindIndex(es, id); var d := es[i].dates; var j := FindSlot(d, date);
      r[i].fields == es[i].fields && |r[i].dates| == |d|
      && (forall m :: 0 <= m < |d| && m != j ==> r[i].dates[m] == d[m])
      && r[i].dates[j] == ClearedSlot(d[j])
      && (date.Some? ==> r[i].dates[j] == SpreadString(date.value))
  {
    var i := FindIndex(es, id);
    var d := es[i].dates;
    var j := FindSlot(d, date);
    es[i := Employee(es[i].fields, d[j := ClearedSlot(d[j])])]
  }

  // ---------------------------------------------------------------------
  // publishShifts.
  // ---------------------------------------------------------------------

  function PublishedSlot(slot: Slot): Slot
  {
    slot["status" := "published"]
  }

  /** The list after `publishShifts()`: every slot of every employee, emptied
      ones included, gets status 'published'; all else is kept. */
  function Published(es: seq<Employee>): (r: seq<Employee>)
    ensures |r| == |es| && SameIds(r, es)
    ensures forall k :: 0 <= k < |es| ==> r[k].fields == es[k].fields && |r[k].dates| == |es[k].dates|
    ensures forall k, j :: 0 <= k < |es| && 0 <= j < |es[k].dates| ==>
      Get(r[k].dates[j], "status") == Some("published")
      && r[k].dates[j] - {"status"} == es[k].dates[j] - {"status"}
  {
    seq(|es|, k requires 0 <= k < |es| =>
      Employee(es[k].fields, seq(|es[k].dates|, j requires 0 <= j < |es[k].dates| => PublishedSlot(es[k].dates[j]))))
  }

  /** Publishing twice is publishing once. */
  lemma PublishIdempotent(es: seq<Employee>)
    ensures Published(Published(es)) == Published(es)
  {
    var once := Published(es);
    var twice := Published(once);
    forall k | 0 <= k < |es| ensures twice[k] == once[k] {
      forall j | 0 <= j < |once[k].dates| ensures twice[k].dates[j] == once[k].dates[j] {
        assert twice[k].dates[j] == PublishedSlot(once[k].dates[j]);
      }
    }
  }

  // ---------------------------------------------------------------------
  // getEmployees.
  // ---------------------------------------------------------------------

  /** `${firstName} ${lastName}`, with `undefined` for a missing name. */
  function FullName(e: Employee): string
  {
    Render(Get(e.fields, "firstName")) + " " + Render(Get(e.fields, "lastName"))
  }

  predicate NameMatches(e: Employee, title: string)
  {
    Includes(Lower(FullName(e)), Lower(title))
  }

  /** `getEmployees(title)`: the records whose lower-cased full name
      contains the lower-cased query, each as often as in the store. */
  function GetEmployees(es: seq<Employee>, title: string): (r: seq<Employee>)
    ensures |r| <= |es|
    ensures forall e :: e in r <==> e in es && NameMatches(e, title)
    decreases |es|
  {
    if |es| == 0 then []
    else
      (if NameMatches(es[0], title) then [es[0]] else []) + GetEmployees(es[1..], title)
  }

  /** The filter keeps the store's order: filtering a concatenation is
      concatenating the filtered parts. */
  lemma {:induction false} GetEmployeesAppend(a: seq<Employee>, b: seq<Employee>, title: string)
    ensures GetEmployees(a + b, title) == GetEmployees(a, title) + GetEmployees(b, title)
    decreases |a|
  {
    if |a| > 0 {
      var ab := a + b;
      assert ab[0] == a[0];
      assert ab[1..] == a[1..] + b;
      GetEmployeesAppend(a[1..], b, title);
      var head := if NameMatches(a[0], title) then [a[0]] else [];
      assert GetEmployees(ab, title) == head + GetEmployees(ab[1..], title);
      assert GetEmployees(a, title) == head + GetEmployees(a[1..], title);
    } else {
      assert a + b == b;
    }
  }

  /** The empty query returns the whole store, in order. */
  lemma {:induction false} GetEmployeesEmptyQuery(es: seq<Employee>)
    ensures GetEmployees(es, "") == es
    decreases |es|
  {
    if |es| > 0 {
      IncludesEmpty(Lower(FullName(es[0])));
      assert Lower("") == "";
      GetEmployeesEmptyQuery(es[1..]);
    }
  }

  /** A matching record occurs in the result as often as in the store; a
      record that does not match occurs not at all. */
  lemma {:induction false} GetEmployeesCount(es: seq<Employee>, title: string, e: Employee)
    ensures multiset(GetEmployees(es, title))[e] == if NameMatches(e, title) then multiset(es)[e] else 0
    decreases |es|
  {
    if |es| > 0 {
      GetEmployeesCount(es[1..], title, e);
      var head := if NameMatches(es[0], title) then [es[0]] else [];
      assert GetEmployees(es, title) == head + GetEmployees(es[1..], title);
      assert es == [es[0]] + es[1..];
      assert multiset(es) == multiset([es[0]]) + multiset(es[1..]);
    }
  }

  /** A query no name contains returns nothing. */
  lemma GetEmployeesNoMatch(es: seq<Employee>, title: string)
    requires forall k :: 0 <= k < |es| ==> !NameMatches(es[k], title)
    ensures GetEmployees(es, title) == []
  {
  }

  // ---------------------------------------------------------------------
  // updateEmployeeRole and archiveEmployee.
  // ---------------------------------------------------------------------

  /** The list after `updateEmployeeRole(id, role)`: only the first record
      with that id changes, and only its `position`. */
  function RoleUpdated(es: seq<Employee>, id: JsString, role: string): (r: seq<Employee>)
    requires FindIndex(es, id) >= 0
    ensures |r| == |es| && SameIds(r, es)
    ensures forall k :: 0 <= k < |es| && k != FindIndex(es, id) ==> r[k] == es[k]
    ensures var i := FindIndex(es, id);
      r[i].dates == es[i].dates
      && Get(r[i].fields, "position") == Some(role)
      && r[i].fields - {"position"} == es[i].fields - {"position"}
  {
    var i := FindIndex(es, id);
    es[i := Employee(es[i].fields["position" := role], es[i].dates)]
  }

  function ArchivedRecord(e: Employee, now: string): Employee
  {
    Employee(e.fields["status" := "Archived"]["lastDate" := now], e.dates)
  }

  /** The list after `archiveEmployee(id)` at time `now`: every record with
      that id is marked 'Archived' and stamped, none is removed, and an
      unknown id changes nothing. */
  function Archived(es: seq<Employee>, id: JsString, now: string): (r: seq<Employee>)
    ensures |r| == |es| && SameIds(r, es)
    ensures forall k :: 0 <= k < |es| && IdOf(es[k]) != id ==> r[k] == es[k]
    ensures forall k :: 0 <= k < |es| && IdOf(es[k]) == id ==>
      r[k].dates == es[k].dates
      && Get(r[k].fields, "status") == Some("Archived")
      && Get(r[k].fields, "lastDate") == Some(now)
      && r[k].fields - {"status", "lastDate"} == es[k].fields - {"status", "lastDate"}
    ensures FindIndex(es, id) == -1 ==> r == es
  {
    seq(|es|, k requires 0 <= k < |es| => if IdOf(es[k]) == id then ArchivedRecord(es[k], now) else es[k])
  }

  // ---------------------------------------------------------------------
  // Laws that relate several operations.
  // ---------------------------------------------------------------------

  /** Adding a shift and then deleting it does not give back a date-only
      slot: the slot becomes the character-indexed spread of the date. */
  lemma AddThenDelete(es: seq<Employee>, id: JsString, date: string, shift: Slot)
    requires FindIndex(es, id) >= 0
    requires "date" !in shift
    ensures var i := FindIndex(es, id);
      var added := ShiftAdded(es, id, Some(date), shift);
      var old_j := FindSlot(es[i].dates, Some(date));
      FindIndex(added, id) == i
      && FindSlot(added[i].dates, Some(date)) == (if old_j == -1 then |es[i].dates| else old_j)
      && var deleted := ShiftDeleted(added, id, Some(date));
         var j := FindSlot(added[i].dates, Some(date));
         |deleted[i].dates| == |added[i].dates|
         && deleted[i].dates[j] == SpreadString(date)
         && deleted[i].dates[j] != map["date" := date]
  {
    var i := FindIndex(es, id);
    var added := ShiftAdded(es, id, Some(date), shift);
    FindIndexSameIds(added, es, id);
    var d := es[i].dates;
    var old_j := FindSlot(d, Some(date));
    if old_j == -1 {
      assert added[i].dates[..|d|] == d;
      assert Get(added[i].dates[|d|], "date") == Some(date);
      forall m | 0 <= m < |d| ensures Get(added[i].dates[m], "date") != Some(date) {
        assert added[i].dates[m] == d[m];
      }
    } else {
      assert Get(added[i].dates[old_j], "date") == Some(date);
    }
    var deleted := ShiftDeleted(added, id, Some(date));
    var j := FindSlot(added[i].dates, Some(date));
    assert "date" !in deleted[i].dates[j];
  }

  /** Adding shifts twice on a date that had no slot: the first call
      appends a slot with status 'added', the second edits that same slot to
      'edited', merging the two shifts rather than replacing the first. */
  lemma AddTwiceMerges(es: seq<Employee>, id: JsString, date: string, first: Slot, second: Slot)
    requires FindIndex(es, id) >= 0
    requires FindSlot(es[FindIndex(es, id)].dates, Some(date)) == -1
    requires "date" !in first && "status" !in first && "date" !in second
    ensures var i := FindIndex(es, id); var n := |es[i].dates|;
      var once := ShiftAdded(es, id, Some(date), first);
      FindIndex(once, id) == i
      && Get(once[i].dates[n], "status") == Some("added")
      && var twice := ShiftAdded(once, id, Some(date), second);
         |twice[i].dates| == n + 1
         && Get(twice[i].dates[n], "status") == Some("edited")
         && Get(twice[i].dates[n], "date") == Some(date)
         && (forall k :: k in first && k !in second ==> Get(twice[i].dates[n], k) == Some(first[k]))
         && (forall k :: k in second && k != "status" ==> Get(twice[i].dates[n], k) == Some(second[k]))
  {
    var i := FindIndex(es, id);
    var n := |es[i].dates|;
    var once := ShiftAdded(es, id, Some(date), first);
    FindIndexSameIds(once, es, id);
    forall m | 0 <= m < n ensures Get(once[i].dates[m], "date") != Some(date) {
      assert once[i].dates[m] == once[i].dates[..n][m];
    }
    assert Get(once[i].dates[n], "date") == Some(date);
    assert FindSlot(once[i].dates, Some(date)) == n;
  }

  /** Once deleted, a slot no longer carries its date, so when no other slot
      has that date a later `addShift` on it appends a new slot. */
  lemma DeleteThenAddAppends(es: seq<Employee>, id: JsString, date: string, shift: Slot)
    requires FindIndex(es, id) >= 0
    requires FindSlot(es[FindIndex(es, id)].dates, Some(date)) >= 0
    requires var d := es[FindIndex(es, id)].dates; var j := FindSlot(d, Some(date));
      forall m :: 0 <= m < |d| && m != j ==> Get(d[m], "date") != Some(date)
    ensures var i := FindIndex(es, id);
      var deleted := ShiftDeleted(es, id, Some(date));
      FindIndex(deleted, id) == i
      && FindSlot(deleted[i].dates, Some(date)) == -1
      && |ShiftAdded(deleted, id, Some(date), shift)[i].dates| == |es[i].dates| + 1
  {
    var i := FindIndex(es, id);
    var deleted := ShiftDeleted(es, id, Some(date));
    FindIndexSameIds(deleted, es, id);
    var j := FindSlot(es[i].dates, Some(date));
    assert "date" !in deleted[i].dates[j];
    forall m | 0 <= m < |deleted[i].dates| ensures Get(deleted[i].dates[m], "date") != Some(date) {
      if m != j {
        assert deleted[i].dates[m] == es[i].dates[m];
      }
    }
  }

  // ---------------------------------------------------------------------
  // The store object: one state cell, replaced by every mutator.
  // ---------------------------------------------------------------------

  class EmployeesProvider {
    var employees: seq<Employee>

    constructor (seed: seq<Employee>)
      ensures employees == seed
    {
      employees := seed;
    }

    method AddEmployee(input: Patch, now: string)
      modifies this
      ensures employees == old(employees) + [NewEmployee(input, now)]
    {
      employees := employees + [NewEmployee(input, now)];
    }

    method UpdateEmployee(id: JsString, patch: Patch)
      modifies this
      ensures employees == Updated(old(employees), id, patch)
    {
      var i := FindIndex(employees, id);
      if i != -1 {
        employees := employees[i := Merge(employees[i], patch)];
      }
    }

    /** Returns the list it installs. An unknown id makes the source read
        `dates` of `undefined`, which throws. */
    method AddShift(id: JsString, date: JsString, shift: Slot) returns (r: seq<Employee>)
      requires FindIndex(employees, id) >= 0
      modifies this
      ensures employees == ShiftAdded(old(employees), id, date, shift)
      ensures r == employees
    {
      var i := FindIndex(employees, id);
      var e := employees[i];
      var j := FindSlot(e.dates, date);
      if j == -1 {
        e := e.(dates := e.dates + [NewSlot(date, shift)]);
      } else {
        e := e.(dates := e.dates[j := EditedSlot(e.dates[j], shift)]);
      }
      employees := employees[i := e];
      r := employees;
    }

    /** Returns the list it installs. An unknown id, or a date no slot has,
        makes the source read a property of `undefined`, which throws. */
    method DeleteShift(id: JsString, date: JsString) returns (r: seq<Employee>)
      requires FindIndex(employees, id) >= 0
      requires FindSlot(employees[FindIndex(employees, id)].dates, date) >= 0
      modifies this
      ensures employees == ShiftDeleted(old(employees), id, date)
      ensures r == employees
    {
      var i := FindIndex(employees, id);
      var e := employees[i];
      var j := FindSlot(e.dates, date);
      e := e.(dates := e.dates[j := ClearedSlot(e.dates[j])]);
      employees := employees[i := e];
      r := employees;
    }

    method PublishShifts()
      modifies this
      ensures employees == Published(old(employees))
    {
      employees := Published(employees);
    }

    /** An unknown id makes the source assign to a property of `undefined`,
        which throws. */
    method UpdateEmployeeRole(id: JsString, role: string)
      requires FindIndex(employees, id) >= 0
      modifies this
      ensures employees == RoleUpdated(old(employees), id, role)
    {
      var i := FindIndex(employees, id);
      employees := employees[i := Employee(employees[i].fields["position" := role], employees[i].dates)];
    }

    /** Marks every record with the id in place, one record at a time. */
    method ArchiveEmployee(id: JsString, now: string)
      modifies this
      ensures employees == Archived(old(employees), id, now)
    {
      ghost var target := Archived(employees, id, now);
      var k := 0;
      while k < |employees|
        invariant 0 <= k <= |employees| == |target|
        invariant forall m :: 0 <= m < k ==> employees[m] == target[m]
        invariant forall m :: k <= m < |employees| ==> employees[m] == old(employees)[m]
      {
        var e := employees[k];
        if IdOf(e) == id {
          employees := employees[k := ArchivedRecord(e, now)];
        }
        k := k + 1;
      }
    }
  }
}
