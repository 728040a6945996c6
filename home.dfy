/** The schedule page: the employee search box, the shift templates dragged
    onto the weekly grid, the drop-target ids that name an (employee, date)
    cell, and the flag that enables the Publish button. */
module Home {
  import opened Js
  import opened EmployeesContext

  /** The five shift templates of the drawer, in drawer order. */
  const ShiftTemplates: seq<Slot> := [
    map["id" := "1", "time" := "9:00 - 11:00", "position" := "Chef", "shift" := "Morning"],
    map["id" := "2", "time" := "9:00 - 15:00", "position" := "Host", "shift" := "Morning"],
    map["id" := "3", "time" := "9:00 - 16:00", "position" := "Waiter", "shift" := "Morning"],
    map["id" := "4", "time" := "16:00 - 21:00", "position" := "Bartender", "shift" := "Evening"],
    map["id" := "5", "time" := "9:00 - 13:00", "position" := "Manager", "shift" := "Morning"]
  ]

  /** `shiftsTemplates[index]` as `addShift` spreads it: an index outside the
      list reads `undefined`, whose spread adds no key. */
  function TemplateAt(index: int): (t: Slot)
    ensures 0 <= index < |ShiftTemplates| ==> IsFilled(t) && "id" in t && "shift" in t
    ensures !(0 <= index < |ShiftTemplates|) ==> t == map[]
  {
    if 0 <= index < |ShiftTemplates| then ShiftTemplates[index] else map[]
  }

  /** A JavaScript value is truthy: defined and not the empty string. */
  predicate Truthy(v: JsString)
  {
    v.Some? && v.value != ""
  }

  /** A grid cell shows a shift card only when `time` and `position` are both
      truthy; any other slot is an empty, droppable cell. */
  predicate IsFilled(slot: Slot)
  {
    Truthy(Get(slot, "time")) && Truthy(Get(slot, "position"))
  }

  /** A slot emptied by `deleteShift` is shown as an empty cell. */
  lemma ClearedSlotIsEmpty(slot: Slot)
    ensures !IsFilled(ClearedSlot(slot))
  {
  }

  /** Dropping one of the five templates leaves a filled cell at the drop
      date, whether the date had a slot or not. */
  lemma DroppedTemplateFills(es: seq<Employee>, id: JsString, date: JsString, index: int)
    requires FindIndex(es, id) >= 0
    requires 0 <= index < |ShiftTemplates|
    ensures var i := FindIndex(es, id); var d := es[i].dates; var j := FindSlot(d, date);
      IsFilled(ShiftAdded(es, id, date, TemplateAt(index))[i].dates[if j == -1 then |d| else j])
  {
    var t := TemplateAt(index);
    assert "time" in t && t["time"] != "" && "position" in t && t["position"] != "";
  }

  /** A drop whose source index lies outside the template list adds no shift
      key. On a date without a slot it appends one that carries only its date
      and status, an empty cell; on a date that has a slot it only marks that
      slot 'edited', which leaves the cell filled or empty as it was. */
  lemma OutOfRangeTemplateAddsNoShift(es: seq<Employee>, id: JsString, date: JsString, index: int)
    requires FindIndex(es, id) >= 0
    requires !(0 <= index < |ShiftTemplates|)
    ensures var i := FindIndex(es, id); var d := es[i].dates; var j := FindSlot(d, date);
      var r := ShiftAdded(es, id, date, TemplateAt(index))[i].dates;
      if j == -1 then
        !IsFilled(r[|d|]) && Get(r[|d|], "status") == Some("added") && Get(r[|d|], "date") == date
      else
        |r| == |d| && IsFilled(r[j]) == IsFilled(d[j]) && Get(r[j], "status") == Some("edited")
  {
    var i := FindIndex(es, id);
    var d := es[i].dates;
    var j := FindSlot(d, date);
    if j >= 0 {
      var r := ShiftAdded(es, id, date, TemplateAt(index))[i].dates;
      assert Get(r[j], "time") == Get(d[j], "time") && Get(r[j], "position") == Get(d[j], "position");
    }
  }

  // ---------------------------------------------------------------------
  // Drop-target ids: `${id}__${date}`, read back with split('__').
  // ---------------------------------------------------------------------

  /** The id of the droppable cell for an employee id and a date. */
  function DropId(id: string, date: string): string
  {
    id + "__" + date
  }

  /** `s` contains the separator "__". */
  predicate HasSeparator(s: string)
  {
    exists i :: 0 <= i < |s| - 1 && s[i] == '_' && s[i + 1] == '_'
  }

  /** `parts.join('__')`. */
  function Join(parts: seq<string>): string
    requires |parts| >= 1
    decreases |parts|
  {
    if |parts| == 1 then parts[0] else parts[0] + "__" + Join(parts[1..])
  }

  /** The first part of a join is a prefix of it; with a second part, the
      separator and that part follow it. */
  lemma {:induction false} JoinHead(parts: seq<string>)
    requires |parts| >= 1
    ensures parts[0] <= Join(parts)
    ensures |parts| > 1 ==> parts[0] + "__" + parts[1] <= Join(parts)
  {
    if |parts| > 1 {
      var tail := Join(parts[1..]);
      if |parts| > 2 {
        assert parts[1..][0] == parts[1];
      }
      assert parts[1] <= tail;
      assert Join(parts) == parts[0] + ("__" + tail);
    }
  }

  /** A character in front of a string without "__" adds none, unless it is
      '_' and the string goes on with '_'. */
  lemma {:induction false} ConsNoSeparator(c: char, t: string, u: string)
    requires !HasSeparator(t) && t <= u
    requires !(c == '_' && |t| > 0 && u[0] == '_')
    ensures !HasSeparator([c] + t)
  {
    var w := [c] + t;
    forall i | 0 <= i < |w| - 1 ensures !(w[i] == '_' && w[i + 1] == '_') {
      if i > 0 {
        assert w[i] == t[i - 1] && w[i + 1] == t[i];
      } else {
        assert w[1] == t[0] == u[0];
      }
    }
  }

  /** A character in front of the first part is a character in front of
      the join. */
  lemma {:induction false} JoinConsHead(c: char, parts: seq<string>)
    requires |parts| >= 1
    ensures Join([[c] + parts[0]] + parts[1..]) == [c] + Join(parts)
  {
    var head := [c] + parts[0];
    var p := [head] + parts[1..];
    assert p[0] == head && p[1..] == parts[1..];
    if |parts| > 1 {
      var tail := Join(parts[1..]);
      calc {
        Join(p);
        head + "__" + tail;
        [c] + (parts[0] + "__" + tail);
        [c] + Join(parts);
      }
    }
  }

  /** `s.split('__')`: cut at each leftmost, non-overlapping "__". Joining
      the parts again gives back `s`, and the first part holds no "__". */
  function Split(s: string): (parts: seq<string>)
    ensures |parts| >= 1
    ensures Join(parts) == s
    ensures !HasSeparator(parts[0])
    decreases |s|
  {
    if |s| < 2 then
      [s]
    else if s[..2] == "__" then
      var rest := Split(s[2..]);
      assert ([""] + rest)[1..] == rest;
      assert s == "__" + s[2..];
      [""] + rest
    else
      var rest := Split(s[1..]);
      JoinHead(rest);
      assert s[1..][0] == s[1] && s[..2] == [s[0], s[1]];
      ConsNoSeparator(s[0], rest[0], s[1..]);
      JoinConsHead(s[0], rest);
      assert s == [s[0]] + s[1..];
      [[s[0]] + rest[0]] + rest[1..]
  }

  /** `const [employeeId, date] = droppableId.split('__')`: the id is
      everything before the first "__" and the date is the part after it,
      `undefined` when there is no separator at all. */
  function DecodeDropId(s: string): (r: (string, JsString))
    ensures !HasSeparator(r.0)
    ensures r.1.None? <==> !HasSeparator(s)
    ensures r.1.None? ==> r.0 == s
    ensures r.1.Some? ==> r.0 + "__" + r.1.value <= s
  {
    var parts := Split(s);
    JoinHead(parts);
    if |parts| > 1 then
      assert s[|parts[0]|] == '_' && s[|parts[0]| + 1] == '_';
      (parts[0], Some(parts[1]))
    else
      (parts[0], None)
  }

  lemma {:induction false} SplitWithoutSeparator(s: string)
    requires !HasSeparator(s)
    ensures Split(s) == [s]
    decreases |s|
  {
    if |s| >= 2 {
      assert !(s[0] == '_' && s[1] == '_');
      assert s[..2][0] == s[0] && s[..2][1] == s[1];
      assert !HasSeparator(s[1..]);
      SplitWithoutSeparator(s[1..]);
      assert [s[0]] + s[1..] == s;
    }
  }

  /** Joining at a separator is undone by the split, provided the left part
      has no separator and does not end in '_' (which would make the
      leftmost "__" start one character early). */
  lemma {:induction false} SplitAtJoin(a: string, b: string)
    requires !HasSeparator(a)
    requires |a| == 0 || a[|a| - 1] != '_'
    ensures Split(a + "__" + b) == [a] + Split(b)
    decreases |a|
  {
    var s := a + "__" + b;
    if |a| == 0 {
      assert s == "__" + b;
      assert s[..2] == "__" && s[2..] == b;
    } else {
      assert s[..2] != "__" by {
        if |a| == 1 {
          assert s[0] == a[0] && a[0] != '_';
        } else {
          assert s[0] == a[0] && s[1] == a[1];
          assert !(0 <= 0 < |a| - 1 && a[0] == '_' && a[1] == '_');
        }
      }
      var a' := a[1..];
      assert !HasSeparator(a');
      assert s[1..] == a' + "__" + b;
      SplitAtJoin(a', b);
      assert [s[0]] + a' == a;
    }
  }

  /** Decoding a drop id gives back the employee id and the date whenever
      neither contains "__" and the id does not end in '_'. */
  lemma DropIdRoundTrip(id: string, date: string)
    requires !HasSeparator(id) && !HasSeparator(date)
    requires |id| == 0 || id[|id| - 1] != '_'
    ensures DecodeDropId(DropId(id, date)) == (id, Some(date))
  {
    SplitAtJoin(id, date);
    SplitWithoutSeparator(date);
  }

  /** Without the last condition the round trip fails: the id "a_" dropped on
      date "b" is read back as the id "a" and the date "_b". */
  lemma DropIdTrailingUnderscore()
    ensures DecodeDropId(DropId("a_", "b")) == ("a", Some("_b"))
  {
    var s := DropId("a_", "b");
    assert s == "a___b";
    assert s[..2] != "__" by {
      assert s[0] == 'a';
    }
    assert s[1..][..2] == "__" && s[1..][2..] == "_b";
    assert !HasSeparator("_b") by {
      assert "_b"[1] == 'b';
    }
    SplitWithoutSeparator("_b");
    assert Split(s[1..]) == ["", "_b"];
    assert Split(s) == [[s[0]] + ""] + ["_b"];
    assert [s[0]] + "" == "a";
    assert Split(s) == ["a", "_b"];
  }

  // ---------------------------------------------------------------------
  // The page's state.
  // ---------------------------------------------------------------------

  class HomePage {
    const store: EmployeesProvider
    var filteredEmployees: seq<Employee>
    var search: string
    var isPublishable: bool
    var isDragging: bool

    constructor (store: EmployeesProvider)
      ensures this.store == store
      ensures filteredEmployees == store.employees && search == ""
      ensures !isPublishable && !isDragging
    {
      this.store := store;
      filteredEmployees := store.employees;
      search := "";
      isPublishable := false;
      isDragging := false;
    }

    /** The page's own copy of the store's name filter. */
    method HandleSearchEmployees(query: string)
      modifies this
      ensures filteredEmployees == GetEmployees(store.employees, query)
      ensures search == old(search) && isPublishable == old(isPublishable) && isDragging == old(isDragging)
    {
      filteredEmployees := GetEmployees(store.employees, query);
    }

    /** Typing in the search box. */
    method OnSearchChange(query: string)
      modifies this
      ensures search == query && filteredEmployees == GetEmployees(store.employees, query)
      ensures isPublishable == old(isPublishable) && isDragging == old(isDragging)
    {
      search := query;
      HandleSearchEmployees(query);
    }

    /** The effect that re-runs the filter whenever the store's list
        changes. */
    method OnEmployeesChanged()
      modifies this
      ensures filteredEmployees == GetEmployees(store.employees, search)
      ensures search == old(search) && isPublishable == old(isPublishable) && isDragging == old(isDragging)
    {
      HandleSearchEmployees(search);
    }

    /** Publishing rewrites every slot's status and disables the button. */
    method HandlePublish()
      modifies store, this
      ensures store.employees == Published(old(store.employees))
      ensures !isPublishable
      ensures filteredEmployees == old(filteredEmployees) && search == old(search) && isDragging == old(isDragging)
    {
      store.PublishShifts();
      isPublishable := false;
    }

    /** Deleting a shift from its card. */
    method HandleDeletingShift(id: JsString, date: JsString)
      requires FindIndex(store.employees, id) >= 0
      requires FindSlot(store.employees[FindIndex(store.employees, id)].dates, date) >= 0
      modifies store, this
      ensures store.employees == ShiftDeleted(old(store.employees), id, date)
      ensures filteredEmployees == store.employees
      ensures isPublishable == old(isPublishable) && search == old(search) && isDragging == old(isDragging)
    {
      var r := store.DeleteShift(id, date);
      filteredEmployees := r;
    }

    /** The shift editing sheet submitted a new list. */
    method OnSubmit(employees: seq<Employee>)
      modifies this
      ensures filteredEmployees == employees && isPublishable
      ensures search == old(search) && isDragging == old(isDragging)
    {
      filteredEmployees := employees;
      isPublishable := true;
    }

    method OnDragStart()
      modifies this
      ensures isDragging
      ensures filteredEmployees == old(filteredEmployees) && search == old(search) && isPublishable == old(isPublishable)
    {
      isDragging := true;
    }

    /** The end of a drag from the template drawer. Without a destination
        only the dragging flag drops; otherwise the template is added to the
        cell the destination id names and the page becomes publishable. */
    method OnDragEnd(destination: Option<string>, sourceIndex: int)
      requires destination.Some? ==> FindIndex(store.employees, Some(DecodeDropId(destination.value).0)) >= 0
      modifies store, this
      ensures !isDragging && search == old(search)
      ensures destination.None? ==>
        store.employees == old(store.employees)
        && filteredEmployees == old(filteredEmployees) && isPublishable == old(isPublishable)
      ensures destination.Some? ==>
        var cell := DecodeDropId(destination.value);
        store.employees == ShiftAdded(old(store.employees), Some(cell.0), cell.1, TemplateAt(sourceIndex))
        && filteredEmployees == store.employees && isPublishable
    {
      isDragging := false;
      if destination.None? {
        return;
      }
      var template := TemplateAt(sourceIndex);
      var cell := DecodeDropId(destination.value);
      var r := store.AddShift(Some(cell.0), cell.1, template);
      filteredEmployees := r;
      if !isPublishable {
        isPublishable := true;
      }
    }
  }
}
