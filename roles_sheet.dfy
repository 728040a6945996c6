/** The role-management sheet: a list of pending role-change intents that
    clicks on employees toggle, a selected role whose change resets the list,
    and a save action that replays the list into the employee store. */
module RolesSheet {
  import opened Js
  import opened EmployeesContext

  /** The sentinel role title that means "take this employee off the role". */
  const NoRole: string := "NoRole"

  /** A pending change: give the employee with this id this role title. */
  datatype Intent = Intent(id: JsString, role: string)

  datatype Role = Role(id: string, title: string, color: string)

  /** `selectedRole.title`; the initial `{}` has none. */
  function TitleOf(selected: Option<Role>): JsString
  {
    match selected
    case Some(r) => Some(r.title)
    case None => None
  }

  // ---------------------------------------------------------------------
  // The intent list.
  // ---------------------------------------------------------------------

  /** `intents.find(({id}) => id === employeeId)`: the first intent for the
      employee. */
  function FindIntent(xs: seq<Intent>, id: JsString): (r: Option<Intent>)
    ensures r.None? <==> forall k :: 0 <= k < |xs| ==> xs[k].id != id
    ensures r.Some? ==> r.value in xs && r.value.id == id
    ensures r.Some? ==> exists k :: 0 <= k < |xs| && xs[k] == r.value && forall m :: 0 <= m < k ==> xs[m].id != id
    decreases |xs|
  {
    if |xs| == 0 then None
    else if xs[0].id == id then Some(xs[0])
    else
      var r := FindIntent(xs[1..], id);
      if r.Some? then
        var k :| 0 <= k < |xs[1..]| && xs[1..][k] == r.value && forall m :: 0 <= m < k ==> xs[1..][m].id != id;
        assert xs[k + 1] == r.value && forall m :: 0 <= m < k + 1 ==> xs[m].id != id;
        r
      else r
  }

  /** `intents.filter(({id}) => id !== employeeId)`. */
  function WithoutId(xs: seq<Intent>, id: JsString): (r: seq<Intent>)
    ensures |r| <= |xs|
    ensures forall x :: x in r <==> x in xs && x.id != id
    decreases |xs|
  {
    if |xs| == 0 then []
    else (if xs[0].id != id then [xs[0]] else []) + WithoutId(xs[1..], id)
  }

  /** Removal keeps the order of what it keeps. */
  lemma {:induction false} WithoutIdAppend(a: seq<Intent>, b: seq<Intent>, id: JsString)
    ensures WithoutId(a + b, id) == WithoutId(a, id) + WithoutId(b, id)
    decreases |a|
  {
    if |a| > 0 {
      var ab := a + b;
      assert ab[0] == a[0];
      assert ab[1..] == a[1..] + b;
      WithoutIdAppend(a[1..], b, id);
      var head := if a[0].id != id then [a[0]] else [];
      var restA, restB := WithoutId(a[1..], id), WithoutId(b, id);
      assert WithoutId(ab, id) == head + (restA + restB);
      assert WithoutId(a, id) == head + restA;
      assert head + (restA + restB) == (head + restA) + restB;
    } else {
      assert a + b == b;
    }
  }

  /** Removing an employee that has no intent changes nothing. */
  lemma {:induction false} WithoutIdAbsent(xs: seq<Intent>, id: JsString)
    requires forall k :: 0 <= k < |xs| ==> xs[k].id != id
    ensures WithoutId(xs, id) == xs
    decreases |xs|
  {
    if |xs| > 0 {
      WithoutIdAbsent(xs[1..], id);
    }
  }

  /** `handleRoleChange(employee)` for an employee with this id and persisted
      position, while the role with this title is selected. */
  function ToggleIntent(xs: seq<Intent>, id: JsString, position: JsString, title: string): (r: seq<Intent>)
    // No intent yet: one is appended, "NoRole" for a holder of the role.
    ensures FindIntent(xs, id).None? ==>
      r == xs + [Intent(id, if position == Some(title) then NoRole else title)]
    // A "NoRole" intent, or any intent of a non-holder: all of them go.
    ensures FindIntent(xs, id).Some? && (FindIntent(xs, id).value.role == NoRole || position != Some(title)) ==>
      r == WithoutId(xs, id)
    // A holder with an assigning intent: a "NoRole" intent is added after it.
    ensures FindIntent(xs, id).Some? && FindIntent(xs, id).value.role != NoRole && position == Some(title) ==>
      r == xs + [Intent(id, NoRole)]
  {
    var found := FindIntent(xs, id);
    if found.Some? && found.value.role == NoRole then WithoutId(xs, id)
    else if position == Some(title) then xs + [Intent(id, NoRole)]
    else if |xs| > 0 && found.Some? then WithoutId(xs, id)
    else xs + [Intent(id, title)]
  }

  /** A click touches only the clicked employee's intents: everybody else's
      intents stay, in the same relative order. */
  lemma ToggleIsLocal(xs: seq<Intent>, id: JsString, position: JsString, title: string)
    ensures WithoutId(ToggleIntent(xs, id, position, title), id) == WithoutId(xs, id)
    ensures forall other :: other != id ==>
      FindIntent(ToggleIntent(xs, id, position, title), other) == FindIntent(xs, other)
  {
    var r := ToggleIntent(xs, id, position, title);
    var rest := WithoutId(xs, id);
    if r == rest {
      WithoutIdAbsent(rest, id);
    } else {
      var role := if position == Some(title) then NoRole else title;
      assert r == xs + [Intent(id, role)];
      WithoutIdAppend(xs, [Intent(id, role)], id);
      assert WithoutId([Intent(id, role)], id) == [];
    }
    forall other | other != id
      ensures FindIntent(r, other) == FindIntent(xs, other)
    {
      FindIntentUnaffected(xs, id, other, position, title);
    }
  }

  lemma {:induction false} FindIntentWithout(xs: seq<Intent>, id: JsString, other: JsString)
    requires other != id
    ensures FindIntent(WithoutId(xs, id), other) == FindIntent(xs, other)
    decreases |xs|
  {
    if |xs| > 0 {
      var w := WithoutId(xs, id);
      var w' := WithoutId(xs[1..], id);
      FindIntentWithout(xs[1..], id, other);
      if xs[0].id != id {
        assert w == [xs[0]] + w';
        assert w[0] == xs[0] && w[1..] == w';
      } else {
        assert w == w';
      }
    }
  }

  lemma {:induction false} FindIntentAppend(xs: seq<Intent>, x: Intent, other: JsString)
    requires x.id != other
    ensures FindIntent(xs + [x], other) == FindIntent(xs, other)
    decreases |xs|
  {
    if |xs| > 0 {
      assert (xs + [x])[1..] == xs[1..] + [x];
      FindIntentAppend(xs[1..], x, other);
    }
  }

  lemma FindIntentUnaffected(xs: seq<Intent>, id: JsString, other: JsString, position: JsString, title: string)
    requires other != id
    ensures FindIntent(ToggleIntent(xs, id, position, title), other) == FindIntent(xs, other)
  {
    var found := FindIntent(xs, id);
    if found.Some? && found.value.role == NoRole {
      FindIntentWithout(xs, id, other);
    } else if position == Some(title) {
      FindIntentAppend(xs, Intent(id, NoRole), other);
    } else if |xs| > 0 && found.Some? {
      FindIntentWithout(xs, id, other);
    } else {
      FindIntentAppend(xs, Intent(id, title), other);
    }
  }

  /** Two clicks on an employee without a pending intent leave the list
      exactly as it was (the selected title is never "NoRole": that role is
      not listed for selection). */
  lemma ToggleTwiceRestores(xs: seq<Intent>, id: JsString, position: JsString, title: string)
    requires title != NoRole
    requires forall k :: 0 <= k < |xs| ==> xs[k].id != id
    ensures ToggleIntent(ToggleIntent(xs, id, position, title), id, position, title) == xs
  {
    var role := if position == Some(title) then NoRole else title;
    var once := xs + [Intent(id, role)];
    assert ToggleIntent(xs, id, position, title) == once;
    assert once[|xs|] == Intent(id, role);
    assert FindIntent(once, id) == Some(Intent(id, role));
    WithoutIdAppend(xs, [Intent(id, role)], id);
    WithoutIdAbsent(xs, id);
    assert WithoutId([Intent(id, role)], id) == [];
  }

  /** Line 231's "shown as selected": the employee holds the role or has an
      intent, and that intent is not the "NoRole" one. */
  predicate ShownSelected(xs: seq<Intent>, id: JsString, position: JsString, title: string)
  {
    var found := FindIntent(xs, id);
    (position == Some(title) || found.Some?) && !(found.Some? && found.value.role == NoRole)
  }

  /** The list as the clicks alone can leave it for one employee: at most one
      intent, a "NoRole" one only when the employee holds the selected role,
      and an assigning one only when it does not. */
  predicate Consistent(xs: seq<Intent>, id: JsString, position: JsString, title: string)
  {
    && title != NoRole
    && (forall a, b :: 0 <= a < b < |xs| && xs[a].id == id ==> xs[b].id != id)
    && (forall k :: 0 <= k < |xs| && xs[k].id == id ==>
          if position == Some(title) then xs[k].role == NoRole else xs[k].role == title)
  }

  /** While the list is consistent, every click flips what the sheet shows,
      and the list stays consistent. */
  lemma ToggleFlipsShown(xs: seq<Intent>, id: JsString, position: JsString, title: string)
    requires Consistent(xs, id, position, title)
    ensures var r := ToggleIntent(xs, id, position, title);
      Consistent(r, id, position, title)
      && ShownSelected(r, id, position, title) == !ShownSelected(xs, id, position, title)
  {
    var r := ToggleIntent(xs, id, position, title);
    var found := FindIntent(xs, id);
    if found.Some? {
      var k :| 0 <= k < |xs| && xs[k] == found.value;
      WithoutIdAbsentAfter(xs, id);
      assert FindIntent(r, id).None?;
    } else {
      var role := if position == Some(title) then NoRole else title;
      assert r == xs + [Intent(id, role)];
      assert r[|xs|] == Intent(id, role);
      assert FindIntent(r, id) == Some(Intent(id, role));
    }
  }

  lemma WithoutIdAbsentAfter(xs: seq<Intent>, id: JsString)
    ensures forall k :: 0 <= k < |WithoutId(xs, id)| ==> WithoutId(xs, id)[k].id != id
  {
    var r := WithoutId(xs, id);
    forall k | 0 <= k < |r| ensures r[k].id != id {
      assert r[k] in r;
    }
  }

  /** Not clearing the list on save lets a later click record a second intent
      for an employee: once saved, the employee holds the role, so the
      "holds the selected role" rule appends a "NoRole" intent after the old
      one. */
  lemma ClickAfterSaveDuplicates(xs: seq<Intent>, id: JsString, title: string)
    requires title != NoRole
    requires FindIntent(xs, id) == Some(Intent(id, title))
    ensures var r := ToggleIntent(xs, id, Some(title), title);
      r == xs + [Intent(id, NoRole)]
      && exists a, b :: 0 <= a < b < |r| && r[a].id == id && r[b].id == id
  {
    var r := ToggleIntent(xs, id, Some(title), title);
    var a :| 0 <= a < |xs| && xs[a] == Intent(id, title);
    assert r[a].id == id && r[|xs|].id == id;
  }

  // ---------------------------------------------------------------------
  // Save: replaying the intents into the store.
  // ---------------------------------------------------------------------

  /** Every intent names an employee the store has (else
      `updateEmployeeRole` throws). */
  predicate AllKnown(es: seq<Employee>, xs: seq<Intent>)
  {
    forall k :: 0 <= k < |xs| ==> FindIndex(es, xs[k].id) >= 0
  }

  /** The store after `updateEmployeeRole(id, role)` for every intent, in
      list order. */
  function Replayed(es: seq<Employee>, xs: seq<Intent>): (r: seq<Employee>)
    requires AllKnown(es, xs)
    ensures SameIds(r, es)
    decreases |xs|
  {
    if |xs| == 0 then es
    else
      var last := xs[|xs| - 1];
      var before := Replayed(es, xs[..|xs| - 1]);
      FindIndexSameIds(before, es, last.id);
      RoleUpdated(before, last.id, last.role)
  }

  /** The role of the last intent for an employee, if any. */
  function LastRoleFor(xs: seq<Intent>, id: JsString): Option<string>
    decreases |xs|
  {
    if |xs| == 0 then None
    else if xs[|xs| - 1].id == id then Some(xs[|xs| - 1].role)
    else LastRoleFor(xs[..|xs| - 1], id)
  }

  /** After save, the first record with each id carries the role of the last
      intent for that id ("NoRole" literally when that is the intent), and
      keeps every other key and its slots; every other record is unchanged. */
  lemma {:induction false} ReplayedRecord(es: seq<Employee>, xs: seq<Intent>, k: nat)
    requires AllKnown(es, xs) && k < |es|
    ensures var r := Replayed(es, xs); var id := IdOf(es[k]); var last := LastRoleFor(xs, id);
      if k == FindIndex(es, id) && last.Some? then
        r[k].dates == es[k].dates
        && Get(r[k].fields, "position") == Some(last.value)
        && r[k].fields - {"position"} == es[k].fields - {"position"}
      else
        r[k] == es[k]
    decreases |xs|
  {
    if |xs| > 0 {
      var last := xs[|xs| - 1];
      var init := xs[..|xs| - 1];
      var before := Replayed(es, init);
      ReplayedRecord(es, init, k);
      FindIndexSameIds(before, es, last.id);
      FindIndexSameIds(before, es, IdOf(es[k]));
    }
  }

  /** Save followed by a click, end to end: once the intent assigning the
      selected title has been saved, the employee's record holds that title,
      and clicking the record again (the list was not cleared) gives the
      employee a second, "NoRole" intent. */
  lemma SaveThenClickDuplicates(es: seq<Employee>, xs: seq<Intent>, k: nat, title: string)
    requires AllKnown(es, xs) && k < |es| && k == FindIndex(es, IdOf(es[k]))
    requires title != NoRole
    requires FindIntent(xs, IdOf(es[k])) == Some(Intent(IdOf(es[k]), title))
    requires LastRoleFor(xs, IdOf(es[k])) == Some(title)
    ensures var saved := Replayed(es, xs)[k]; var id := IdOf(es[k]);
      var r := ToggleIntent(xs, id, Get(saved.fields, "position"), title);
      IdOf(saved) == id
      && r == xs + [Intent(id, NoRole)]
      && exists a, b :: 0 <= a < b < |r| && r[a].id == id && r[b].id == id
  {
    var id := IdOf(es[k]);
    ReplayedRecord(es, xs, k);
    assert IdOf(Replayed(es, xs)[k]) == id;
    ClickAfterSaveDuplicates(xs, id, title);
  }

  // ---------------------------------------------------------------------
  // The sheet's state.
  // ---------------------------------------------------------------------

  class RolesSheetState {
    const store: EmployeesProvider
    var selectedRole: Option<Role>
    var intents: seq<Intent>

    constructor (store: EmployeesProvider)
      ensures this.store == store && selectedRole == None && intents == []
    {
      this.store := store;
      selectedRole := None;
      intents := [];
    }

    /** Selecting a role with another title drops the pending intents;
        selecting the same title again keeps them. */
    method SelectRole(role: Role)
      modifies this
      ensures selectedRole == Some(role)
      ensures TitleOf(old(selectedRole)) != Some(role.title) ==> intents == []
      ensures TitleOf(old(selectedRole)) == Some(role.title) ==> intents == old(intents)
    {
      if TitleOf(selectedRole) != Some(role.title) {
        intents := [];
      }
      selectedRole := Some(role);
    }

    /** A click on an employee of the list, which is shown only once a role
        is selected. */
    method HandleRoleChange(e: Employee)
      requires selectedRole.Some?
      modifies this
      ensures selectedRole == old(selectedRole)
      ensures intents == ToggleIntent(old(intents), IdOf(e), Get(e.fields, "position"), selectedRole.value.title)
    {
      intents := ToggleIntent(intents, IdOf(e), Get(e.fields, "position"), selectedRole.value.title);
    }

    /** The local part of save: each intent in order through
        `updateEmployeeRole`. The intent list itself is not cleared. */
    method HandleSaveChanges()
      requires AllKnown(store.employees, intents)
      modifies store
      ensures store.employees == Replayed(old(store.employees), intents)
      ensures intents == old(intents)
    {
      var k := 0;
      while k < |intents|
        invariant 0 <= k <= |intents|
        invariant AllKnown(old(store.employees), intents[..k])
        invariant store.employees == Replayed(old(store.employees), intents[..k])
      {
        FindIndexSameIds(store.employees, old(store.employees), intents[k].id);
        store.UpdateEmployeeRole(intents[k].id, intents[k].role);
        assert intents[..k + 1][..k] == intents[..k];
        k := k + 1;
      }
      assert intents[..k] == intents;
    }
  }
}
