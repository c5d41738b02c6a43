/**
 * The fuel-type list editor: a list of names kept in browser storage under
 * the key `fuelTypes`, shown sorted in a drop-down, to which the form adds a
 * name, renames the selected one, or deletes it. The list operations are
 * specified as functions over `seq<string>`; the editor is a class whose
 * fields are the in-memory list and the stored copy.
 */
module FuelTypes {
  import opened Wrappers
  import opened Text
  import Sorting

  /** The list used when storage holds none. */
  const DefaultTypes: seq<string> := ["Petrol (91)", "Petrol (95)", "Diesel"]

  /** No name occurs twice. */
  predicate NoDuplicates(list: seq<string>) {
    forall i, j :: 0 <= i < j < |list| ==> list[i] != list[j]
  }

  /** `list.indexOf(name)`: the first index holding `name`, or none. */
  function IndexOf(list: seq<string>, name: string): (r: Option<nat>)
    ensures r.Some? ==> r.value < |list| && list[r.value] == name &&
                        forall j :: 0 <= j < r.value ==> list[j] != name
    ensures r.None? <==> name !in list
  {
    if |list| == 0 then None
    else if list[0] == name then Some(0)
    else match IndexOf(list[1..], name)
      case None => None
      case Some(i) => Some(i + 1)
  }

  /** Adding: the name is appended unless the list already includes it. */
  function AddType(list: seq<string>, name: string): (r: seq<string>)
    ensures name in r
    ensures |list| <= |r| <= |list| + 1
    ensures r[..|list|] == list
    ensures forall x :: x in r <==> x in list || x == name
    ensures name in list ==> r == list
  {
    if name in list then list else list + [name]
  }

  /**
   * Renaming: when the new name differs from the old one and the old one
   * is present, its first occurrence is overwritten in place.
   */
  function RenameType(list: seq<string>, oldName: string, newName: string): (r: seq<string>)
    ensures |r| == |list|
    ensures oldName !in list || oldName == newName ==> r == list
    ensures forall i :: 0 <= i < |list| && IndexOf(list, oldName) != Some(i) ==> r[i] == list[i]
    ensures oldName in list && oldName != newName ==> r[IndexOf(list, oldName).value] == newName
  {
    if newName == oldName then list
    else match IndexOf(list, oldName)
      case None => list
      case Some(i) => list[i := newName]
  }

  /** Deleting: `list.filter(t => t !== name)`. */
  function RemoveType(list: seq<string>, name: string): (r: seq<string>)
    ensures name !in r
    ensures |r| <= |list|
    ensures forall x :: x != name ==> multiset(r)[x] == multiset(list)[x]
  {
    if |list| == 0 then []
    else
      assert list == [list[0]] + list[1..];
      (if list[0] == name then [] else [list[0]]) + RemoveType(list[1..], name)
  }

  /** An add keeps a list free of duplicates. */
  lemma AddKeepsNoDuplicates(list: seq<string>, name: string)
    requires NoDuplicates(list)
    ensures NoDuplicates(AddType(list, name))
  {
  }

  /** A rename to a name not yet in the list keeps it free of duplicates. */
  lemma RenameKeepsNoDuplicates(list: seq<string>, oldName: string, newName: string)
    requires NoDuplicates(list) && newName !in list
    ensures NoDuplicates(RenameType(list, oldName, newName))
  {
    var r := RenameType(list, oldName, newName);
    forall i, j | 0 <= i < j < |r|
      ensures r[i] != r[j]
    {
      if IndexOf(list, oldName) == Some(i) {
        assert r[j] == list[j];
      } else if IndexOf(list, oldName) == Some(j) {
        assert r[i] == list[i];
      }
    }
  }

  /** Deleting keeps the other names in their relative order: it distributes over concatenation. */
  lemma {:induction false} RemoveKeepsOrder(a: seq<string>, b: seq<string>, name: string)
    ensures RemoveType(a + b, name) == RemoveType(a, name) + RemoveType(b, name)
  {
    if |a| > 0 {
      assert (a + b)[1..] == a[1..] + b;
      RemoveKeepsOrder(a[1..], b, name);
    } else {
      assert a + b == b;
    }
  }

  /** Deleting a name that is absent changes nothing. */
  lemma {:induction false} RemoveAbsent(list: seq<string>, name: string)
    requires name !in list
    ensures RemoveType(list, name) == list
  {
    if |list| > 0 {
      RemoveAbsent(list[1..], name);
    }
  }

  /** The order used by `sort()` on the names is a total preorder. */
  lemma StrLeIsTotalPreorder()
    ensures Sorting.TotalPreorder(StrLe)
  {
    forall a, b
      ensures StrLe(a, b) || StrLe(b, a)
    {
      StrLeTotal(a, b);
    }
    forall a, b, c | StrLe(a, b) && StrLe(b, c)
      ensures StrLe(a, c)
    {
      StrLeTransitive(a, b, c);
    }
  }

  /** The editor: the in-memory `fuelTypes` array and what storage holds under `fuelTypes`. */
  class FuelTypeEditor {
    var fuelTypes: seq<string>
    var stored: Option<seq<string>>

    /** `getFromStorage('fuelTypes', default)`: the stored list, or the defaults when there is none. */
    static function Load(stored: Option<seq<string>>): (list: seq<string>)
      ensures stored.Some? ==> list == stored.value
      ensures stored.None? ==> list == DefaultTypes
    {
      stored.GetOr(DefaultTypes)
    }

    /**
     * Page load: the list is read from storage, and written back when storage
     * held none, so that the defaults are stored from the first run on.
     */
    constructor (initial: Option<seq<string>>)
      ensures fuelTypes == Load(initial)
      ensures stored == Some(Load(initial))
    {
      fuelTypes := Load(initial);
      stored := initial;
      if initial.None? {
        stored := Some(fuelTypes);
      }
    }

    /** `populateDropdown`: the list is sorted in place (and then listed). */
    method PopulateDropdown()
      modifies this
      ensures Sorting.SortedBy(fuelTypes, StrLe)
      ensures multiset(fuelTypes) == multiset(old(fuelTypes))
      ensures stored == old(stored)
    {
      var a := new string[|fuelTypes|](i requires 0 <= i < |fuelTypes| reads this => fuelTypes[i]);
      assert a[..] == fuelTypes;
      StrLeIsTotalPreorder();
      Sorting.InsertionSort(a, StrLe);
      fuelTypes := a[..];
    }

    /** Opening the editor reloads the list from storage and shows it sorted. */
    method Open()
      modifies this
      ensures Sorting.SortedBy(fuelTypes, StrLe)
      ensures multiset(fuelTypes) == multiset(Load(old(stored)))
      ensures stored == old(stored)
    {
      fuelTypes := Load(stored);
      PopulateDropdown();
    }

    /**
     * The form's submit handler. `rawName` is the name field, `editingName`
     * the hidden field holding the selected name ("" when adding). A name
     * that is empty after trimming does nothing. Otherwise the list is
     * renamed or extended, stored as it then is, and sorted for display.
     */
    method Submit(rawName: string, editingName: string)
      modifies this
      ensures Trim(rawName) == [] ==> fuelTypes == old(fuelTypes) && stored == old(stored)
      ensures Trim(rawName) != [] ==>
                stored == Some(if editingName != [] then RenameType(old(fuelTypes), editingName, Trim(rawName))
                               else AddType(old(fuelTypes), Trim(rawName)))
      ensures Trim(rawName) != [] ==>
                Sorting.SortedBy(fuelTypes, StrLe) && multiset(fuelTypes) == multiset(stored.value)
    {
      var newTypeName := Trim(rawName);
      var oldTypeName := editingName;
      if newTypeName == [] {
        return;
      }
      if oldTypeName != [] {
        if newTypeName != oldTypeName {
          var typeIndex := IndexOf(fuelTypes, oldTypeName);
          if typeIndex.Some? {
            fuelTypes := fuelTypes[typeIndex.value := newTypeName];
          }
        }
      } else {
        if newTypeName !in fuelTypes {
          fuelTypes := fuelTypes + [newTypeName];
        }
      }
      stored := Some(fuelTypes);
      PopulateDropdown();
    }

    /**
     * The delete button: with a selected name and the user's confirmation,
     * every occurrence of the name is removed, the list is stored and then
     * sorted for display; otherwise nothing changes.
     */
    method Delete(editingName: string, confirmed: bool)
      modifies this
      ensures editingName == [] || !confirmed ==> fuelTypes == old(fuelTypes) && stored == old(stored)
      ensures editingName != [] && confirmed ==>
                stored == Some(RemoveType(old(fuelTypes), editingName)) &&
                Sorting.SortedBy(fuelTypes, StrLe) && multiset(fuelTypes) == multiset(stored.value)
    {
      var typeToDelete := editingName;
      if typeToDelete != [] && confirmed {
        fuelTypes := RemoveType(fuelTypes, typeToDelete);
        stored := Some(fuelTypes);
        PopulateDropdown();
      }
    }
  }
}
