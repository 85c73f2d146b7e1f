/**
 * The wizard page of src/pages/Index.tsx as a state machine: the page's
 * `useState` fields are the fields of `MigrationWizard`, each handler is a
 * method that updates them, and the table selection list is toggled with
 * `Toggled`. Toasts, timers and rendering are not part of the model.
 */
module Wizard {
  import opened Strings

  predicate NoDuplicates<T(==)>(s: seq<T>) {
    forall i, j :: 0 <= i < j < |s| ==> s[i] != s[j]
  }

  /** `s.filter(y => y !== x)`: every occurrence of `x` dropped, the rest kept in order. */
  function RemoveAll<T(==)>(s: seq<T>, x: T): (r: seq<T>)
    ensures x !in r
    ensures |r| <= |s|
  {
    if s == [] then [] else (if s[0] == x then [] else [s[0]]) + RemoveAll(s[1..], x)
  }

  /** Filtering drops every occurrence of `x` and keeps every other element as often as it was there. */
  lemma {:induction false} RemoveAllCounts<T>(s: seq<T>, x: T)
    ensures multiset(RemoveAll(s, x)) == multiset(s)[x := 0]
  {
    if s != [] {
      assert s == [s[0]] + s[1..];
      RemoveAllCounts(s[1..], x);
    }
  }

  /** Filtering a concatenation filters each part. */
  lemma {:induction false} RemoveAllConcat<T>(a: seq<T>, b: seq<T>, x: T)
    ensures RemoveAll(a + b, x) == RemoveAll(a, x) + RemoveAll(b, x)
  {
    if a != [] {
      assert (a + b)[0] == a[0];
      assert (a + b)[1..] == a[1..] + b;
      RemoveAllConcat(a[1..], b, x);
    } else {
      assert a + b == b;
    }
  }

  /** Filtering out an absent element changes nothing. */
  lemma {:induction false} RemoveAbsent<T>(s: seq<T>, x: T)
    requires x !in s
    ensures RemoveAll(s, x) == s
  {
    if s != [] {
      RemoveAbsent(s[1..], x);
    }
  }

  /** Filtering keeps a list free of duplicates. */
  lemma {:induction false} RemoveAllNoDuplicates<T>(s: seq<T>, x: T)
    requires NoDuplicates(s)
    ensures NoDuplicates(RemoveAll(s, x))
  {
    if s != [] {
      RemoveAllNoDuplicates(s[1..], x);
      RemoveAllCounts(s[1..], x);
      var rest := RemoveAll(s[1..], x);
      assert s[0] !in s[1..];
      assert multiset(s[1..])[s[0]] == 0;
      assert s[0] != x ==> multiset(rest)[s[0]] == 0;
    }
  }

  /** `handleTableToggle`'s new list: drop the id if it is selected, otherwise append it. */
  function Toggled<T(==)>(selected: seq<T>, id: T): (r: seq<T>)
    ensures id !in selected ==> r == selected + [id]
    ensures id in selected ==> id !in r
  {
    if id in selected then RemoveAll(selected, id) else selected + [id]
  }

  /** Deselecting keeps every other selected id, as often as it was there. */
  lemma ToggledCounts<T>(selected: seq<T>, id: T)
    requires id in selected
    ensures multiset(Toggled(selected, id)) == multiset(selected)[id := 0]
  {
    RemoveAllCounts(selected, id);
  }

  /** Toggling keeps the selection free of duplicates. */
  lemma ToggledNoDuplicates<T>(selected: seq<T>, id: T)
    requires NoDuplicates(selected)
    ensures NoDuplicates(Toggled(selected, id))
  {
    if id in selected {
      RemoveAllNoDuplicates(selected, id);
    }
  }

  lemma RemoveAllSingleton<T>(x: T)
    ensures RemoveAll([x], x) == []
  {
    assert [x][1..] == [];
  }

  /** Filtering out an id that occurs once, between `before` and `after`, leaves `before + after`. */
  lemma RemoveAllMiddle<T>(before: seq<T>, id: T, after: seq<T>)
    requires id !in before && id !in after
    ensures RemoveAll(before + [id] + after, id) == before + after
  {
    RemoveAllSingleton(id);
    RemoveAllConcat(before, [id], id);
    RemoveAbsent(before, id);
    assert RemoveAll(before + [id], id) == before;
    RemoveAllConcat(before + [id], after, id);
    RemoveAbsent(after, id);
  }

  /** Toggling a selected id removes it from where it stood and keeps the others in order. */
  lemma ToggledRemovesInPlace<T>(before: seq<T>, id: T, after: seq<T>)
    requires id !in before && id !in after
    ensures Toggled(before + [id] + after, id) == before + after
  {
    var s := before + [id] + after;
    assert s[|before|] == id;
    RemoveAllMiddle(before, id, after);
  }

  /** Toggling an unselected id twice restores the selection. */
  lemma ToggledTwice<T>(selected: seq<T>, id: T)
    requires id !in selected
    ensures Toggled(Toggled(selected, id), id) == selected
  {
    ToggledRemovesInPlace(selected, id, []);
    assert selected + [id] + [] == selected + [id];
    assert selected + [] == selected;
  }

  /** The values of the page's state fields at one moment. */
  datatype WizardState = WizardState(
    currentStep: int,
    airtableToken: string,
    selectedBase: string,
    selectedTables: seq<string>,
    gristToken: string,
    gristUrl: string,
    isValidatingToken: bool,
    isImporting: bool
  )

  class MigrationWizard {
    var currentStep: int
    var airtableToken: string
    var selectedBase: string
    var selectedTables: seq<string>
    var gristToken: string
    var gristUrl: string
    var isValidatingToken: bool
    var isImporting: bool

    /** The step is one of the five screens and no table is selected twice. */
    ghost predicate Valid()
      reads this
    {
      1 <= currentStep <= 5 && NoDuplicates(selectedTables)
    }

    ghost function State(): WizardState
      reads this
    {
      WizardState(currentStep, airtableToken, selectedBase, selectedTables,
                  gristToken, gristUrl, isValidatingToken, isImporting)
    }

    /** The initial values of the `useState` calls. */
    constructor ()
      ensures Valid()
      ensures State() == WizardState(1, "", "", [], "", "", false, false)
    {
      currentStep := 1;
      airtableToken := "";
      selectedBase := "";
      selectedTables := [];
      gristToken := "";
      gristUrl := "";
      isValidatingToken := false;
      isImporting := false;
    }

    /** The token input's `onChange`. */
    method SetAirtableToken(value: string)
      requires Valid()
      modifies this
      ensures Valid()
      ensures State() == old(State()).(airtableToken := value)
    {
      airtableToken := value;
    }

    /** The Grist URL input's `onChange`. */
    method SetGristUrl(value: string)
      requires Valid()
      modifies this
      ensures Valid()
      ensures State() == old(State()).(gristUrl := value)
    {
      gristUrl := value;
    }

    /** The Grist token input's `onChange`. */
    method SetGristToken(value: string)
      requires Valid()
      modifies this
      ensures Valid()
      ensures State() == old(State()).(gristToken := value)
    {
      gristToken := value;
    }

    /**
     * `handleTokenValidation`: a blank token changes nothing; otherwise the busy
     * flag is raised and lowered around the (simulated) check and step 2 follows.
     */
    method HandleTokenValidation()
      requires Valid()
      modifies this
      ensures Valid()
      ensures IsBlank(old(airtableToken)) ==> State() == old(State())
      ensures !IsBlank(old(airtableToken)) ==>
        State() == old(State()).(currentStep := 2, isValidatingToken := false)
    {
      if IsBlank(airtableToken) {
        return;
      }
      isValidatingToken := true;
      isValidatingToken := false;
      currentStep := 2;
    }

    /** `handleBaseSelection`: records the base and moves to step 3, unconditionally. */
    method HandleBaseSelection(baseId: string)
      requires Valid()
      modifies this
      ensures Valid()
      ensures State() == old(State()).(selectedBase := baseId, currentStep := 3)
    {
      selectedBase := baseId;
      currentStep := 3;
    }

    /** `handleTableToggle`: selects or deselects one table. */
    method HandleTableToggle(tableId: string)
      requires Valid()
      modifies this
      ensures Valid()
      ensures State() == old(State()).(selectedTables := Toggled(old(selectedTables), tableId))
    {
      ToggledNoDuplicates(selectedTables, tableId);
      selectedTables := Toggled(selectedTables, tableId);
    }

    /** `handleProceedToGrist`: step 4 when at least one table is selected, otherwise nothing. */
    method HandleProceedToGrist()
      requires Valid()
      modifies this
      ensures Valid()
      ensures old(selectedTables) == [] ==> State() == old(State())
      ensures old(selectedTables) != [] ==> State() == old(State()).(currentStep := 4)
    {
      if |selectedTables| == 0 {
        return;
      }
      currentStep := 4;
    }

    /**
     * `handleFreeFromAirtable`: nothing unless both Grist inputs are non-blank;
     * then the import flag is raised and lowered around the (simulated) import
     * and step 5 follows.
     */
    method HandleFreeFromAirtable()
      requires Valid()
      modifies this
      ensures Valid()
      ensures (IsBlank(old(gristToken)) || IsBlank(old(gristUrl))) ==> State() == old(State())
      ensures !IsBlank(old(gristToken)) && !IsBlank(old(gristUrl)) ==>
        State() == old(State()).(currentStep := 5, isImporting := false)
    {
      if IsBlank(gristToken) || IsBlank(gristUrl) {
        return;
      }
      isImporting := true;
      isImporting := false;
      currentStep := 5;
    }

    /**
     * `getStepProgress`: the share of the five steps reached, in percent,
     * capped at 100. On the five valid steps the division is exact.
     */
    function StepProgress(): (p: int)
      reads this
      requires Valid()
      ensures 20 <= p <= 100
      ensures p * 5 == currentStep * 100
      ensures p == 100 <==> currentStep == 5
    {
      var share := currentStep * 100 / 5;
      if share < 100 then share else 100
    }

    /** `resetFlow`: back to step 1 with every input cleared; the busy flags are left as they are. */
    method ResetFlow()
      requires Valid()
      modifies this
      ensures Valid()
      ensures State() == old(State()).(currentStep := 1, airtableToken := "", selectedBase := "",
                                       selectedTables := [], gristToken := "", gristUrl := "")
    {
      currentStep := 1;
      airtableToken := "";
      selectedBase := "";
      selectedTables := [];
      gristToken := "";
      gristUrl := "";
    }
  }
}
