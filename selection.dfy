/**
 * Which category is selected on the recorder screen. Two pieces of state
 * take part: the process-wide `selectedCategory` and the dropdown's own
 * remembered `current`. The collector of the stored set writes only the
 * first; the dropdown's effect, run with each new options list, and a click
 * on an option write both.
 */
module Selection {
  import opened Text
  import Categories
  import Display

  datatype Picker = Picker(current: string, selected: string)

  /** The recorder screen's collector: a blank selection takes the first
      sorted option, if there is one. */
  function AutoSelect(selected: string, sorted: seq<string>): (r: string)
    ensures IsBlank(selected) && sorted != [] ==> r == sorted[0]
    ensures !IsBlank(selected) ==> r == selected
    ensures IsBlank(selected) && sorted == [] ==> r == selected
  {
    if IsBlank(selected) && sorted != [] then sorted[0] else selected
  }

  /**
   * The dropdown's reconciliation rule for `current`: a blank selection takes
   * the first option; a selection that is no longer offered is cleared.
   */
  function Reconcile(current: string, options: seq<string>): (r: string)
    ensures r == "" || r in options
    ensures IsBlank(current) && options != [] ==> r == options[0]
    ensures !IsBlank(current) && current in options ==> r == current
    ensures !IsBlank(current) && current !in options ==> r == ""
    ensures IsBlank(current) && options == [] ==> r == ""
  {
    if IsBlank(current) && options != [] then options[0]
    else if current !in options then ""
    else current
  }

  /** The dropdown's effect: `current` reconciled; `selectedCategory`
      set to it on the two branches that write it, and left as it was on
      the branch that writes nothing. */
  function DropdownEffect(p: Picker, options: seq<string>): (r: Picker)
    ensures r.current == Reconcile(p.current, options)
    ensures r.selected == if (IsBlank(p.current) && options != []) || p.current !in options
      then r.current else p.selected
  {
    var c := Reconcile(p.current, options);
    if (IsBlank(p.current) && options != []) || p.current !in options then Picker(c, c)
    else p
  }

  /** A click on option `opt`. */
  function Choose(p: Picker, opt: string): (r: Picker)
    ensures r.current == opt && r.selected == opt
  {
    Picker(opt, opt)
  }

  /** When every option is a category name, a selection that is offered is kept. */
  lemma OfferedSelectionKept(current: string, options: seq<string>)
    requires forall k :: 0 <= k < |options| ==> Categories.IsCategoryName(options[k])
    requires current in options
    ensures Reconcile(current, options) == current
  {
    var k :| 0 <= k < |options| && options[k] == current;
    assert !IsBlank(current) by { assert !IsWhitespace(current[0]); }
  }

  /**
   * One emission of the stored set, as the recorder screen reacts to it:
   * the collector sorts it and auto-selects, then the dropdown reconciles
   * against the new list. Starting from a picker whose two fields agree and
   * a set of category names: they still agree; the selection is either
   * empty or stored; a stored selection is kept; a blank one becomes the
   * first option, which is at or below every stored name in case-insensitive
   * order and, among the stored names equal to it ignoring case, the one
   * listed first in iteration order; one that was removed is cleared.
   */
  lemma {:induction false} OnEmission(p: Picker, stored: set<string>, iteration: seq<string>)
    requires p.current == p.selected
    requires Categories.AllNames(stored) && Display.Enumerates(iteration, stored)
    ensures var options := Display.RecorderOptions(stored, iteration);
      var r := DropdownEffect(Picker(p.current, AutoSelect(p.selected, options)), options);
      && r.current == r.selected
      && (r.selected == "" || r.selected in stored)
      && (p.selected in stored ==> r.selected == p.selected)
      && (IsBlank(p.selected) && stored != {} ==>
            && r.selected == options[0]
            && (forall x :: x in stored ==> Compare(r.selected, x) <= 0)
            && (forall i, j :: 0 <= i < j < |iteration| && iteration[j] == r.selected ==>
                  !EqualsIgnoreCase(iteration[i], r.selected)))
      && (!IsBlank(p.selected) && p.selected !in stored ==> r.selected == "")
  {
    var options := Display.RecorderOptions(stored, iteration);
    if p.selected in stored {
      assert Categories.IsCategoryName(p.selected);
      assert !IsBlank(p.selected) by { assert !IsWhitespace(p.selected[0]); }
    }
    if stored != {} {
      Display.FirstOptionListedFirst(stored, iteration);
      forall x | x in stored ensures Compare(options[0], x) <= 0 {
        var k :| 0 <= k < |options| && options[k] == x;
        if k == 0 {
          assert EqualsIgnoreCase(x, x);
        }
      }
    }
  }

  /**
   * When the dropdown is composed afresh (returning to the recorder tab),
   * its first effect runs with the initial empty options list: whatever was
   * selected is cleared, so the next emission selects the first option
   * again.
   */
  lemma FirstEffectClears(p: Picker, sorted: seq<string>)
    requires sorted != []
    ensures DropdownEffect(p, []) == Picker("", "")
    ensures AutoSelect(DropdownEffect(p, []).selected, sorted) == sorted[0]
  {
  }
}
