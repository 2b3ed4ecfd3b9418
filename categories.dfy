/**
 * The stored category set (the string-set preference "categories") and
 * the two edits the categories screen makes to it.
 */
module Categories {
  import opened Text
  import opened Wrappers

  /** What the add action lets into the set: non-empty, no surrounding whitespace. */
  predicate IsCategoryName(name: string) {
    name != [] && IsTrimmed(name)
  }

  /** Every stored name could have come from the add action. */
  ghost predicate AllNames(stored: set<string>) {
    forall name :: name in stored ==> IsCategoryName(name)
  }

  /**
   * Submitting `input`: blank input is ignored, otherwise the trimmed
   * text is unioned into the set.
   */
  function AddCategory(stored: set<string>, input: string): (r: set<string>)
    ensures IsBlank(input) ==> r == stored
    ensures !IsBlank(input) ==>
      IsCategoryName(Trim(input)) && Trim(input) in r && r - {Trim(input)} == stored - {Trim(input)}
    ensures Trim(input) in stored ==> r == stored
    ensures AllNames(stored) ==> AllNames(r)
  {
    if IsBlank(input) then stored else stored + {Trim(input)}
  }

  /** Pressing "Eliminar" on `name`: the exact string is subtracted. */
  function RemoveCategory(stored: set<string>, name: string): (r: set<string>)
    ensures name !in r
    ensures forall other :: other != name ==> (other in r <==> other in stored)
    ensures name !in stored ==> r == stored
    ensures AllNames(stored) ==> AllNames(r)
  {
    stored - {name}
  }

  /** One user edit on the categories screen. */
  datatype Edit = Add(input: string) | Remove(name: string)

  function ApplyEdit(stored: set<string>, e: Edit): set<string> {
    match e
    case Add(input) => AddCategory(stored, input)
    case Remove(name) => RemoveCategory(stored, name)
  }

  /** The edits applied in order, each to the set the previous one left. */
  function ApplyEdits(stored: set<string>, edits: seq<Edit>): set<string>
  {
    if edits == [] then stored
    else ApplyEdit(ApplyEdits(stored, edits[..|edits| - 1]), edits[|edits| - 1])
  }

  /** Whatever edits were made, starting from the empty preference, every
      stored name is non-empty and trimmed. */
  lemma {:induction false} EditsKeepNames(stored: set<string>, edits: seq<Edit>)
    requires AllNames(stored)
    ensures AllNames(ApplyEdits(stored, edits))
  {
    if edits != [] {
      EditsKeepNames(stored, edits[..|edits| - 1]);
    }
  }

  /** Adding a name that was not there and then removing it restores the set. */
  lemma RemoveUndoesAdd(stored: set<string>, input: string)
    requires !IsBlank(input) && Trim(input) !in stored
    ensures RemoveCategory(AddCategory(stored, input), Trim(input)) == stored
  {
  }

  /**
   * The last edit that mentions a name decides whether it is stored:
   * a name is in the result exactly when the last edit naming it adds it,
   * or no edit names it and it was stored before.
   */
  lemma {:induction false} LastEditDecides(stored: set<string>, edits: seq<Edit>, name: string)
    ensures name in ApplyEdits(stored, edits) <==>
      match LastMention(edits, name)
      case None => name in stored
      case Some(k) => edits[k].Add?
  {
    if edits != [] {
      var pre, e := edits[..|edits| - 1], edits[|edits| - 1];
      LastEditDecides(stored, pre, name);
      if !Mentions(e, name) {
        assert name in ApplyEdits(stored, edits) <==> name in ApplyEdits(stored, pre);
        match LastMention(pre, name)
        case None =>
        case Some(k) => assert edits[k] == pre[k];
      }
    }
  }

  /** Whether edit `e` decides the membership of `name`. */
  predicate Mentions(e: Edit, name: string) {
    match e
    case Add(input) => !IsBlank(input) && Trim(input) == name
    case Remove(n) => n == name
  }

  /** The index of the last edit that mentions `name`, if any. */
  function LastMention(edits: seq<Edit>, name: string): (k: Option<nat>)
    ensures k.Some? ==> k.value < |edits| && Mentions(edits[k.value], name)
    ensures k.Some? ==> forall i :: k.value < i < |edits| ==> !Mentions(edits[i], name)
    ensures k.None? ==> forall i :: 0 <= i < |edits| ==> !Mentions(edits[i], name)
  {
    if edits == [] then None
    else if Mentions(edits[|edits| - 1], name) then Some(|edits| - 1)
    else
      var pre := edits[..|edits| - 1];
      assert forall i :: 0 <= i < |pre| ==> pre[i] == edits[i];
      LastMention(pre, name)
  }
}
