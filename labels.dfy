/**
 * Floating labels: every `.field input` and `.field textarea` carries a `filled`
 * class, set when its trimmed value is non-empty (on `input`, on `blur` and once
 * at page load), always set on `focus`, and cleared for all fields after a
 * successful submission.
 */
module Labels {
  import opened Text

  /** The `check` handler's verdict: the field counts as filled. */
  predicate Filled(value: string) {
    !IsBlank(value)
  }

  /** A value is filled exactly when it holds a character that is not white space. */
  lemma FilledIff(value: string)
    ensures Filled(value) <==> exists i :: 0 <= i < |value| && !IsSpace(value[i])
  {
  }

  /**
   * The fields in document order: their values, whether each has the `filled`
   * class, and the default values `form.reset()` restores.
   */
  class FieldList {
    var values: seq<string>
    var filled: seq<bool>
    const defaults: seq<string>

    ghost predicate Valid()
      reads this
    {
      |values| == |filled| == |defaults|
    }

    /** Field `i` shows `filled` exactly as `check` would decide now. */
    predicate Checked(i: nat)
      reads this
      requires Valid() && i < |values|
    {
      filled[i] == Filled(values[i])
    }

    /** Page load: the `forEach` that wires the handlers runs `check()` on every field. */
    constructor (values: seq<string>, defaults: seq<string>)
      requires |values| == |defaults|
      ensures Valid() && this.values == values && this.defaults == defaults
      ensures forall i :: 0 <= i < |values| ==> Checked(i)
    {
      this.values := values;
      this.defaults := defaults;
      filled := seq(|values|, _ => false);
      new;
      var i := 0;
      while i < |values|
        invariant 0 <= i <= |values|
        invariant Valid() && this.values == values && this.defaults == defaults
        invariant forall k :: 0 <= k < i ==> filled[k] == Filled(values[k])
      {
        Check(i);
        i := i + 1;
      }
    }

    /** `check` for field `i`: add `filled` when the trimmed value is non-empty, remove it otherwise. */
    method Check(i: nat)
      requires Valid() && i < |values|
      modifies this
      ensures Valid() && values == old(values)
      ensures filled == old(filled)[i := Filled(values[i])]
    {
      if Filled(values[i]) {
        filled := filled[i := true];
      } else {
        filled := filled[i := false];
      }
    }

    /** The user types: field `i` now holds `value` and the `input` handler runs `check`. */
    method Input(i: nat, value: string)
      requires Valid() && i < |values|
      modifies this
      ensures Valid() && values == old(values)[i := value]
      ensures filled == old(filled)[i := Filled(value)]
    {
      values := values[i := value];
      Check(i);
    }

    /** The field loses focus: the `blur` handler runs `check`. */
    method Blur(i: nat)
      requires Valid() && i < |values|
      modifies this
      ensures Valid() && values == old(values)
      ensures filled == old(filled)[i := Filled(values[i])]
    {
      Check(i);
    }

    /** The field gains focus: `filled` is added whatever the value. */
    method Focus(i: nat)
      requires Valid() && i < |values|
      modifies this
      ensures Valid() && values == old(values)
      ensures filled == old(filled)[i := true]
    {
      filled := filled[i := true];
    }

    /** After a successful send: `form.reset()`, then `filled` is removed from every field. */
    method Reset()
      requires Valid()
      modifies this
      ensures Valid() && values == defaults
      ensures forall i :: 0 <= i < |filled| ==> !filled[i]
    {
      values := defaults;
      var i := 0;
      while i < |filled|
        invariant 0 <= i <= |filled|
        invariant Valid() && values == defaults
        invariant forall k :: 0 <= k < i ==> !filled[k]
      {
        filled := filled[i := false];
        i := i + 1;
      }
    }
  }
}
