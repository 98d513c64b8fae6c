/**
 * Lists of optional key/value entries folded into a dictionary the way an
 * in-order loop of `dict[key] = value` assignments builds it.
 */
module Assoc {
  import opened Wrappers

  /** The entries in order folded into one map, later ones overriding earlier ones. */
  function Merge(es: seq<Option<(string, string)>>): map<string, string>
    decreases |es|
  {
    if es == [] then map[]
    else
      var before := Merge(es[..|es| - 1]);
      var e := es[|es| - 1];
      if e.Some? then before[e.value.0 := e.value.1] else before
  }

  /** One more entry updates the map by that entry alone. */
  lemma MergeStep(es: seq<Option<(string, string)>>, i: nat)
    requires i < |es|
    ensures Merge(es[..i + 1]) == if es[i].Some? then Merge(es[..i])[es[i].value.0 := es[i].value.1] else Merge(es[..i])
  {
    assert es[..i + 1][..i] == es[..i];
  }

  /** A key is in the merged map exactly when some entry has it. */
  lemma {:induction false} MergeKeys(es: seq<Option<(string, string)>>, k: string)
    ensures k in Merge(es) <==> exists i :: 0 <= i < |es| && es[i].Some? && es[i].value.0 == k
    decreases |es|
  {
    if es != [] {
      var init := es[..|es| - 1];
      MergeKeys(init, k);
      if exists i :: 0 <= i < |init| && init[i].Some? && init[i].value.0 == k {
        var i :| 0 <= i < |init| && init[i].Some? && init[i].value.0 == k;
        assert es[i] == init[i];
      }
      if exists i :: 0 <= i < |es| && es[i].Some? && es[i].value.0 == k {
        var i :| 0 <= i < |es| && es[i].Some? && es[i].value.0 == k;
        if i < |init| {
          assert init[i] == es[i];
        }
      }
    }
  }

  /** An entry's value survives when no later entry has its key. */
  lemma {:induction false} MergeLast(es: seq<Option<(string, string)>>, i: nat)
    requires i < |es| && es[i].Some?
    requires forall j :: i < j < |es| ==> es[j].None? || es[j].value.0 != es[i].value.0
    ensures es[i].value.0 in Merge(es) && Merge(es)[es[i].value.0] == es[i].value.1
    decreases |es|
  {
    var init := es[..|es| - 1];
    if i < |es| - 1 {
      assert init[i] == es[i];
      forall j | i < j < |init| ensures init[j].None? || init[j].value.0 != init[i].value.0 {
        assert init[j] == es[j];
      }
      MergeLast(init, i);
    }
  }

  /** Every value in the merged map is the value of some entry with its key. */
  lemma {:induction false} MergeValue(es: seq<Option<(string, string)>>, k: string)
    requires k in Merge(es)
    ensures exists i :: 0 <= i < |es| && es[i] == Some((k, Merge(es)[k]))
    decreases |es|
  {
    var init := es[..|es| - 1];
    var e := es[|es| - 1];
    if !(e.Some? && e.value.0 == k) {
      MergeValue(init, k);
      var i :| 0 <= i < |init| && init[i] == Some((k, Merge(init)[k]));
      assert es[i] == init[i];
    }
  }
}
