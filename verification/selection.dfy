/** The comparison selector: a list of at most five asset ids, toggled one
    at a time. */
module Selection {

  /** At most this many assets can be compared at once. */
  const MaxCompared: nat := 5

  predicate Distinct(sel: seq<string>)
  {
    forall i, j :: 0 <= i < j < |sel| ==> sel[i] != sel[j]
  }

  /** What toggling maintains: the cap and no id twice. */
  predicate ValidSelection(sel: seq<string>)
  {
    |sel| <= MaxCompared && Distinct(sel)
  }

  /** `sel.filter(x => x !== id)`. */
  function Without(sel: seq<string>, id: string): (r: seq<string>)
    ensures forall x :: x in r <==> x in sel && x != id
    ensures |r| <= |sel|
  {
    if |sel| == 0 then []
    else (if sel[0] != id then [sel[0]] else []) + Without(sel[1..], id)
  }

  lemma {:induction false} WithoutAppend(a: seq<string>, c: seq<string>, id: string)
    ensures Without(a + c, id) == Without(a, id) + Without(c, id)
    decreases |a|
  {
    if |a| == 0 {
      assert a + c == c;
    } else {
      assert (a + c)[1..] == a[1..] + c;
      WithoutAppend(a[1..], c, id);
    }
  }

  lemma {:induction false} WithoutAbsent(sel: seq<string>, id: string)
    requires id !in sel
    ensures Without(sel, id) == sel
    decreases |sel|
  {
    if |sel| > 0 {
      WithoutAbsent(sel[1..], id);
      assert sel == [sel[0]] + sel[1..];
    }
  }

  lemma {:induction false} WithoutKeepsDistinct(sel: seq<string>, id: string)
    requires Distinct(sel)
    ensures Distinct(Without(sel, id))
    decreases |sel|
  {
    if |sel| > 0 {
      WithoutKeepsDistinct(sel[1..], id);
      var t := Without(sel[1..], id);
      var r := Without(sel, id);
      if sel[0] != id {
        forall j | 0 < j < |r|
          ensures r[0] != r[j]
        {
          assert r[j] in t;
          assert r[j] in sel[1..];
        }
      }
    }
  }

  /** Selecting or deselecting one asset: a selected id is removed
      everywhere, an unselected one is appended unless five are selected. */
  function Toggle(sel: seq<string>, id: string): (r: seq<string>)
    ensures id in sel ==> r == Without(sel, id) && id !in r
    ensures id !in sel && |sel| < MaxCompared ==> r == sel + [id]
    ensures id !in sel && |sel| >= MaxCompared ==> r == sel
  {
    if id in sel then Without(sel, id)
    else if |sel| >= MaxCompared then sel
    else sel + [id]
  }

  lemma ToggleKeepsValid(sel: seq<string>, id: string)
    requires ValidSelection(sel)
    ensures ValidSelection(Toggle(sel, id))
  {
    if id in sel {
      WithoutKeepsDistinct(sel, id);
    }
  }

  /** Toggling an unselected id twice, with room for it, restores the selection. */
  lemma ToggleTwiceRestores(sel: seq<string>, id: string)
    requires id !in sel && |sel| < MaxCompared
    ensures Toggle(Toggle(sel, id), id) == sel
  {
    WithoutAppend(sel, [id], id);
    WithoutAbsent(sel, id);
    assert Without([id], id) == [] by {
      assert [id][1..] == [];
    }
  }

  /** The cleared selection: valid, empty, and toggling any id into it
      selects just that id. */
  function ClearAll(): (r: seq<string>)
    ensures ValidSelection(r)
    ensures forall id :: id !in r
    ensures forall id :: Toggle(r, id) == [id]
  {
    []
  }
}
