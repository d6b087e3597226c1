/** Selecting and deselecting the profile's types (`toggleType`): at most two
    types are kept, in the order they were picked. */
module Types {
  import opened Catalog

  predicate NoDuplicates(ts: seq<string>) {
    forall i, j :: 0 <= i < j < |ts| ==> ts[i] != ts[j]
  }

  /** `ts.filter((x) => x !== t)`. */
  function Without(ts: seq<string>, t: string): (r: seq<string>)
    ensures |r| <= |ts|
    ensures forall x :: x in r <==> x in ts && x != t
    ensures NoDuplicates(ts) ==> NoDuplicates(r)
    decreases |ts|
  {
    if ts == [] then []
    else if ts[0] == t then Without(ts[1..], t)
    else
      var rest := Without(ts[1..], t);
      assert NoDuplicates(ts) ==> ts[0] !in ts[1..] && NoDuplicates(ts[1..]);
      [ts[0]] + rest
  }

  /** The state updater of `toggleType(t)`: a selected type is removed, an
      unselected one is appended, and with two or more already selected the
      first is dropped to make room. */
  function Toggled(ts: seq<string>, t: string): (r: seq<string>)
    ensures t in r <==> t !in ts
    ensures forall x :: x != t && x in r ==> x in ts
    ensures |r| <= 2 || |r| <= |ts|
  {
    if t in ts then Without(ts, t)
    else if |ts| >= 2 then [ts[1], t]
    else ts + [t]
  }

  /** Toggling a selected type removes every occurrence of it and keeps the rest. */
  lemma ToggleRemovesSelected(ts: seq<string>, t: string)
    requires t in ts
    ensures t !in Toggled(ts, t)
    ensures forall x :: x != t ==> (x in Toggled(ts, t) <==> x in ts)
  {
  }

  /** Toggling an unselected type selects it, as the last entry, after the
      earlier picks when there is room and after the second pick otherwise;
      the selection never grows beyond two. */
  lemma ToggleAddsUnselected(ts: seq<string>, t: string)
    requires t !in ts
    ensures |Toggled(ts, t)| == (if |ts| >= 2 then 2 else |ts| + 1)
    ensures Toggled(ts, t)[|Toggled(ts, t)| - 1] == t
    ensures |ts| < 2 ==> Toggled(ts, t)[..|ts|] == ts
    ensures |ts| >= 2 ==> Toggled(ts, t)[0] == ts[1]
  {
  }

  /** The selection stays a duplicate-free list of at most two types. */
  lemma {:induction false} TogglePreservesSelection(ts: seq<string>, t: string)
    requires |ts| <= 2 && NoDuplicates(ts)
    ensures |Toggled(ts, t)| <= 2 && NoDuplicates(Toggled(ts, t))
  {
    if t !in ts && |ts| >= 2 {
      assert ts[1] in ts;
    }
  }

  /** Toggling catalog types only ever yields catalog types. */
  lemma ToggleKeepsCatalogTypes(ts: seq<string>, t: string)
    requires forall x :: x in ts ==> x in ALL_TYPES
    requires t in ALL_TYPES
    ensures forall x :: x in Toggled(ts, t) ==> x in ALL_TYPES
  {
  }

  /** Toggling the same type twice from a selection with room restores it. */
  lemma ToggleTwiceRestores(ts: seq<string>, t: string)
    requires t !in ts && |ts| < 2
    ensures Toggled(Toggled(ts, t), t) == ts
  {
    var r := Toggled(ts, t);
    assert r == ts + [t];
    if ts == [] {
      assert r == [t];
    } else {
      assert r == [ts[0], t];
      assert Without(r, t) == [ts[0]] + Without([t], t);
    }
  }
}
