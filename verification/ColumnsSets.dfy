/**
  Column sets: from a column tree and the set of columns to show, which columns are recorded as
  hidden. A column's index is its data index with the parts joined by commas; a column may have
  none, and an empty one counts as none.
*/
module ColumnsSets {
  import opened Common

  datatype Column = Column(index: Option<string>, children: seq<Column>)

  predicate Indexed(c: Column) {
    c.index.Some? && c.index.value != ""
  }

  // A column stays visible if it has an index and is shown itself or has a visible child.
  predicate Visible(c: Column, shown: set<string>) {
    Indexed(c) && (c.index.value in shown || AnyVisible(c.children, shown))
  }

  predicate AnyVisible(cs: seq<Column>, shown: set<string>) {
    exists c | c in cs :: Visible(c, shown)
  }

  // The indices of the columns of the trees that are not visible.
  function Hidden(cs: seq<Column>, shown: set<string>): set<string> {
    if cs == [] then {}
    else Hidden(cs[..|cs| - 1], shown) + HiddenOf(cs[|cs| - 1], shown)
  }

  function HiddenOf(c: Column, shown: set<string>): set<string> {
    Hidden(c.children, shown) + if Indexed(c) && !Visible(c, shown) then {c.index.value} else {}
  }

  // The state object that the recursion fills: for each column recorded, whether it is shown.
  class ColumnsState {
    var show: map<string, bool>

    constructor ()
      ensures show == map[]
    {
      show := map[];
    }
  }

  function Hide(show: map<string, bool>, hidden: set<string>): map<string, bool> {
    show + map k | k in hidden :: false
  }

  lemma HideTwice(show: map<string, bool>, a: set<string>, b: set<string>)
    ensures Hide(Hide(show, a), b) == Hide(show, a + b)
  {
  }

  // The state gains the given indices, each as not shown, and nothing else changes.
  predicate Gains(before: map<string, bool>, after: map<string, bool>, hidden: set<string>) {
    && after.Keys == before.Keys + hidden
    && forall k | k in after :: after[k] == if k in hidden then false else before[k]
  }

  // Records exactly the hidden columns, each as not shown, and nothing else.
  method GetColumnsStates(columns: seq<Column>, shownCols: set<string>, state: ColumnsState)
      returns (someColumnsShown: bool)
    modifies state
    ensures state.show == Hide(old(state.show), Hidden(columns, shownCols))
    ensures Gains(old(state.show), state.show, Hidden(columns, shownCols))
    ensures someColumnsShown <==> AnyVisible(columns, shownCols)
    decreases columns
  {
    someColumnsShown := false;
    for i := 0 to |columns|
      invariant state.show == Hide(old(state.show), Hidden(columns[..i], shownCols))
      invariant someColumnsShown <==> AnyVisible(columns[..i], shownCols)
    {
      var col := columns[i];
      assert columns[..i + 1][..i] == columns[..i];
      assert columns[..i + 1] == columns[..i] + [col];
      HideTwice(old(state.show), Hidden(columns[..i], shownCols), HiddenOf(col, shownCols));
      var columnShown := VisitColumn(col, shownCols, state);
      if columnShown {
        someColumnsShown := true;
      }
    }
    assert columns[..|columns|] == columns;
  }

  // The body of the loop for one column.
  method VisitColumn(col: Column, shownCols: set<string>, state: ColumnsState) returns (columnShown: bool)
    modifies state
    ensures state.show == Hide(old(state.show), HiddenOf(col, shownCols))
    ensures Gains(old(state.show), state.show, HiddenOf(col, shownCols))
    ensures columnShown <==> Visible(col, shownCols)
    decreases col
  {
    var childrenColumnsShown := false;
    if col.children != [] {
      var someChildrenShown := GetColumnsStates(col.children, shownCols, state);
      if someChildrenShown {
        childrenColumnsShown := true;
      }
    }
    ghost var below := Hidden(col.children, shownCols);
    assert state.show == Hide(old(state.show), below);
    assert childrenColumnsShown <==> AnyVisible(col.children, shownCols);
    assert below + {} == below;
    columnShown := false;
    if col.index.Some? && col.index.value != "" {
      if col.index.value in shownCols || childrenColumnsShown {
        columnShown := true;
      } else {
        HideTwice(old(state.show), below, {col.index.value});
        assert !Visible(col, shownCols);
        assert state.show[col.index.value := false] == Hide(state.show, {col.index.value});
        state.show := state.show[col.index.value := false];
      }
    }
  }

  // ----- What visibility means -----

  // All columns of the trees.
  function Nodes(cs: seq<Column>): set<Column> {
    if cs == [] then {} else Nodes(cs[..|cs| - 1]) + {cs[|cs| - 1]} + Nodes(cs[|cs| - 1].children)
  }

  function Indices(c: Column): set<string> {
    (if Indexed(c) then {c.index.value} else {}) + IndicesOf(c.children)
  }

  function IndicesOf(cs: seq<Column>): set<string> {
    if cs == [] then {} else IndicesOf(cs[..|cs| - 1]) + Indices(cs[|cs| - 1])
  }

  // The indices of a subtree that are reached from its root through columns with an index.
  function Reached(c: Column): set<string> {
    if Indexed(c) then {c.index.value} + ReachedOf(c.children) else {}
  }

  function ReachedOf(cs: seq<Column>): set<string> {
    if cs == [] then {} else ReachedOf(cs[..|cs| - 1]) + Reached(cs[|cs| - 1])
  }

  lemma {:induction false} VisibleIffReached(c: Column, shown: set<string>)
    ensures Visible(c, shown) <==> Reached(c) * shown != {}
    decreases c, 1
  {
    AnyVisibleIffReached(c.children, shown, c);
    if Indexed(c) {
      assert Reached(c) * shown == ({c.index.value} * shown) + (ReachedOf(c.children) * shown);
      if c.index.value in shown {
        assert c.index.value in {c.index.value} * shown;
      } else {
        assert {c.index.value} * shown == {};
      }
    }
  }

  lemma {:induction false} AnyVisibleIffReached(cs: seq<Column>, shown: set<string>, parent: Column)
    requires forall c | c in cs :: c in parent.children
    ensures AnyVisible(cs, shown) <==> ReachedOf(cs) * shown != {}
    decreases parent, 0, |cs|
  {
    if cs != [] {
      var init, last := cs[..|cs| - 1], cs[|cs| - 1];
      assert cs == init + [last];
      AnyVisibleIffReached(init, shown, parent);
      assert last in cs;
      VisibleIffReached(last, shown);
      assert ReachedOf(cs) * shown == (ReachedOf(init) * shown) + (Reached(last) * shown);
    }
  }

  // A column is visible whenever some column of its subtree is shown, for every choice of shown
  // columns, exactly when every index of the subtree is reached: a group without an index cuts
  // off the columns below it from their ancestors.
  lemma VisibleMeansSubtreeShownIff(c: Column)
    ensures (forall shown :: Visible(c, shown) <==> Indices(c) * shown != {}) <==> Reached(c) == Indices(c)
  {
    forall shown ensures Visible(c, shown) <==> Reached(c) * shown != {} {
      VisibleIffReached(c, shown);
    }
    ReachedAreIndices(c);
    if Reached(c) != Indices(c) {
      var k :| k in Indices(c) && k !in Reached(c);
      assert k in Indices(c) * {k};
      assert Reached(c) * {k} == {};
      assert !(Visible(c, {k}) <==> Indices(c) * {k} != {});
    }
  }

  lemma {:induction false} ReachedAreIndices(c: Column)
    ensures Reached(c) <= Indices(c)
    decreases c, 1
  {
    ReachedOfAreIndices(c.children, c);
  }

  lemma {:induction false} ReachedOfAreIndices(cs: seq<Column>, parent: Column)
    requires forall c | c in cs :: c in parent.children
    ensures ReachedOf(cs) <= IndicesOf(cs)
    decreases parent, 0, |cs|
  {
    if cs != [] {
      ReachedOfAreIndices(cs[..|cs| - 1], parent);
      assert cs[|cs| - 1] in parent.children;
      ReachedAreIndices(cs[|cs| - 1]);
    }
  }

  predicate AllIndexed(cs: seq<Column>) {
    forall c | c in Nodes(cs) :: Indexed(c)
  }

  lemma {:induction false} AllReached(cs: seq<Column>)
    requires AllIndexed(cs)
    ensures ReachedOf(cs) == IndicesOf(cs)
    ensures forall c | c in cs :: Reached(c) == Indices(c)
    decreases cs
  {
    if cs != [] {
      var init, last := cs[..|cs| - 1], cs[|cs| - 1];
      AllReached(init);
      AllReached(last.children);
      assert last in Nodes(cs);
      forall c | c in cs ensures Reached(c) == Indices(c) {
        assert c in init || c == last;
      }
    }
  }

  lemma {:induction false} NodesClosed(cs: seq<Column>, c: Column)
    requires c in Nodes(cs)
    ensures Nodes([c]) <= Nodes(cs)
    decreases cs
  {
    var init, last := cs[..|cs| - 1], cs[|cs| - 1];
    assert [c][..0] == [];
    if c in Nodes(init) {
      NodesClosed(init, c);
    } else if c != last {
      NodesClosed(last.children, c);
    }
  }

  // The recorded indices are those of the columns that are not visible.
  lemma {:induction false} HiddenMeaning(cs: seq<Column>, shown: set<string>, k: string)
    ensures k in Hidden(cs, shown) <==> exists c | c in Nodes(cs) :: c.index == Some(k) && k != "" && !Visible(c, shown)
    decreases cs
  {
    if cs != [] {
      var init, last := cs[..|cs| - 1], cs[|cs| - 1];
      HiddenMeaning(init, shown, k);
      HiddenMeaning(last.children, shown, k);
      if k in Hidden(cs, shown) && k !in Hidden(init, shown) && k !in Hidden(last.children, shown) {
        assert k in HiddenOf(last, shown);
        assert last in Nodes(cs) && last.index == Some(k) && !Visible(last, shown);
      }
    }
  }

  predicate DistinctIndices(cs: seq<Column>) {
    forall c, d | c in Nodes(cs) && d in Nodes(cs) && c.index == d.index :: c == d
  }

  // For trees of any depth with distinct, non-empty indices: a column is recorded as hidden if and
  // only if no column of its subtree is shown.
  lemma HiddenIffNothingShown(cs: seq<Column>, shown: set<string>, c: Column)
    requires AllIndexed(cs) && DistinctIndices(cs) && c in Nodes(cs)
    ensures c.index.value in Hidden(cs, shown) <==> Indices(c) * shown == {}
  {
    HiddenMeaning(cs, shown, c.index.value);
    NodesClosed(cs, c);
    AllReached([c]);
    VisibleIffReached(c, shown);
    assert c in [c];
  }

  // And the flag returned says whether some column anywhere is shown.
  lemma FlagIffAnythingShown(cs: seq<Column>, shown: set<string>)
    requires AllIndexed(cs)
    ensures AnyVisible(cs, shown) <==> IndicesOf(cs) * shown != {}
  {
    AllReached(cs);
    AnyVisibleIffReached(cs, shown, Column(None, cs));
  }

  // A shown column below a group without an index: its indexed ancestor is hidden all the same.
  lemma UnindexedGroupHidesAncestor()
    ensures var tree := Column(Some("top"), [Column(None, [Column(Some("leaf"), [])])]);
            !Visible(tree, {"leaf"}) && "top" in HiddenOf(tree, {"leaf"}) && "leaf" in Indices(tree)
  {
    var leaf := Column(Some("leaf"), []);
    var group := Column(None, [leaf]);
    assert IndicesOf([leaf]) == Indices(leaf) by { assert [leaf][..0] == []; }
    assert IndicesOf([group]) == Indices(group) by { assert [group][..0] == []; }
  }
}
