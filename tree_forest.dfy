/**
 * Forest materialisation: a flat list of parent-linked rows is turned into a list
 * of root nodes, each holding the ordered list of its children, through one
 * identity map from id to a copy of the row.
 *
 * The JavaScript result is a graph of objects: every copy lives in the identity map
 * and the children lists hold references to copies. The model keeps that graph as
 * it is built: the ids of the roots, the identity map, and for every id the ids of
 * the copies pushed onto its children list.
 */
module TreeForest {
  import opened Collections
  import opened QueryBuilder

  /** A row: the record's fields by name. A field it lacks reads as undefined. */
  type Row = map<string, Value>

  function Get(r: Row, field: string): Value {
    if field in r then r[field] else Undefined
  }

  /** The id, parent-id and children field names of a tree. */
  datatype TreeConfig = TreeConfig(idField: string, parentIdField: string, childrenField: string)

  function IdOf(c: TreeConfig, r: Row): Value {
    Get(r, c.idField)
  }

  function ParentOf(c: TreeConfig, r: Row): Value {
    Get(r, c.parentIdField)
  }

  /** The ids of a list of rows, in order (`rows.map(n => n[idField])`). */
  function Ids(c: TreeConfig, rows: seq<Row>): (ids: seq<Value>)
    ensures |ids| == |rows| && forall i :: 0 <= i < |rows| ==> ids[i] == IdOf(c, rows[i])
  {
    seq(|rows|, i requires 0 <= i < |rows| => IdOf(c, rows[i]))
  }

  /** A row hangs under a parent when its parent id is neither null nor undefined and is the id of a row of the list. */
  predicate HasParentIn(c: TreeConfig, rows: seq<Row>, r: Row) {
    !IsNullish(ParentOf(c, r)) && ParentOf(c, r) in Ids(c, rows)
  }

  /** `{ ...node, [childrenField]: [] }`: a shallow copy with a fresh, empty children list. */
  function Copy(c: TreeConfig, r: Row): Row {
    r[c.childrenField := List([])]
  }

  /** The identity map after its first pass has seen `n` rows: the later copy of an id replaces the earlier one. */
  function CopiesUpTo(c: TreeConfig, rows: seq<Row>, n: nat): map<Value, Row>
    requires n <= |rows|
  {
    if n == 0 then map[] else CopiesUpTo(c, rows, n - 1)[IdOf(c, rows[n - 1]) := Copy(c, rows[n - 1])]
  }

  /** The roots pushed while the second pass has seen `n` rows. */
  function RootsUpTo(c: TreeConfig, rows: seq<Row>, n: nat): seq<Value>
    requires n <= |rows|
  {
    if n == 0 then []
    else RootsUpTo(c, rows, n - 1) + (if HasParentIn(c, rows, rows[n - 1]) then [] else [IdOf(c, rows[n - 1])])
  }

  /** The children pushed onto `k`'s list while the second pass has seen `n` rows. */
  function ChildrenUpTo(c: TreeConfig, rows: seq<Row>, k: Value, n: nat): seq<Value>
    requires n <= |rows|
  {
    if n == 0 then []
    else
      var r := rows[n - 1];
      ChildrenUpTo(c, rows, k, n - 1) + (if HasParentIn(c, rows, r) && ParentOf(c, r) == k then [IdOf(c, r)] else [])
  }

  /** The object graph: the roots, the identity map, and every copy's children list. */
  datatype Forest = Forest(roots: seq<Value>, nodes: map<Value, Row>, children: map<Value, seq<Value>>)

  /** Every key's children list after the second pass has seen `n` rows. */
  function ChildrenMap(c: TreeConfig, rows: seq<Row>, keys: set<Value>, n: nat): map<Value, seq<Value>>
    requires n <= |rows|
  {
    map k | k in keys :: ChildrenUpTo(c, rows, k, n)
  }

  /** The forest `buildTreeStructure` returns for a list of rows. */
  function ForestOf(c: TreeConfig, rows: seq<Row>): Forest {
    var nodes := CopiesUpTo(c, rows, |rows|);
    Forest(RootsUpTo(c, rows, |rows|), nodes, ChildrenMap(c, rows, nodes.Keys, |rows|))
  }

  /** The identity map holds exactly the ids of the rows it has seen, each at a copy of a row with that id. */
  lemma {:induction false} CopiesKeys(c: TreeConfig, rows: seq<Row>, n: nat)
    requires n <= |rows|
    ensures forall k :: k in CopiesUpTo(c, rows, n) <==> k in Ids(c, rows)[..n]
    ensures forall k :: k in CopiesUpTo(c, rows, n) ==> IdOf(c, CopiesUpTo(c, rows, n)[k]) == k || c.childrenField == c.idField
  {
    if n > 0 {
      CopiesKeys(c, rows, n - 1);
      assert Ids(c, rows)[..n] == Ids(c, rows)[..n - 1] + [IdOf(c, rows[n - 1])];
    }
  }

  /** `buildTreeStructure(flatList, config)`: the identity map pass, then the placing pass. */
  method BuildTreeStructure(c: TreeConfig, flatList: seq<Row>) returns (f: Forest)
    ensures f == ForestOf(c, flatList)
  {
    var nodes: map<Value, Row> := map[];
    for i := 0 to |flatList|
      invariant nodes == CopiesUpTo(c, flatList, i)
    {
      nodes := nodes[IdOf(c, flatList[i]) := Copy(c, flatList[i])];
    }
    CopiesKeys(c, flatList, |flatList|);
    assert Ids(c, flatList)[..|flatList|] == Ids(c, flatList);
    var roots, children := PlaceNodes(c, flatList, nodes);
    f := Forest(roots, nodes, children);
  }

  /** The placing pass: each row's copy goes onto its parent's children list, or becomes a root. */
  method PlaceNodes(c: TreeConfig, flatList: seq<Row>, nodes: map<Value, Row>)
    returns (roots: seq<Value>, children: map<Value, seq<Value>>)
    requires forall k :: k in nodes <==> k in Ids(c, flatList)
    ensures roots == RootsUpTo(c, flatList, |flatList|)
    ensures children == ChildrenMap(c, flatList, nodes.Keys, |flatList|)
  {
    roots := [];
    children := map k | k in nodes :: [];
    assert children == ChildrenMap(c, flatList, nodes.Keys, 0);
    for i := 0 to |flatList|
      invariant roots == RootsUpTo(c, flatList, i)
      invariant children == ChildrenMap(c, flatList, nodes.Keys, i)
    {
      var node := flatList[i];
      var parentId := ParentOf(c, node);
      var hasParent := parentId != Null && parentId != Undefined;
      assert hasParent && parentId in nodes <==> HasParentIn(c, flatList, node);
      PlaceStep(c, flatList, nodes.Keys, i);
      if hasParent && parentId in nodes {
        children := children[parentId := children[parentId] + [IdOf(c, node)]];
      } else {
        roots := roots + [IdOf(c, node)];
      }
    }
  }

  /** Placing row `i` appends it to the roots, or to its parent's children list and no other. */
  lemma PlaceStep(c: TreeConfig, rows: seq<Row>, keys: set<Value>, i: nat)
    requires i < |rows|
    ensures RootsUpTo(c, rows, i + 1) == RootsUpTo(c, rows, i) + (if HasParentIn(c, rows, rows[i]) then [] else [IdOf(c, rows[i])])
    ensures var before := ChildrenMap(c, rows, keys, i);
      var p := ParentOf(c, rows[i]);
      ChildrenMap(c, rows, keys, i + 1)
        == if HasParentIn(c, rows, rows[i]) && p in keys then before[p := before[p] + [IdOf(c, rows[i])]] else before
  {
    var before := ChildrenMap(c, rows, keys, i);
    var after := ChildrenMap(c, rows, keys, i + 1);
    var p := ParentOf(c, rows[i]);
    if HasParentIn(c, rows, rows[i]) && p in keys {
      var expected := before[p := before[p] + [IdOf(c, rows[i])]];
      forall k | k in keys ensures after[k] == expected[k] {
        assert ChildrenUpTo(c, rows, k, i + 1)
            == ChildrenUpTo(c, rows, k, i) + (if k == p then [IdOf(c, rows[i])] else []);
      }
      assert after == expected;
    } else {
      forall k | k in keys ensures after[k] == before[k] {
        assert ChildrenUpTo(c, rows, k, i + 1) == ChildrenUpTo(c, rows, k, i) + [];
      }
      assert after == before;
    }
  }

  /** The ids that occur in a list, counted. */
  function Occurrences(ks: seq<Value>, x: Value): nat {
    if |ks| == 0 then 0 else Occurrences(ks[..|ks| - 1], x) + (if ks[|ks| - 1] == x then 1 else 0)
  }

  lemma {:induction false} NoOccurrence(ks: seq<Value>, x: Value)
    requires x !in ks
    ensures Occurrences(ks, x) == 0
  {
    if |ks| > 0 {
      NoOccurrence(ks[..|ks| - 1], x);
    }
  }

  /** In a list without repetition, a member occurs exactly once. */
  lemma {:induction false} OccursOnce(ks: seq<Value>, x: Value)
    requires Distinct(ks) && x in ks
    ensures Occurrences(ks, x) == 1
  {
    var init := ks[..|ks| - 1];
    assert Distinct(init);
    if ks[|ks| - 1] == x {
      NoOccurrence(init, x);
    } else {
      assert x in init;
      OccursOnce(init, x);
    }
  }

  /** The lengths of the children lists of the ids `ks`, summed. */
  function SumChildren(c: TreeConfig, rows: seq<Row>, ks: seq<Value>, n: nat): nat
    requires n <= |rows|
  {
    if |ks| == 0 then 0 else SumChildren(c, rows, ks[..|ks| - 1], n) + |ChildrenUpTo(c, rows, ks[|ks| - 1], n)|
  }

  lemma {:induction false} SumChildrenNone(c: TreeConfig, rows: seq<Row>, ks: seq<Value>)
    ensures SumChildren(c, rows, ks, 0) == 0
  {
    if |ks| > 0 {
      SumChildrenNone(c, rows, ks[..|ks| - 1]);
    }
  }

  /** Placing one more row lengthens the children list of its parent, once per occurrence of the parent among `ks`. */
  lemma {:induction false} SumChildrenStep(c: TreeConfig, rows: seq<Row>, ks: seq<Value>, n: nat)
    requires 0 < n <= |rows|
    ensures SumChildren(c, rows, ks, n)
         == SumChildren(c, rows, ks, n - 1)
            + (if HasParentIn(c, rows, rows[n - 1]) then Occurrences(ks, ParentOf(c, rows[n - 1])) else 0)
  {
    if |ks| > 0 {
      SumChildrenStep(c, rows, ks[..|ks| - 1], n);
    }
  }

  lemma {:induction false} PlacedOnceUpTo(c: TreeConfig, rows: seq<Row>, n: nat)
    requires n <= |rows| && Distinct(Ids(c, rows))
    ensures |RootsUpTo(c, rows, n)| + SumChildren(c, rows, Ids(c, rows), n) == n
  {
    if n == 0 {
      SumChildrenNone(c, rows, Ids(c, rows));
    } else {
      PlacedOnceUpTo(c, rows, n - 1);
      SumChildrenStep(c, rows, Ids(c, rows), n);
      if HasParentIn(c, rows, rows[n - 1]) {
        OccursOnce(Ids(c, rows), ParentOf(c, rows[n - 1]));
      }
    }
  }

  /**
   * With unique ids every copy is placed exactly once: the roots and the children
   * lists of all ids together hold as many entries as there are rows.
   */
  lemma EachPlacedOnce(c: TreeConfig, rows: seq<Row>)
    requires Distinct(Ids(c, rows))
    ensures |ForestOf(c, rows).roots| + SumChildren(c, rows, Ids(c, rows), |rows|) == |rows|
  {
    PlacedOnceUpTo(c, rows, |rows|);
  }

  /** The roots are the ids of the rows with no parent in the list, in input order. */
  lemma {:induction false} RootsMember(c: TreeConfig, rows: seq<Row>, n: nat, x: Value)
    requires n <= |rows|
    ensures x in RootsUpTo(c, rows, n) <==> exists j :: 0 <= j < n && IdOf(c, rows[j]) == x && !HasParentIn(c, rows, rows[j])
  {
    if n > 0 {
      RootsMember(c, rows, n - 1, x);
    }
  }

  /** The children of `k` are the ids of the rows whose parent is `k`, in input order. */
  lemma {:induction false} ChildrenMember(c: TreeConfig, rows: seq<Row>, k: Value, n: nat, x: Value)
    requires n <= |rows|
    ensures x in ChildrenUpTo(c, rows, k, n)
        <==> exists j :: 0 <= j < n && IdOf(c, rows[j]) == x && HasParentIn(c, rows, rows[j]) && ParentOf(c, rows[j]) == k
  {
    if n > 0 {
      ChildrenMember(c, rows, k, n - 1, x);
    }
  }

  /**
   * With unique ids, a row's copy is a root exactly when its parent id is null,
   * undefined, or no row's id (an orphan); otherwise it is among its parent's
   * children and not a root.
   */
  lemma RootIff(c: TreeConfig, rows: seq<Row>, i: nat)
    requires i < |rows| && Distinct(Ids(c, rows))
    ensures IdOf(c, rows[i]) in ForestOf(c, rows).roots <==> !HasParentIn(c, rows, rows[i])
    ensures HasParentIn(c, rows, rows[i]) ==> IdOf(c, rows[i]) in ChildrenUpTo(c, rows, ParentOf(c, rows[i]), |rows|)
  {
    var x := IdOf(c, rows[i]);
    RootsMember(c, rows, |rows|, x);
    ChildrenMember(c, rows, ParentOf(c, rows[i]), |rows|, x);
    assert Ids(c, rows)[i] == x;
    forall j | 0 <= j < |rows| && IdOf(c, rows[j]) == x
      ensures j == i
    {
      assert Ids(c, rows)[j] == x;
    }
  }

  /** A row whose parent id names no row of the list is promoted to a root. */
  lemma OrphanIsRoot(c: TreeConfig, rows: seq<Row>, i: nat)
    requires i < |rows| && ParentOf(c, rows[i]) !in Ids(c, rows)
    ensures IdOf(c, rows[i]) in ForestOf(c, rows).roots
  {
    RootsMember(c, rows, |rows|, IdOf(c, rows[i]));
  }
}
