/**
 * The tree helper over an adjacency-list table: browse mode pages the roots and
 * expands their descendants level by level; search mode runs the caller's filtered
 * query and may widen the matches with their ancestors and descendants. Both end
 * by materialising a forest.
 *
 * The database is the `fetch` oracle, which answers the rows of a query, and
 * `countOf`, which answers the raw count row of a count query.
 */
module TreeHelper {
  import opened Wrappers
  import opened Strings
  import opened Collections
  import opened QueryBuilder
  import opened TreeForest
  import QH = QueryHelper
  import JS = JsonSubQuery

  // ---------------------------------------------------------------- descendants

  /**
   * The query of one level: a clone of the helper's query whose conditions are
   * replaced by `parentId IN (:...ids)`.
   */
  function LevelQuery(q: Query, c: TreeConfig, ids: seq<Value>): Query {
    q.(wheres := [InList(q.alias + "." + c.parentIdField, Named("ids"))], params := q.params[Named("ids") := List(ids)])
  }

  /**
   * The levels the breadth-first expansion fetches below `ids`: at most `depth` of
   * them, each the rows whose parent is in the previous level, ending at the first
   * empty level.
   */
  function Levels(q: Query, c: TreeConfig, fetch: Query -> seq<Row>, ids: seq<Value>, depth: int): seq<seq<Row>>
    decreases if depth > 0 then depth else 0
  {
    if |ids| == 0 || depth <= 0 then []
    else
      var children := fetch(LevelQuery(q, c, ids));
      if |children| == 0 then [] else [children] + Levels(q, c, fetch, Ids(c, children), depth - 1)
  }

  function Concat(ls: seq<seq<Row>>): seq<Row> {
    if |ls| == 0 then [] else ls[0] + Concat(ls[1..])
  }

  /**
   * No more than `depth` levels are fetched, none of them empty; the first is the
   * answer for `ids` and every later one the answer for the ids of the level before.
   */
  lemma {:induction false} LevelsShape(q: Query, c: TreeConfig, fetch: Query -> seq<Row>, ids: seq<Value>, depth: int)
    ensures var ls := Levels(q, c, fetch, ids, depth);
      && |ls| <= (if depth > 0 then depth else 0)
      && (forall i :: 0 <= i < |ls| ==> |ls[i]| > 0)
      && (|ls| > 0 ==> ls[0] == fetch(LevelQuery(q, c, ids)))
      && (forall i :: 0 < i < |ls| ==> ls[i] == fetch(LevelQuery(q, c, Ids(c, ls[i - 1]))))
    decreases if depth > 0 then depth else 0
  {
    if |ids| > 0 && depth > 0 {
      var children := fetch(LevelQuery(q, c, ids));
      if |children| > 0 {
        LevelsShape(q, c, fetch, Ids(c, children), depth - 1);
      }
    }
  }

  /**
   * When every nonempty level has children, exactly `depth` levels are fetched: the
   * expansion stops at the depth bound however deep the data goes.
   */
  lemma {:induction false} LevelsStopAtDepth(q: Query, c: TreeConfig, fetch: Query -> seq<Row>, ids: seq<Value>, depth: nat)
    requires |ids| > 0
    requires forall xs :: |xs| > 0 ==> |fetch(LevelQuery(q, c, xs))| > 0
    ensures |Levels(q, c, fetch, ids, depth)| == depth
    decreases depth
  {
    if depth > 0 {
      var children := fetch(LevelQuery(q, c, ids));
      assert |Ids(c, children)| > 0;
      LevelsStopAtDepth(q, c, fetch, Ids(c, children), depth - 1);
    }
  }

  // ---------------------------------------------------------------- ancestors

  /** `e.<id> IN (:...ids)` selecting only the parent id and the id. */
  function IdLookup(entity: string, c: TreeConfig, ids: seq<Value>): Query {
    FromEntity(entity, "e").(selects := [Column("e." + c.parentIdField), Column("e." + c.idField)],
                             wheres := [InList("e." + c.idField, Named("ids"))],
                             params := map[Named("ids") := List(ids)])
  }

  /** `e.<id> IN (:...pIds)`: the parents in full. */
  function ParentLookup(entity: string, c: TreeConfig, pIds: seq<Value>): Query {
    FromEntity(entity, "e").(wheres := [InList("e." + c.idField, Named("pIds"))],
                             params := map[Named("pIds") := List(pIds)])
  }

  /** The parent ids of some rows that are neither null nor undefined, in order. */
  function ParentIds(c: TreeConfig, rows: seq<Row>): seq<Value> {
    if |rows| == 0 then []
    else
      var p := ParentOf(c, rows[|rows| - 1]);
      ParentIds(c, rows[..|rows| - 1]) + (if IsNullish(p) then [] else [p])
  }

  /** The parent ids are exactly the rows' parent values that are neither null nor undefined. */
  lemma {:induction false} ParentIdsExact(c: TreeConfig, rows: seq<Row>)
    ensures forall p :: p in ParentIds(c, rows) <==>
      !IsNullish(p) && exists i :: 0 <= i < |rows| && ParentOf(c, rows[i]) == p
  {
    if |rows| > 0 {
      var n := |rows| - 1;
      ParentIdsExact(c, rows[..n]);
      forall p ensures p in ParentIds(c, rows) <==> !IsNullish(p) && exists i :: 0 <= i < |rows| && ParentOf(c, rows[i]) == p {
        if !IsNullish(p) && exists i :: 0 <= i < |rows| && ParentOf(c, rows[i]) == p {
          var i :| 0 <= i < |rows| && ParentOf(c, rows[i]) == p;
          if i < n {
            assert rows[..n][i] == rows[i];
          }
        }
        if p in ParentIds(c, rows[..n]) {
          var i :| 0 <= i < n && ParentOf(c, rows[..n][i]) == p;
          assert rows[i] == rows[..n][i];
        }
      }
    }
  }

  /**
   * `fetchAncestors` as written: rounds of "look up the frontier's parent ids, fetch
   * those parents", until a frontier has no parent id or no rows. Nothing bounds the
   * number of rounds, so the walk is given `fuel` rounds; None means it was still
   * going when the fuel ran out.
   */
  function AncestorWalk(entity: string, c: TreeConfig, fetch: Query -> seq<Row>, ids: seq<Value>, fuel: nat): Option<seq<Row>>
    decreases fuel
  {
    if |ids| == 0 then Some([])
    else if fuel == 0 then None
    else
      var parentIds := ParentIds(c, fetch(IdLookup(entity, c, ids)));
      if |parentIds| == 0 then Some([])
      else
        var parents := fetch(ParentLookup(entity, c, parentIds));
        match AncestorWalk(entity, c, fetch, Ids(c, parents), fuel - 1)
        case None => None
        case Some(rest) => Some(parents + rest)
  }

  /** A row that is its own parent. */
  const SelfParent: Row := map["id" := Num(1), "parentId" := Num(1)]

  const DefaultConfig := TreeConfig("id", "parentId", "children")

  /**
   * On a table where a row is its own parent the walk never ends: no amount of
   * rounds is enough, so `fetchAncestors` loops for ever.
   */
  lemma {:induction false} CyclicWalkNeverEnds(fuel: nat)
    ensures AncestorWalk("nodes", DefaultConfig, (q: Query) => [SelfParent], [Num(1)], fuel) == None
  {
    var fetch := (q: Query) => [SelfParent];
    var c := DefaultConfig;
    if fuel > 0 {
      assert ParentOf(c, SelfParent) == Num(1);
      assert [SelfParent][..0] == [];
      assert ParentIds(c, fetch(IdLookup("nodes", c, [Num(1)]))) == [Num(1)];
      assert Ids(c, [SelfParent]) == [Num(1)];
      CyclicWalkNeverEnds(fuel - 1);
    }
  }

  /** The ancestor walk bounded like the descendant expansion: at most `depth` rounds. */
  function BoundedAncestors(entity: string, c: TreeConfig, fetch: Query -> seq<Row>, ids: seq<Value>, depth: int): seq<Row>
    decreases if depth > 0 then depth else 0
  {
    if |ids| == 0 || depth <= 0 then []
    else
      var parentIds := ParentIds(c, fetch(IdLookup(entity, c, ids)));
      if |parentIds| == 0 then []
      else
        var parents := fetch(ParentLookup(entity, c, parentIds));
        parents + BoundedAncestors(entity, c, fetch, Ids(c, parents), depth - 1)
  }

  /** Whenever the unbounded walk ends within `depth` rounds, the bounded one returns the same ancestors. */
  lemma {:induction false} BoundedAgrees(entity: string, c: TreeConfig, fetch: Query -> seq<Row>, ids: seq<Value>, fuel: nat, depth: int)
    requires fuel <= depth
    requires AncestorWalk(entity, c, fetch, ids, fuel).Some?
    ensures BoundedAncestors(entity, c, fetch, ids, depth) == AncestorWalk(entity, c, fetch, ids, fuel).value
    decreases fuel
  {
    if |ids| > 0 {
      var parentIds := ParentIds(c, fetch(IdLookup(entity, c, ids)));
      if |parentIds| > 0 {
        var parents := fetch(ParentLookup(entity, c, parentIds));
        BoundedAgrees(entity, c, fetch, Ids(c, parents), fuel - 1, depth - 1);
      }
    }
  }

  /** On the self-parented table the bounded walk ends after `depth` rounds, one copy of the row per round. */
  lemma {:induction false} CyclicBoundedEnds(depth: nat)
    ensures BoundedAncestors("nodes", DefaultConfig, (q: Query) => [SelfParent], [Num(1)], depth) == seq(depth, i => SelfParent)
  {
    var fetch := (q: Query) => [SelfParent];
    var c := DefaultConfig;
    if depth > 0 {
      assert ParentOf(c, SelfParent) == Num(1);
      assert [SelfParent][..0] == [];
      assert ParentIds(c, fetch(IdLookup("nodes", c, [Num(1)]))) == [Num(1)];
      assert Ids(c, [SelfParent]) == [Num(1)];
      CyclicBoundedEnds(depth - 1);
      assert seq(depth, i => SelfParent) == [SelfParent] + seq(depth - 1, i => SelfParent);
    }
  }

  /**
   * Once the walk has ended, more rounds change nothing: whatever fuel is enough,
   * the ancestors found are the same.
   */
  lemma {:induction false} WalkFuelIrrelevant(entity: string, c: TreeConfig, fetch: Query -> seq<Row>, ids: seq<Value>,
                                               fuel: nat, more: nat)
    requires fuel <= more && AncestorWalk(entity, c, fetch, ids, fuel).Some?
    ensures AncestorWalk(entity, c, fetch, ids, more) == AncestorWalk(entity, c, fetch, ids, fuel)
    decreases fuel
  {
    if |ids| > 0 {
      var parentIds := ParentIds(c, fetch(IdLookup(entity, c, ids)));
      if |parentIds| > 0 {
        var parents := fetch(ParentLookup(entity, c, parentIds));
        WalkFuelIrrelevant(entity, c, fetch, Ids(c, parents), fuel - 1, more - 1);
      }
    }
  }

  /** One round of the ancestor loop: the accumulated rows plus what the walk still finds stay the same. */
  lemma WalkRound(entity: string, c: TreeConfig, fetch: Query -> seq<Row>, ids: seq<Value>, fuel: nat,
                  parentIds: seq<Value>, parents: seq<Row>, acc: seq<Row>, total: seq<Row>)
    requires |ids| > 0 && AncestorWalk(entity, c, fetch, ids, fuel).Some?
    requires parentIds == ParentIds(c, fetch(IdLookup(entity, c, ids)))
    requires |parentIds| > 0 ==> parents == fetch(ParentLookup(entity, c, parentIds))
    requires acc + AncestorWalk(entity, c, fetch, ids, fuel).value == total
    ensures fuel > 0
    ensures |parentIds| == 0 ==> acc == total
    ensures |parentIds| > 0 ==>
      && AncestorWalk(entity, c, fetch, Ids(c, parents), fuel - 1).Some?
      && (acc + parents) + AncestorWalk(entity, c, fetch, Ids(c, parents), fuel - 1).value == total
  {
    if |parentIds| == 0 {
      assert acc + [] == acc;
    } else {
      var rest := AncestorWalk(entity, c, fetch, Ids(c, parents), fuel - 1).value;
      assert acc + (parents + rest) == (acc + parents) + rest;
    }
  }

  /** The walk ends within `fuel` rounds, or the query names no entity and the lookup fails first. */
  predicate AncestorsEnd(q: Query, c: TreeConfig, fetch: Query -> seq<Row>, ids: seq<Value>, fuel: nat) {
    q.entity.None? || AncestorWalk(q.entity.value, c, fetch, ids, fuel).Some?
  }

  /** The ancestors, or the error raised when the query names no entity to look them up in. */
  function Ancestors(q: Query, c: TreeConfig, fetch: Query -> seq<Row>, ids: seq<Value>, fuel: nat): Result<seq<Row>, string>
    requires AncestorsEnd(q, c, fetch, ids, fuel)
  {
    if q.entity.None? then Failure("Cannot determine entity target")
    else Success(AncestorWalk(q.entity.value, c, fetch, ids, fuel).value)
  }

  // ---------------------------------------------------------------- merging by id

  /** The keys of the id map after `n` rows: each id once, where it was first set. */
  function FirstIdsUpTo(c: TreeConfig, rows: seq<Row>, n: nat): seq<Value>
    requires n <= |rows|
  {
    if n == 0 then []
    else
      var ks := FirstIdsUpTo(c, rows, n - 1);
      if IdOf(c, rows[n - 1]) in ks then ks else ks + [IdOf(c, rows[n - 1])]
  }

  /** The values of the id map after `n` rows: each id holds the last row set for it. */
  function LastUpTo(c: TreeConfig, rows: seq<Row>, n: nat): map<Value, Row>
    requires n <= |rows|
  {
    if n == 0 then map[] else LastUpTo(c, rows, n - 1)[IdOf(c, rows[n - 1]) := rows[n - 1]]
  }

  lemma {:induction false} MergeKeys(c: TreeConfig, rows: seq<Row>, n: nat)
    requires n <= |rows|
    ensures forall k :: k in LastUpTo(c, rows, n) <==> k in FirstIdsUpTo(c, rows, n)
    ensures Distinct(FirstIdsUpTo(c, rows, n))
    ensures forall k :: k in LastUpTo(c, rows, n) ==> IdOf(c, LastUpTo(c, rows, n)[k]) == k
    ensures forall j :: 0 <= j < n ==> IdOf(c, rows[j]) in FirstIdsUpTo(c, rows, n)
  {
    if n > 0 {
      MergeKeys(c, rows, n - 1);
    }
  }

  /** `Array.from(nodeMap.values())` after `nodeMap.set(id, n)` for every row in turn. */
  function MergeById(c: TreeConfig, rows: seq<Row>): seq<Row> {
    var m := LastUpTo(c, rows, |rows|);
    var ks := FirstIdsUpTo(c, rows, |rows|);
    MergeKeys(c, rows, |rows|);
    seq(|ks|, i requires 0 <= i < |ks| => m[ks[i]])
  }

  /**
   * The merge keeps every id of the input exactly once, at the place it first
   * occurs, and the record it keeps for an id is the last row with that id.
   */
  lemma MergeByIdKeeps(c: TreeConfig, rows: seq<Row>)
    ensures Ids(c, MergeById(c, rows)) == FirstIdsUpTo(c, rows, |rows|)
    ensures Distinct(Ids(c, MergeById(c, rows)))
    ensures forall j :: 0 <= j < |rows| ==> IdOf(c, rows[j]) in Ids(c, MergeById(c, rows))
    ensures forall j :: 0 <= j < |rows| && (forall l :: j < l < |rows| ==> IdOf(c, rows[l]) != IdOf(c, rows[j]))
                ==> rows[j] in MergeById(c, rows)
  {
    MergeKeys(c, rows, |rows|);
    var ks := FirstIdsUpTo(c, rows, |rows|);
    forall j | 0 <= j < |rows| && (forall l :: j < l < |rows| ==> IdOf(c, rows[l]) != IdOf(c, rows[j]))
      ensures rows[j] in MergeById(c, rows)
    {
      LastIsLatest(c, rows, |rows|, j);
      var i :| 0 <= i < |ks| && ks[i] == IdOf(c, rows[j]);
      assert MergeById(c, rows)[i] == rows[j];
    }
  }

  /** The id map holds, for the id of row `j`, row `j` itself when no later row has that id. */
  lemma {:induction false} LastIsLatest(c: TreeConfig, rows: seq<Row>, n: nat, j: nat)
    requires j < n <= |rows|
    requires forall l :: j < l < n ==> IdOf(c, rows[l]) != IdOf(c, rows[j])
    ensures IdOf(c, rows[j]) in LastUpTo(c, rows, n) && LastUpTo(c, rows, n)[IdOf(c, rows[j])] == rows[j]
  {
    if j < n - 1 {
      LastIsLatest(c, rows, n - 1, j);
    }
  }

  /** Rows with unique ids come out of the merge as they went in. */
  lemma MergeDistinctUnchanged(c: TreeConfig, rows: seq<Row>, n: nat)
    requires n <= |rows| && Distinct(Ids(c, rows))
    ensures FirstIdsUpTo(c, rows, n) == Ids(c, rows)[..n]
    ensures forall j :: 0 <= j < n ==> IdOf(c, rows[j]) in LastUpTo(c, rows, n) && LastUpTo(c, rows, n)[IdOf(c, rows[j])] == rows[j]
  {
    MergeDistinctOrder(c, rows, n);
    MergeDistinctValues(c, rows, n);
  }

  /** With distinct ids every id is new when its row comes, so the key order is the row order. */
  lemma {:induction false} MergeDistinctOrder(c: TreeConfig, rows: seq<Row>, n: nat)
    requires n <= |rows| && Distinct(Ids(c, rows))
    ensures FirstIdsUpTo(c, rows, n) == Ids(c, rows)[..n]
  {
    if n > 0 {
      MergeDistinctOrder(c, rows, n - 1);
      assert Ids(c, rows)[..n] == Ids(c, rows)[..n - 1] + [IdOf(c, rows[n - 1])];
      assert IdOf(c, rows[n - 1]) !in Ids(c, rows)[..n - 1] by {
        forall j | 0 <= j < n - 1 ensures Ids(c, rows)[j] != Ids(c, rows)[n - 1] {
        }
      }
    }
  }

  /** With distinct ids no later row overwrites an earlier one, so every id holds its own row. */
  lemma {:induction false} MergeDistinctValues(c: TreeConfig, rows: seq<Row>, n: nat)
    requires n <= |rows| && Distinct(Ids(c, rows))
    ensures forall j :: 0 <= j < n ==> IdOf(c, rows[j]) in LastUpTo(c, rows, n) && LastUpTo(c, rows, n)[IdOf(c, rows[j])] == rows[j]
  {
    if n > 0 {
      MergeDistinctValues(c, rows, n - 1);
      forall j | 0 <= j < n - 1
        ensures IdOf(c, rows[j]) != IdOf(c, rows[n - 1])
      {
        assert Ids(c, rows)[j] != Ids(c, rows)[n - 1];
      }
    }
  }

  lemma MergeDistinctIsIdentity(c: TreeConfig, rows: seq<Row>)
    requires Distinct(Ids(c, rows))
    ensures MergeById(c, rows) == rows
  {
    MergeDistinctUnchanged(c, rows, |rows|);
    assert Ids(c, rows)[..|rows|] == Ids(c, rows);
  }

  /** The merge of `handleSearchMode`: fill the id map in order, then read its values in key order. */
  method MergeNodes(c: TreeConfig, rows: seq<Row>) returns (r: seq<Row>)
    ensures r == MergeById(c, rows)
  {
    var nodeMap: map<Value, Row> := map[];
    var order: seq<Value> := [];
    for i := 0 to |rows|
      invariant nodeMap == LastUpTo(c, rows, i) && order == FirstIdsUpTo(c, rows, i)
    {
      MergeKeys(c, rows, i);
      var id := IdOf(c, rows[i]);
      if id !in nodeMap {
        order := order + [id];
      }
      nodeMap := nodeMap[id := rows[i]];
    }
    MergeKeys(c, rows, |rows|);
    r := [];
    for j := 0 to |order|
      invariant r == MergeById(c, rows)[..j]
    {
      r := r + [nodeMap[order[j]]];
    }
  }

  // ---------------------------------------------------------------- results

  datatype TreeMeta = TreeMeta(totalRoots: int, allNodes: int, page: int, limit: int, totalPages: int)

  datatype TreeResult = TreeResult(data: Forest, meta: TreeMeta)

  datatype TreePaginationOptions = TreePaginationOptions(page: QH.NumInput, limit: QH.NumInput, sort: Option<string>,
                                                         loadContextOnSearch: bool)

  /** `emptyResult(options)`: no nodes, no pages, and the requested page and limit after `|| 1` and `|| 10`. */
  function EmptyResult(options: TreePaginationOptions): (r: TreeResult)
    ensures r.data.roots == [] && r.meta.totalRoots == 0 && r.meta.allNodes == 0 && r.meta.totalPages == 0
    ensures r.meta.page == QH.NumberOr(options.page, 1) && r.meta.limit == QH.NumberOr(options.limit, 10)
    ensures r.meta.limit != 0
  {
    TreeResult(Forest([], map[], map[]), TreeMeta(0, 0, QH.NumberOr(options.page, 1), QH.NumberOr(options.limit, 10), 0))
  }

  /** The ORDER BY entry of one browse-mode sort token; unlike pagination, an empty field is not skipped. */
  function BrowseSortToken(alias: string, token: string): OrderBy {
    var parts := Split(token, ':');
    OrderBy(Qualify(alias, parts[0]), if |parts| >= 2 && ToUpper(parts[1]) == "ASC" then Asc else Desc)
  }

  function BrowseSorted(q: Query, tokens: seq<string>): Query {
    if |tokens| == 0 then q
    else
      var o := BrowseSortToken(q.alias, tokens[|tokens| - 1]);
      AddOrder(BrowseSorted(q, tokens[..|tokens| - 1]), o.expr, o.dir)
  }

  /** The root page's query: the helper's query restricted to `parentId IS NULL`, then sorted. */
  function RootQuery(q: Query, c: TreeConfig, sort: Option<string>): Query {
    var roots := AndWhere(q, IsNull(q.alias + "." + c.parentIdField), map[]);
    if sort.Some? && sort.value != "" then BrowseSorted(roots, Split(sort.value, ',')) else roots
  }

  /** Browse mode: a page of roots, their descendants, and the forest of both. */
  function Browse(q: Query, c: TreeConfig, maxDepth: int, options: TreePaginationOptions,
                  countOf: Query -> Option<nat>, fetch: Query -> seq<Row>): TreeResult
  {
    var (_, rootResult) := QH.Paginate(RootQuery(q, c, options.sort), QH.PaginationOptions(options.page, options.limit, None), countOf, fetch);
    if |rootResult.data| == 0 then EmptyResult(options)
    else
      var all := rootResult.data + Concat(Levels(q, c, fetch, Ids(c, rootResult.data), maxDepth));
      TreeResult(ForestOf(c, all), TreeMeta(rootResult.meta.total, |all|, rootResult.meta.page, rootResult.meta.limit, rootResult.meta.totalPages))
  }

  /**
   * The nodes search mode materialises: the matches, widened with their context when
   * asked. The ancestors are every row the unbounded walk reaches, which `fuel`
   * rounds are enough to collect; the descendants stop after `maxDepth` levels.
   */
  function SearchNodes(q: Query, c: TreeConfig, maxDepth: int, matched: seq<Row>, loadContext: bool,
                       fetch: Query -> seq<Row>, fuel: nat): Result<seq<Row>, string>
    requires loadContext ==> AncestorsEnd(q, c, fetch, Ids(c, matched), fuel)
  {
    if !loadContext then Success(matched)
    else
      var ids := Ids(c, matched);
      match Ancestors(q, c, fetch, ids, fuel)
      case Failure(e) => Failure(e)
      case Success(ancestors) => Success(MergeById(c, matched + ancestors + Concat(Levels(q, c, fetch, ids, maxDepth))))
  }

  /** Search mode: every match, one page holding all of it. */
  function Search(q: Query, c: TreeConfig, maxDepth: int, options: TreePaginationOptions,
                  fetch: Query -> seq<Row>, fuel: nat): Result<TreeResult, string>
    requires options.loadContextOnSearch && |fetch(q)| > 0 ==> AncestorsEnd(q, c, fetch, Ids(c, fetch(q)), fuel)
  {
    var matched := fetch(q);
    if |matched| == 0 then Success(EmptyResult(options))
    else
      match SearchNodes(q, c, maxDepth, matched, options.loadContextOnSearch, fetch, fuel)
      case Failure(e) => Failure(e)
      case Success(nodes) =>
        var tree := ForestOf(c, nodes);
        Success(TreeResult(tree, TreeMeta(|tree.roots|, |nodes|, 1, |nodes|, 1)))
  }

  /**
   * Browse-mode meta: the roots' total comes from the root count and the node count
   * from roots plus descendants, while page, limit and totalPages are the root
   * page's; an empty root page gives the empty result.
   */
  lemma BrowseMeta(q: Query, c: TreeConfig, maxDepth: int, options: TreePaginationOptions,
                   countOf: Query -> Option<nat>, fetch: Query -> seq<Row>)
    ensures var (paged, rootResult) := QH.Paginate(RootQuery(q, c, options.sort), QH.PaginationOptions(options.page, options.limit, None), countOf, fetch);
      var r := Browse(q, c, maxDepth, options, countOf, fetch);
      && (|rootResult.data| == 0 ==> r == EmptyResult(options))
      && (|rootResult.data| > 0 ==>
            && r.meta.totalRoots == countOf(QH.CountQuery(RootQuery(q, c, options.sort))).GetOr(0)
            && r.meta.allNodes == |rootResult.data| + |Concat(Levels(q, c, fetch, Ids(c, rootResult.data), maxDepth))|
            && r.meta.page == QH.PageOf(options.page) && r.meta.limit == QH.LimitOf(options.limit)
            && r.meta.totalPages == QH.CeilDiv(r.meta.totalRoots, r.meta.limit)
            && paged.wheres == q.wheres + [IsNull(q.alias + "." + c.parentIdField)])
  {
    var rq := RootQuery(q, c, options.sort);
    QH.PaginateMeta(rq, QH.PaginationOptions(options.page, options.limit, None), countOf, fetch);
    if options.sort.Some? && options.sort.value != "" {
      BrowseSortKeepsFilters(AndWhere(q, IsNull(q.alias + "." + c.parentIdField), map[]), Split(options.sort.value, ','));
    }
  }

  lemma {:induction false} BrowseSortKeepsFilters(q: Query, tokens: seq<string>)
    ensures BrowseSorted(q, tokens) == q.(orderBys := BrowseSorted(q, tokens).orderBys)
  {
    if |tokens| > 0 {
      BrowseSortKeepsFilters(q, tokens[..|tokens| - 1]);
    }
  }

  /**
   * Search-mode meta: roots counted in the materialised forest, one page, a limit
   * equal to the node count. Without `loadContextOnSearch` the nodes are exactly
   * the matches.
   */
  lemma SearchMeta(q: Query, c: TreeConfig, maxDepth: int, options: TreePaginationOptions, fetch: Query -> seq<Row>, fuel: nat)
    requires |fetch(q)| > 0
    requires options.loadContextOnSearch ==> AncestorsEnd(q, c, fetch, Ids(c, fetch(q)), fuel)
    ensures var r := Search(q, c, maxDepth, options, fetch, fuel);
      && (!options.loadContextOnSearch ==> r == Success(TreeResult(ForestOf(c, fetch(q)),
                                                    TreeMeta(|ForestOf(c, fetch(q)).roots|, |fetch(q)|, 1, |fetch(q)|, 1))))
      && (r.Success? ==> r.value.meta.page == 1 && r.value.meta.totalPages == 1
                         && r.value.meta.limit == r.value.meta.allNodes
                         && r.value.meta.totalRoots == |r.value.data.roots|)
      && (r.Failure? <==> options.loadContextOnSearch && q.entity.None?)
  {
  }

  /** With context loading and unique ids, every match survives the merge unchanged. */
  lemma SearchKeepsMatches(q: Query, c: TreeConfig, maxDepth: int, matched: seq<Row>, fetch: Query -> seq<Row>, fuel: nat)
    requires q.entity.Some? && AncestorWalk(q.entity.value, c, fetch, Ids(c, matched), fuel).Some?
    ensures var nodes := SearchNodes(q, c, maxDepth, matched, true, fetch, fuel).value;
      && Distinct(Ids(c, nodes))
      && forall j :: 0 <= j < |matched| ==> IdOf(c, matched[j]) in Ids(c, nodes)
  {
    var ancestors := Ancestors(q, c, fetch, Ids(c, matched), fuel).value;
    var all := matched + ancestors + Concat(Levels(q, c, fetch, Ids(c, matched), maxDepth));
    MergeByIdKeeps(c, all);
    forall j | 0 <= j < |matched|
      ensures IdOf(c, matched[j]) in Ids(c, MergeById(c, all))
    {
      assert all[j] == matched[j];
    }
  }

  // ---------------------------------------------------------------- the helper

  /** `String(x || fallback)`: a missing or empty field name falls back. */
  function NameOr(x: Option<string>, fallback: string): string {
    if x.Some? && x.value != "" then x.value else fallback
  }

  class AdvancedTreeHelper {
    const qb: Query
    const config: TreeConfig
    const maxDepth: int
    const driverType: string

    /** `AdvancedTreeHelper.from(source, alias, config)`: `maxDepth` is `config.maxDepth || 10`. */
    constructor From(source: Query, driverType: string, idField: Option<string>, parentIdField: Option<string>,
                     childrenField: Option<string>, maxDepth: QH.NumInput)
      ensures qb == source && this.driverType == driverType
      ensures config == TreeConfig(NameOr(idField, "id"), NameOr(parentIdField, "parentId"), NameOr(childrenField, "children"))
      ensures this.maxDepth == QH.NumberOr(maxDepth, 10)
    {
      qb := source;
      this.driverType := driverType;
      config := TreeConfig(NameOr(idField, "id"), NameOr(parentIdField, "parentId"), NameOr(childrenField, "children"));
      this.maxDepth := QH.NumberOr(maxDepth, 10);
    }

    /** `fetchDescendants(rootIds)`: one query per level until a level is empty or `maxDepth` levels are in. */
    method FetchDescendants(fetch: Query -> seq<Row>, rootIds: seq<Value>) returns (all: seq<Row>)
      ensures all == Concat(Levels(qb, config, fetch, rootIds, maxDepth))
    {
      all := [];
      var currentLevelIds := rootIds;
      var depth := 0;
      while |currentLevelIds| > 0 && depth < maxDepth
        invariant 0 <= depth
        invariant all + Concat(Levels(qb, config, fetch, currentLevelIds, maxDepth - depth))
               == Concat(Levels(qb, config, fetch, rootIds, maxDepth))
        decreases maxDepth - depth
      {
        var children := fetch(LevelQuery(qb, config, currentLevelIds));
        if |children| == 0 {
          break;
        }
        all := all + children;
        currentLevelIds := Ids(config, children);
        depth := depth + 1;
      }
    }

    /**
     * `fetchAncestors(nodeIds)`: it fails before any round when the query has no
     * entity to look rows up in. The loop has no bound of its own; `fuel` is a
     * number of rounds after which it has ended.
     */
    method FetchAncestors(fetch: Query -> seq<Row>, nodeIds: seq<Value>, ghost fuel: nat) returns (r: Result<seq<Row>, string>)
      requires AncestorsEnd(qb, config, fetch, nodeIds, fuel)
      ensures r == Ancestors(qb, config, fetch, nodeIds, fuel)
    {
      if qb.entity.None? {
        return Failure("Cannot determine entity target");
      }
      var allAncestors := AncestorRounds(qb.entity.value, config, fetch, nodeIds, fuel);
      r := Success(allAncestors);
    }

    /** The rounds of `fetchAncestors` on a known entity: until a frontier is empty or has no parent id. */
    static method AncestorRounds(entity: string, config: TreeConfig, fetch: Query -> seq<Row>, nodeIds: seq<Value>, ghost fuel: nat)
      returns (allAncestors: seq<Row>)
      requires AncestorWalk(entity, config, fetch, nodeIds, fuel).Some?
      ensures allAncestors == AncestorWalk(entity, config, fetch, nodeIds, fuel).value
    {
      ghost var total := AncestorWalk(entity, config, fetch, nodeIds, fuel).value;
      allAncestors := [];
      assert allAncestors + total == total;
      var currentIds := nodeIds;
      ghost var roundsLeft := fuel;
      while |currentIds| > 0
        invariant AncestorWalk(entity, config, fetch, currentIds, roundsLeft).Some?
        invariant allAncestors + AncestorWalk(entity, config, fetch, currentIds, roundsLeft).value == total
        decreases roundsLeft
      {
        var nodes := fetch(IdLookup(entity, config, currentIds));
        var parentIds := ParentIds(config, nodes);
        if |parentIds| == 0 {
          WalkRound(entity, config, fetch, currentIds, roundsLeft, parentIds, [], allAncestors, total);
          break;
        }
        var parents := fetch(ParentLookup(entity, config, parentIds));
        WalkRound(entity, config, fetch, currentIds, roundsLeft, parentIds, parents, allAncestors, total);
        allAncestors := allAncestors + parents;
        currentIds := Ids(config, parents);
        roundsLeft := roundsLeft - 1;
      }
      assert allAncestors + [] == allAncestors;
    }

    /** `handleBrowseMode(options)`. */
    method HandleBrowseMode(options: TreePaginationOptions, countOf: Query -> Option<nat>, fetch: Query -> seq<Row>)
      returns (r: TreeResult)
      ensures r == Browse(qb, config, maxDepth, options, countOf, fetch)
    {
      var rootQb := AndWhere(qb, IsNull(qb.alias + "." + config.parentIdField), map[]);
      var paginationHelper := new QH.AdvancedQueryHelper.FromBuilder(rootQb, driverType);
      if options.sort.Some? && options.sort.value != "" {
        var tokens := Split(options.sort.value, ',');
        for i := 0 to |tokens|
          invariant paginationHelper.qb == BrowseSorted(rootQb, tokens[..i])
        {
          JS.SliceStep(tokens, i);
          var parts := Split(tokens[i], ':');
          var f := parts[0];
          var col := if '.' in f then f else paginationHelper.qb.alias + "." + f;
          assert col == Qualify(rootQb.alias, f) by {
            BrowseSortKeepsFilters(rootQb, tokens[..i]);
          }
          var dir := if |parts| >= 2 && ToUpper(parts[1]) == "ASC" then Asc else Desc;
          paginationHelper.qb := AddOrder(paginationHelper.qb, col, dir);
        }
        assert tokens[..|tokens|] == tokens;
      }
      var rootResult := paginationHelper.GetPaginated(QH.PaginationOptions(options.page, options.limit, None), countOf, fetch);
      if |rootResult.data| == 0 {
        return EmptyResult(options);
      }
      var rootIds := Ids(config, rootResult.data);
      var descendants := FetchDescendants(fetch, rootIds);
      var allNodes := rootResult.data + descendants;
      var tree := BuildTreeStructure(config, allNodes);
      r := TreeResult(tree, TreeMeta(rootResult.meta.total, |allNodes|, rootResult.meta.page, rootResult.meta.limit,
                                     rootResult.meta.totalPages));
    }

    /** `handleSearchMode(options)`. */
    method HandleSearchMode(options: TreePaginationOptions, fetch: Query -> seq<Row>, ghost fuel: nat)
      returns (r: Result<TreeResult, string>)
      requires options.loadContextOnSearch && |fetch(qb)| > 0 ==> AncestorsEnd(qb, config, fetch, Ids(config, fetch(qb)), fuel)
      ensures r == Search(qb, config, maxDepth, options, fetch, fuel)
    {
      var matchedNodes := fetch(qb);
      if |matchedNodes| == 0 {
        return Success(EmptyResult(options));
      }
      var finalNodes := matchedNodes;
      if options.loadContextOnSearch {
        var matchedIds := Ids(config, matchedNodes);
        var ancestors := FetchAncestors(fetch, matchedIds, fuel);
        if ancestors.Failure? {
          return Failure(ancestors.error);
        }
        var descendants := FetchDescendants(fetch, matchedIds);
        finalNodes := MergeNodes(config, matchedNodes + ancestors.value + descendants);
      }
      var tree := BuildTreeStructure(config, finalNodes);
      r := Success(TreeResult(tree, TreeMeta(|tree.roots|, |finalNodes|, 1, |finalNodes|, 1)));
    }

    /** `getPaginatedTree(options)`: search mode exactly when the query already has a WHERE condition. */
    method GetPaginatedTree(options: TreePaginationOptions, countOf: Query -> Option<nat>, fetch: Query -> seq<Row>, ghost fuel: nat)
      returns (r: Result<TreeResult, string>)
      requires |qb.wheres| > 0 && options.loadContextOnSearch && |fetch(qb)| > 0 ==> AncestorsEnd(qb, config, fetch, Ids(config, fetch(qb)), fuel)
      ensures |qb.wheres| > 0 ==> r == Search(qb, config, maxDepth, options, fetch, fuel)
      ensures |qb.wheres| == 0 ==> r == Success(Browse(qb, config, maxDepth, options, countOf, fetch))
    {
      var hasConditions := |qb.wheres| > 0;
      if hasConditions {
        r := HandleSearchMode(options, fetch, fuel);
      } else {
        var b := HandleBrowseMode(options, countOf, fetch);
        r := Success(b);
      }
    }
  }
}
