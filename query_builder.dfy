/**
 * The state of a relational query builder as the query helpers see it: the
 * selections, joins, conjunctive WHERE predicates, ORDER BY entries, grouping,
 * bound parameters and offset/limit of one query. A `Query` is a value, so cloning
 * a builder is copying the value.
 *
 * Predicates are kept as a small syntax tree instead of SQL text. Parameter names
 * that the source makes unique with a random suffix are modelled as `Fresh` names
 * drawn from a per-query serial counter; names the source writes out literally
 * are `Named`.
 */
module QueryBuilder {
  import opened Wrappers
  import opened Collections

  /** The two SQL families the helpers distinguish. */
  datatype Dialect = Postgres | Generic

  /** The driver names that select the Postgres-compatible branch. */
  function DialectOf(driverType: string): (d: Dialect)
    ensures d == Postgres <==> driverType in {"postgres", "cockroachdb"}
  {
    if driverType == "postgres" || driverType == "cockroachdb" then Postgres else Generic
  }

  /**
   * A field without a '.' is qualified with the query's alias; a dotted
   * reference is used as it is.
   */
  function Qualify(alias: string, field: string): string {
    if '.' in field then field else alias + "." + field
  }

  /** A qualified reference always holds a '.', and qualifying it again changes nothing. */
  lemma QualifyIsQualified(alias: string, field: string)
    ensures '.' in Qualify(alias, field)
    ensures Qualify(alias, Qualify(alias, field)) == Qualify(alias, field)
    ensures '.' !in field ==> Qualify(alias, field)[|alias| + 1..] == field
  {
    if '.' !in field {
      var q := alias + "." + field;
      assert q[|alias|] == '.';
    }
  }

  /** The JavaScript values that reach the builder as filter values and parameters. */
  datatype Value = Undefined | Null | Str(s: string) | Num(n: int) | Bool(b: bool) | List(items: seq<Value>)

  predicate IsNullish(v: Value) {
    v == Undefined || v == Null
  }

  datatype ParamName = Named(name: string) | Fresh(prefix: string, serial: nat)

  type Bindings = map<ParamName, Value>

  /** Parameters a caller writes into a raw condition: plain names. */
  type RawParams = map<string, Value>

  function AsBindings(p: RawParams): (b: Bindings)
    ensures forall n :: n in b ==> n.Named? && n.name in p && b[n] == p[n.name]
    ensures forall k :: k in p ==> Named(k) in b
  {
    map k | k in p :: Named(k) := p[k]
  }

  datatype CmpOp = Eq | Neq | Gt | Gte | Lt | Lte

  datatype Pred =
    | Compare(col: string, op: CmpOp, param: ParamName)  // col = :param, col >= :param, ...
    | ILike(col: string, param: ParamName)               // col ILIKE :param
    | LowerLike(col: string, param: ParamName)           // LOWER(col) LIKE :param
    | InList(col: string, param: ParamName)              // col IN (:...param)
    | IsNull(col: string)
    | NotNull(col: string)
    | Raw(text: string)                                  // a caller's condition, verbatim
    | AllOf(parts: seq<Pred>)                            // a bracket joined with AND
    | AnyOf(alts: seq<Pred>)                             // a bracket joined with OR

  datatype Direction = Asc | Desc

  datatype OrderBy = OrderBy(expr: string, dir: Direction)

  datatype JoinKind = Inner | Left

  /** One join; `mapTo` names the property a joined row is attached to, if any. */
  datatype JoinClause = JoinClause(kind: JoinKind, target: string, alias: string, condition: Option<string>,
                       mapTo: Option<string>, mapMany: bool, selected: bool)

  datatype Selection =
    | Column(expr: string)
    | Aliased(expr: string, name: string)
    | SubSelect(sub: Query, name: string)

  datatype Query = Query(
    alias: string,
    entity: Option<string>,
    selects: seq<Selection>,
    joins: seq<JoinClause>,
    wheres: seq<Pred>,
    orderBys: seq<OrderBy>,
    groupBys: seq<string>,
    having: Option<Pred>,
    params: Bindings,
    offset: Option<int>,
    limit: Option<int>,
    serial: nat)

  /** A repository's `createQueryBuilder(alias)`: the whole entity under that alias. */
  function FromEntity(entity: string, alias: string): (q: Query)
    ensures q.alias == alias && q.entity == Some(entity) && q.wheres == [] && q.orderBys == []
    ensures q.params == map[] && ParamsFresh(q)
  {
    Query(alias, Some(entity), [Column(alias)], [], [], [], [], None, map[], None, None, 0)
  }

  /**
   * Every fresh parameter name already bound was drawn before the current serial,
   * so the next fresh name cannot collide with a bound one.
   */
  ghost predicate ParamsFresh(q: Query) {
    forall n :: n in q.params && n.Fresh? ==> n.serial < q.serial
  }

  /** The next fresh parameter name with the given prefix, and the query that has drawn it. */
  function FreshParam(q: Query, prefix: string): (r: (ParamName, Query))
    ensures r.0 == Fresh(prefix, q.serial) && r.1 == q.(serial := q.serial + 1)
    ensures ParamsFresh(q) ==> r.0 !in q.params && ParamsFresh(r.1)
  {
    (Fresh(prefix, q.serial), q.(serial := q.serial + 1))
  }

  /** Bindings that only use names below `serial` keep a query's parameters fresh. */
  ghost predicate BindingsBelow(b: Bindings, serial: nat) {
    forall n :: n in b && n.Fresh? ==> n.serial < serial
  }

  /** `andWhere(pred, params)`: one more conjunct and its parameters merged in. */
  function AndWhere(q: Query, p: Pred, b: Bindings): (r: Query)
    ensures ParamsFresh(q) && BindingsBelow(b, q.serial) ==> ParamsFresh(r)
  {
    q.(wheres := q.wheres + [p], params := q.params + b)
  }

  /** The expressions an ORDER BY list sorts on, in order. */
  function OrderKeys(os: seq<OrderBy>): (ks: seq<string>)
    ensures |ks| == |os| && forall i :: 0 <= i < |os| ==> ks[i] == os[i].expr
  {
    seq(|os|, i requires 0 <= i < |os| => os[i].expr)
  }

  /**
   * The ORDER BY entries read as the builder stores them: an object from
   * expression to direction, built by assigning the entries one after another.
   */
  function AsObject(os: seq<OrderBy>): map<string, Direction> {
    if |os| == 0 then map[]
    else AsObject(os[..|os| - 1])[os[|os| - 1].expr := os[|os| - 1].dir]
  }

  /**
   * `addOrderBy(expr, dir)`. The builder keeps its ORDER BY entries in an object
   * keyed by expression, so adding an expression that is already there replaces
   * its direction in place, and adding a new one appends it.
   */
  function AddOrderBy(os: seq<OrderBy>, o: OrderBy): (r: seq<OrderBy>)
    ensures o.expr !in OrderKeys(os) ==> r == os + [o]
    ensures o.expr in OrderKeys(os) ==> |r| == |os|
  {
    if o.expr in OrderKeys(os) then Reassigned(os, o) else os + [o]
  }

  /** Every entry on `o`'s expression replaced by `o`, the others left alone. */
  function Reassigned(os: seq<OrderBy>, o: OrderBy): (r: seq<OrderBy>)
    ensures |r| == |os|
    ensures forall i :: 0 <= i < |os| ==> r[i] == if os[i].expr == o.expr then o else os[i]
  {
    seq(|os|, i requires 0 <= i < |os| => if os[i].expr == o.expr then o else os[i])
  }

  /** The stored object's keys are the listed expressions. */
  lemma {:induction false} AsObjectKeys(os: seq<OrderBy>)
    ensures forall e :: e in AsObject(os) <==> e in OrderKeys(os)
  {
    if |os| > 0 {
      var init := os[..|os| - 1];
      assert OrderKeys(os) == OrderKeys(init) + [os[|os| - 1].expr];
      AsObjectKeys(init);
    }
  }

  /** In a list with distinct expressions, an entry's expression is looked up at that entry's direction. */
  lemma {:induction false} AsObjectAt(os: seq<OrderBy>, i: nat)
    requires Distinct(OrderKeys(os)) && i < |os|
    ensures os[i].expr in AsObject(os) && AsObject(os)[os[i].expr] == os[i].dir
  {
    var n := |os| - 1;
    if i < n {
      var init := os[..n];
      assert OrderKeys(init) == OrderKeys(os)[..n];
      assert OrderKeys(os)[i] != OrderKeys(os)[n];
      assert init[i] == os[i];
      AsObjectAt(init, i);
    }
  }

  /** Re-adding an expression already listed changes its direction and nothing else. */
  lemma AddOrderByReplaces(os: seq<OrderBy>, o: OrderBy)
    requires Distinct(OrderKeys(os)) && o.expr in OrderKeys(os)
    ensures OrderKeys(AddOrderBy(os, o)) == OrderKeys(os)
    ensures AsObject(AddOrderBy(os, o)) == AsObject(os)[o.expr := o.dir]
  {
    var r := AddOrderBy(os, o);
    assert OrderKeys(r) == OrderKeys(os);
    AsObjectKeys(os);
    AsObjectKeys(r);
    var m := AsObject(os)[o.expr := o.dir];
    forall e | e in AsObject(r)
      ensures e in m && AsObject(r)[e] == m[e]
    {
      var i :| 0 <= i < |r| && OrderKeys(r)[i] == e;
      assert r[i] == if os[i].expr == o.expr then o else os[i];
      AsObjectAt(os, i);
      AsObjectAt(r, i);
    }
    assert AsObject(r).Keys == m.Keys;
  }

  /**
   * On a list with distinct expressions, `addOrderBy` behaves as an assignment to
   * the stored object, keeps the expressions distinct, and leaves the order of the
   * earlier expressions alone, a new one going last.
   */
  lemma AddOrderByIsAssignment(os: seq<OrderBy>, o: OrderBy)
    requires Distinct(OrderKeys(os))
    ensures Distinct(OrderKeys(AddOrderBy(os, o)))
    ensures AsObject(AddOrderBy(os, o)) == AsObject(os)[o.expr := o.dir]
    ensures o.expr in OrderKeys(os) ==> OrderKeys(AddOrderBy(os, o)) == OrderKeys(os)
    ensures o.expr !in OrderKeys(os) ==> OrderKeys(AddOrderBy(os, o)) == OrderKeys(os) + [o.expr]
  {
    var r := AddOrderBy(os, o);
    if o.expr in OrderKeys(os) {
      AddOrderByReplaces(os, o);
    } else {
      assert OrderKeys(r) == OrderKeys(os) + [o.expr];
      assert r[..|r| - 1] == os;
    }
  }

  /** `addOrderBy(expr, dir)` on a builder. */
  function AddOrder(q: Query, expr: string, dir: Direction): Query {
    q.(orderBys := AddOrderBy(q.orderBys, OrderBy(expr, dir)))
  }
}
