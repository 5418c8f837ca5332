/**
 * The JSON sub-query builder: it collects `'key', column` pairs, joins, conditions,
 * ORDER BY entries and a limit, and renders them onto a sub-query that aggregates
 * the matching rows into one JSON array, in the syntax of the target dialect.
 */
module JsonSubQuery {
  import opened Wrappers
  import opened Strings
  import opened QueryBuilder

  /** One recorded join: applied to the sub-query when it is built. */
  datatype JoinSpec = JoinSpec(kind: JoinKind, target: string, alias: string, condition: string, params: RawParams)

  datatype Condition = Condition(text: string, params: RawParams)

  /**
   * The key an aliased or plain field is exposed under: a non-empty alias, else the
   * second '.'-separated segment of a dotted field, else the field itself.
   */
  function FieldKey(field: string, alias: Option<string>): string {
    if alias.Some? && alias.value != "" then alias.value
    else if '.' in field then
      SplitHasSeparator(field, '.');
      Split(field, '.')[1]
    else field
  }

  /** One `'key', column` entry of the JSON object. */
  function JsonEntry(key: string, col: string): string {
    "'" + key + "', " + col
  }

  /** The aggregate selection a Postgres-compatible database or any other gets. */
  function SelectionText(jsonFields: seq<string>, isPostgres: bool): string {
    var fields := Join(jsonFields, ", ");
    if isPostgres then "COALESCE(json_agg(json_build_object(" + fields + ")), '[]'::json)"
    else "COALESCE(JSON_ARRAYAGG(JSON_OBJECT(" + fields + ")), JSON_ARRAY())"
  }

  function AddJoin(q: Query, j: JoinSpec): Query {
    q.(joins := q.joins + [JoinClause(j.kind, j.target, j.alias, Some(j.condition), None, false, false)],
       params := q.params + AsBindings(j.params))
  }

  function WithJoins(q: Query, js: seq<JoinSpec>): Query {
    if |js| == 0 then q else AddJoin(WithJoins(q, js[..|js| - 1]), js[|js| - 1])
  }

  function WithConditions(q: Query, cs: seq<Condition>): Query {
    if |cs| == 0 then q
    else
      var c := cs[|cs| - 1];
      AndWhere(WithConditions(q, cs[..|cs| - 1]), Raw(c.text), AsBindings(c.params))
  }

  function WithOrders(q: Query, os: seq<OrderBy>): Query {
    if |os| == 0 then q
    else
      var o := os[|os| - 1];
      AddOrder(WithOrders(q, os[..|os| - 1]), o.expr, o.dir)
  }

  /** `if (limitNum) sub.limit(limitNum)`: only a present, nonzero limit is applied. */
  function WithLimit(q: Query, limitNum: Option<int>): Query {
    if limitNum.Some? && limitNum.value != 0 then q.(limit := limitNum) else q
  }

  lemma SliceStep<T>(xs: seq<T>, i: nat)
    requires i < |xs|
    ensures xs[..i + 1][..i] == xs[..i] && xs[..i + 1][i] == xs[i]
  {
  }

  /** The entries `select([f1, f2, ...])` records: every field selected plainly, in list order. */
  function PlainEntries(alias: string, fields: seq<string>): seq<string> {
    seq(|fields|, i requires 0 <= i < |fields| => JsonEntry(FieldKey(fields[i], None), Qualify(alias, fields[i])))
  }

  /** What a builder has recorded. */
  datatype Recorded = Recorded(jsonFields: seq<string>, conditions: seq<Condition>, joins: seq<JoinSpec>,
                               orderBys: seq<OrderBy>, limitNum: Option<int>)

  /** The record after one step of the setup callback on a builder with these aliases. */
  function Effect(r: Recorded, s: Step, alias: string, parentAlias: string): Recorded {
    match s
    case SelectField(f, k) => r.(jsonFields := r.jsonFields + [JsonEntry(FieldKey(f, k), Qualify(alias, f))])
    case SelectFields(fs) => r.(jsonFields := r.jsonFields + PlainEntries(alias, fs))
    case SelectAs(f, k) => r.(jsonFields := r.jsonFields + [JsonEntry(k, f)])
    case SelectRaw(e, k) => r.(jsonFields := r.jsonFields + [JsonEntry(k, e)])
    case LeftJoin(t, a, c, p) => r.(joins := r.joins + [JoinSpec(Left, t, a, c, p)])
    case InnerJoin(t, a, c, p) => r.(joins := r.joins + [JoinSpec(Inner, t, a, c, p)])
    case Where(c, p) => r.(conditions := r.conditions + [Condition(c, p)])
    case LinkToParent(c, p) => r.(conditions := r.conditions + [Condition(Qualify(alias, c) + " = " + parentAlias + "." + p, map[])])
    case OrderByField(f, d) => r.(orderBys := r.orderBys + [OrderBy(Qualify(alias, f), d)])
    case Limit(n) => r.(limitNum := Some(n))
  }

  /** The record after a whole setup callback. */
  function Effects(r: Recorded, ss: seq<Step>, alias: string, parentAlias: string): Recorded {
    if |ss| == 0 then r else Effect(Effects(r, ss[..|ss| - 1], alias, parentAlias), ss[|ss| - 1], alias, parentAlias)
  }

  /** The sub-query a record renders onto `sub`. */
  function Render(r: Recorded, entity: string, alias: string, sub: Query, isPostgres: bool): Query {
    var q := WithLimit(WithOrders(WithConditions(WithJoins(sub.(entity := Some(entity), alias := alias), r.joins), r.conditions), r.orderBys), r.limitNum);
    q.(selects := [Column(SelectionText(r.jsonFields, isPostgres))])
  }

  /** The recorded entries as the setup callback issues them. */
  datatype Step =
    | SelectField(field: string, key: Option<string>)
    | SelectFields(fields: seq<string>)
    | SelectAs(field: string, asKey: string)
    | SelectRaw(expression: string, rawKey: string)
    | LeftJoin(target: string, alias: string, condition: string, params: RawParams)
    | InnerJoin(target: string, alias: string, condition: string, params: RawParams)
    | Where(condition: string, params: RawParams)
    | LinkToParent(childField: string, parentField: string)
    | OrderByField(field: string, dir: Direction)
    | Limit(count: int)

  class JsonSubQueryBuilder {
    var jsonFields: seq<string>
    var conditions: seq<Condition>
    var joins: seq<JoinSpec>
    var orderBys: seq<OrderBy>
    var limitNum: Option<int>
    const entity: string
    const alias: string
    const parentAlias: string

    constructor (entity: string, alias: string, parentAlias: string)
      ensures this.entity == entity && this.alias == alias && this.parentAlias == parentAlias
      ensures jsonFields == [] && conditions == [] && joins == [] && orderBys == [] && limitNum == None
    {
      this.entity := entity;
      this.alias := alias;
      this.parentAlias := parentAlias;
      jsonFields := [];
      conditions := [];
      joins := [];
      orderBys := [];
      limitNum := None;
    }

    /** `select(field, alias?)`: the field, prefixed with the sub-query alias unless dotted. */
    method Select(field: string, key: Option<string>)
      modifies this
      ensures jsonFields == old(jsonFields) + [JsonEntry(FieldKey(field, key), Qualify(alias, field))]
      ensures conditions == old(conditions) && joins == old(joins) && orderBys == old(orderBys)
      ensures limitNum == old(limitNum)
    {
      jsonFields := jsonFields + [JsonEntry(FieldKey(field, key), Qualify(alias, field))];
    }

    /** `select([f1, f2, ...])`: every field selected plainly, in list order. */
    method SelectMany(fields: seq<string>)
      modifies this
      ensures jsonFields == old(jsonFields) + PlainEntries(alias, fields)
      ensures conditions == old(conditions) && joins == old(joins) && orderBys == old(orderBys)
      ensures limitNum == old(limitNum)
    {
      var i := 0;
      while i < |fields|
        invariant 0 <= i <= |fields|
        invariant jsonFields == old(jsonFields) + PlainEntries(alias, fields)[..i]
        invariant conditions == old(conditions) && joins == old(joins) && orderBys == old(orderBys)
        invariant limitNum == old(limitNum)
      {
        Select(fields[i], None);
        i := i + 1;
      }
      assert PlainEntries(alias, fields)[..i] == PlainEntries(alias, fields);
    }

    /** `select({ field, alias })`: the field as written, under the given key. */
    method SelectAs(field: string, key: string)
      modifies this
      ensures jsonFields == old(jsonFields) + [JsonEntry(key, field)]
      ensures conditions == old(conditions) && joins == old(joins) && orderBys == old(orderBys)
      ensures limitNum == old(limitNum)
    {
      jsonFields := jsonFields + [JsonEntry(key, field)];
    }

    method SelectRawExpr(expression: string, key: string)
      modifies this
      ensures jsonFields == old(jsonFields) + [JsonEntry(key, expression)]
      ensures conditions == old(conditions) && joins == old(joins) && orderBys == old(orderBys)
      ensures limitNum == old(limitNum)
    {
      jsonFields := jsonFields + [JsonEntry(key, expression)];
    }

    method AddJoinSpec(j: JoinSpec)
      modifies this
      ensures joins == old(joins) + [j]
      ensures jsonFields == old(jsonFields) && conditions == old(conditions) && orderBys == old(orderBys)
      ensures limitNum == old(limitNum)
    {
      joins := joins + [j];
    }

    method AddWhere(condition: string, params: RawParams)
      modifies this
      ensures conditions == old(conditions) + [Condition(condition, params)]
      ensures jsonFields == old(jsonFields) && joins == old(joins) && orderBys == old(orderBys)
      ensures limitNum == old(limitNum)
    {
      conditions := conditions + [Condition(condition, params)];
    }

    /** `linkToParent(child, parent = 'id')`: the child column equals the parent alias's column. */
    method LinkParent(childField: string, parentField: string)
      modifies this
      ensures conditions == old(conditions) + [Condition(Qualify(alias, childField) + " = " + parentAlias + "." + parentField, map[])]
      ensures jsonFields == old(jsonFields) && joins == old(joins) && orderBys == old(orderBys)
      ensures limitNum == old(limitNum)
    {
      conditions := conditions + [Condition(Qualify(alias, childField) + " = " + parentAlias + "." + parentField, map[])];
    }

    /** `orderBy(field, order = 'DESC')`. */
    method AddOrderByField(field: string, dir: Direction)
      modifies this
      ensures orderBys == old(orderBys) + [OrderBy(Qualify(alias, field), dir)]
      ensures jsonFields == old(jsonFields) && conditions == old(conditions) && joins == old(joins)
      ensures limitNum == old(limitNum)
    {
      orderBys := orderBys + [OrderBy(Qualify(alias, field), dir)];
    }

    method SetLimit(count: int)
      modifies this
      ensures limitNum == Some(count)
      ensures jsonFields == old(jsonFields) && conditions == old(conditions) && joins == old(joins)
      ensures orderBys == old(orderBys)
    {
      limitNum := Some(count);
    }

    function State(): Recorded
      reads this
    {
      Recorded(jsonFields, conditions, joins, orderBys, limitNum)
    }

    /** Issues one step of a setup callback on this builder. */
    method Apply(s: Step)
      modifies this
      ensures State() == Effect(old(State()), s, alias, parentAlias)
    {
      match s
      case SelectField(f, a) => Select(f, a);
      case SelectFields(fs) => SelectMany(fs);
      case SelectAs(f, k) => SelectAs(f, k);
      case SelectRaw(e, k) => SelectRawExpr(e, k);
      case LeftJoin(t, a, c, p) => AddJoinSpec(JoinSpec(Left, t, a, c, p));
      case InnerJoin(t, a, c, p) => AddJoinSpec(JoinSpec(Inner, t, a, c, p));
      case Where(c, p) => AddWhere(c, p);
      case LinkToParent(c, p) => LinkParent(c, p);
      case OrderByField(f, d) => AddOrderByField(f, d);
      case Limit(n) => SetLimit(n);
    }

    /**
     * `build(sub)`: the entity under the sub-query alias, then the joins, the
     * conditions and the ORDER BY entries in the order recorded, the limit if it is
     * nonzero, and the JSON aggregate as the only selection.
     */
    method Build(sub: Query, driverType: string) returns (r: Query)
      ensures r == Render(State(), entity, alias, sub, DialectOf(driverType) == Postgres)
    {
      var q := sub.(entity := Some(entity), alias := alias);
      var start := q;
      for i := 0 to |joins|
        invariant q == WithJoins(start, joins[..i])
      {
        SliceStep(joins, i);
        q := AddJoin(q, joins[i]);
      }
      assert joins[..|joins|] == joins;
      start := q;
      for i := 0 to |conditions|
        invariant q == WithConditions(start, conditions[..i])
      {
        SliceStep(conditions, i);
        q := AndWhere(q, Raw(conditions[i].text), AsBindings(conditions[i].params));
      }
      assert conditions[..|conditions|] == conditions;
      start := q;
      for i := 0 to |orderBys|
        invariant q == WithOrders(start, orderBys[..i])
      {
        SliceStep(orderBys, i);
        q := AddOrder(q, orderBys[i].expr, orderBys[i].dir);
      }
      assert orderBys[..|orderBys|] == orderBys;
      if limitNum.Some? && limitNum.value != 0 {
        q := q.(limit := limitNum);
      }
      var isPostgres := driverType == "postgres" || driverType == "cockroachdb";
      r := q.(selects := [Column(SelectionText(jsonFields, isPostgres))]);
    }
  }

  /** A dotted field is exposed under its second segment, whatever follows it. */
  lemma DottedFieldKey(a: string, b: string, rest: string)
    requires '.' !in a && '.' !in b && (rest == "" || rest[0] == '.')
    ensures FieldKey(a + "." + b + rest, None) == b
  {
    var tail := b + rest;
    var field := a + ['.'] + tail;
    assert a + "." + b + rest == field;
    assert field[|a|] == '.';
    SplitAfterPiece(a, tail, '.');
    FirstPiece(b, rest, '.');
  }

  /** The first piece of `b + rest` is `b` when `b` has no separator and `rest` is empty or starts with one. */
  lemma FirstPiece(b: string, rest: string, sep: char)
    requires sep !in b && (rest == [] || rest[0] == sep)
    ensures Split(b + rest, sep)[0] == b
  {
    if rest == [] {
      assert b + rest == b;
      SplitNoSeparator(b, sep);
    } else {
      SplitAfterPiece(b, rest[1..], sep);
      assert b + rest == b + [sep] + rest[1..];
    }
  }

  /** A field without a '.' and no alias is exposed under its own name; a non-empty alias always wins. */
  lemma FieldKeyCases(field: string, alias: Option<string>)
    ensures alias.Some? && alias.value != "" ==> FieldKey(field, alias) == alias.value
    ensures (alias == None || alias == Some("")) && '.' !in field ==> FieldKey(field, alias) == field
  {
  }

  /** The recorded conditions are AND-ed onto the sub-query in the order they were recorded. */
  lemma {:induction false} ConditionsInOrder(q: Query, cs: seq<Condition>)
    ensures |WithConditions(q, cs).wheres| == |q.wheres| + |cs|
    ensures WithConditions(q, cs).wheres[..|q.wheres|] == q.wheres
    ensures forall i :: 0 <= i < |cs| ==> WithConditions(q, cs).wheres[|q.wheres| + i] == Raw(cs[i].text)
  {
    if |cs| > 0 {
      ConditionsInOrder(q, cs[..|cs| - 1]);
    }
  }

  /** A zero or missing limit leaves the sub-query unlimited; any other one is applied. */
  lemma LimitOnlyWhenNonzero(q: Query, limitNum: Option<int>)
    ensures WithLimit(q, limitNum).limit == if limitNum == None || limitNum == Some(0) then q.limit else limitNum
  {
  }
}
